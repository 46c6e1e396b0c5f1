// Small value-level helpers shared by the model: an Option type, decimal
// rendering of numbers, ASCII lower-casing and UTF-8 byte lengths.

module Wrappers {
  datatype Option<+T> = None | Some(value: T)
}

module Text {

  /** Sequence concatenation regroups freely. */
  lemma AppendAssoc<T>(a: seq<T>, b: seq<T>, c: seq<T>)
    ensures a + b + c == a + (b + c)
  {
  }

  function Digit(d: nat): (c: char)
    requires d < 10
    ensures '0' <= c <= '9'
  {
    "0123456789"[d]
  }

  function DigitValue(c: char): nat
  {
    if '0' <= c <= '9' then (c as int) - ('0' as int) else 0
  }

  /** Decimal rendering of a natural number (JavaScript's `String(n)` for a
      non-negative integer). */
  function NatToString(n: nat): (s: string)
    ensures 1 <= |s|
    ensures forall k :: 0 <= k < |s| ==> '0' <= s[k] <= '9'
    decreases n
  {
    if n < 10 then [Digit(n)] else NatToString(n / 10) + [Digit(n % 10)]
  }

  /** Reads back a string of decimal digits. */
  function ParseDigits(s: string): nat
    decreases |s|
  {
    if s == [] then 0 else 10 * ParseDigits(s[..|s| - 1]) + DigitValue(s[|s| - 1])
  }

  lemma {:induction false} NatToStringRoundTrip(n: nat)
    ensures ParseDigits(NatToString(n)) == n
    decreases n
  {
    if n >= 10 {
      NatToStringRoundTrip(n / 10);
      var s := NatToString(n);
      assert s[..|s| - 1] == NatToString(n / 10);
    }
  }

  /** Rendering of an integer, with a leading '-' for negative values. */
  function IntToString(i: int): string
  {
    if i < 0 then "-" + NatToString(-i) else NatToString(i)
  }

  function LowerChar(c: char): char
  {
    if 'A' <= c <= 'Z' then ((c as int) + 32) as char else c
  }

  /** `toLowerCase` restricted to the characters that can lower-case into an
      encoding name; every other character is kept. */
  function LowerAscii(s: string): (r: string)
    ensures |r| == |s|
    ensures forall k :: 0 <= k < |s| ==> r[k] == LowerChar(s[k])
  {
    seq(|s|, k requires 0 <= k < |s| => LowerChar(s[k]))
  }

  function UpperChar(c: char): char
  {
    if 'a' <= c <= 'z' then ((c as int) - 32) as char else c
  }

  function UpperAscii(s: string): (r: string)
    ensures |r| == |s|
    ensures forall k :: 0 <= k < |s| ==> r[k] == UpperChar(s[k])
  {
    seq(|s|, k requires 0 <= k < |s| => UpperChar(s[k]))
  }

  /** Number of bytes UTF-8 uses for one Unicode scalar value. */
  function Utf8Width(c: char): nat
  {
    if (c as int) < 0x80 then 1
    else if (c as int) < 0x800 then 2
    else if (c as int) < 0x10000 then 3
    else 4
  }

  /** `Buffer.from(s, 'utf8').byteLength`. */
  function Utf8Length(s: string): nat
    decreases |s|
  {
    if s == [] then 0 else Utf8Length(s[..|s| - 1]) + Utf8Width(s[|s| - 1])
  }

  /** A string takes between one and four bytes per character, so only the
      empty string has byte length zero. */
  lemma {:induction false} Utf8LengthBounds(s: string)
    ensures |s| <= Utf8Length(s) <= 4 * |s|
    ensures Utf8Length(s) == 0 <==> s == []
    decreases |s|
  {
    if s != [] {
      Utf8LengthBounds(s[..|s| - 1]);
    }
  }

  /** The byte length of a concatenation is the sum of the byte lengths. */
  lemma {:induction false} Utf8LengthAppend(a: string, b: string)
    ensures Utf8Length(a + b) == Utf8Length(a) + Utf8Length(b)
    decreases |b|
  {
    if b == [] {
      assert a + b == a;
    } else {
      var b' := b[..|b| - 1];
      assert (a + b)[..|a + b| - 1] == a + b';
      Utf8LengthAppend(a, b');
    }
  }
}

module Json {
  import opened Wrappers
  import opened Text

  /** A value produced by `JSON.parse`. Object members are listed in the order
      `Object.entries` enumerates them; numbers are integers. An object from
      `JSON.parse` never repeats a member name (a later duplicate replaces an
      earlier one), so `Host.Env.parseJson` is taken to give objects with
      distinct member names, on which the first and the last match agree. */
  datatype Json =
    | JNull
    | JBool(b: bool)
    | JNum(n: int)
    | JStr(s: string)
    | JArr(items: seq<Json>)
    | JObj(members: seq<(string, Json)>)

  /** `key in j` followed by `j[key]`: the first member named `key`. */
  function Lookup(j: Json, key: string): (r: Option<Json>)
    ensures r.Some? ==> j.JObj? && exists k :: 0 <= k < |j.members| && j.members[k] == (key, r.value)
    ensures r.None? ==> !j.JObj? || forall k :: 0 <= k < |j.members| ==> j.members[k].0 != key
  {
    if j.JObj? then LookupMembers(j.members, key) else None
  }

  function LookupMembers(ms: seq<(string, Json)>, key: string): (r: Option<Json>)
    ensures r.Some? ==> exists k :: 0 <= k < |ms| && ms[k] == (key, r.value)
    ensures r.None? ==> forall k :: 0 <= k < |ms| ==> ms[k].0 != key
    decreases |ms|
  {
    if ms == [] then None
    else if ms[0].0 == key then Some(ms[0].1)
    else LookupMembers(ms[1..], key)
  }

  /** `isObject`: a non-null, non-array object. */
  predicate IsObject(j: Json)
  {
    j.JObj?
  }

  /** `String(j)`, JavaScript's conversion of a value to a string. */
  function ToJsString(j: Json): string
    decreases j, 1
  {
    match j
    case JNull => "null"
    case JBool(b) => if b then "true" else "false"
    case JNum(n) => IntToString(n)
    case JStr(s) => s
    case JArr(items) => JoinElements(j, items)
    case JObj(_) => "[object Object]"
  }

  /** `Array.prototype.join(',')`, where a null element contributes nothing. */
  function JoinElements(parent: Json, items: seq<Json>): string
    requires forall k :: 0 <= k < |items| ==> items[k] < parent
    decreases parent, 0, |items|
  {
    if items == [] then ""
    else
      var first := if items[0].JNull? then "" else ToJsString(items[0]);
      if |items| == 1 then first else first + "," + JoinElements(parent, items[1..])
  }
}

module Batching {

  /** The consecutive slices `xs[i .. i + c]` for `i = 0, c, 2c, ...`. */
  function Batches<T>(xs: seq<T>, c: nat): seq<seq<T>>
    requires c >= 1
    decreases |xs|
  {
    if xs == [] then [] else [xs[..if |xs| < c then |xs| else c]] + Batches(xs[if |xs| < c then |xs| else c..], c)
  }

  function Flatten<T>(xss: seq<seq<T>>): seq<T>
    decreases |xss|
  {
    if xss == [] then [] else xss[0] + Flatten(xss[1..])
  }

  /** Running the batches one after another runs every item exactly once, in
      the original order; every batch is non-empty and holds at most `c` items. */
  lemma {:induction false} BatchesPartition<T>(xs: seq<T>, c: nat)
    requires c >= 1
    ensures Flatten(Batches(xs, c)) == xs
    ensures forall k :: 0 <= k < |Batches(xs, c)| ==> 1 <= |Batches(xs, c)[k]| <= c
    decreases |xs|
  {
    if xs != [] {
      var m := if |xs| < c then |xs| else c;
      var rest := Batches(xs[m..], c);
      BatchesPartition(xs[m..], c);
      assert Batches(xs, c) == [xs[..m]] + rest;
      assert Flatten([xs[..m]] + rest) == xs[..m] + Flatten(rest) by {
        assert ([xs[..m]] + rest)[1..] == rest;
      }
      assert xs[..m] + xs[m..] == xs;
    }
  }

  /** The batch that starts at a multiple `i` of `c`. */
  lemma BatchesFrom<T>(xs: seq<T>, i: nat, c: nat)
    requires c >= 1 && i < |xs|
    ensures Batches(xs[i..], c) ==
      [xs[i..if |xs| < i + c then |xs| else i + c]] + Batches(xs[if |xs| < i + c then |xs| else i + c..], c)
  {
    var m := if |xs| < i + c then |xs| else i + c;
    assert xs[i..][..m - i] == xs[i..m];
    assert xs[i..][m - i..] == xs[m..];
  }
  /** How a job, or a run of jobs, settles: resolved with a result, or
      never, because a callback threw. */
  datatype Outcome = Resolved(ok: bool) | Throws

  /** How running `jobs` one after another settles, when job `x` settles as
      `f(x)`: a throw anywhere throws; otherwise the run resolves to whether
      every job resolved to true. */
  function RunOutcome<T>(f: T -> Outcome, jobs: seq<T>): Outcome
  {
    if exists j :: 0 <= j < |jobs| && f(jobs[j]).Throws? then Throws
    else Resolved(forall j :: 0 <= j < |jobs| ==> f(jobs[j]).ok)
  }

  /** The outcome of running `a` and then `b`. */
  lemma RunOutcomeAppend<T>(f: T -> Outcome, a: seq<T>, b: seq<T>)
    requires RunOutcome(f, a).Resolved?
    ensures RunOutcome(f, a + b) ==
      match RunOutcome(f, b)
      case Throws => Throws
      case Resolved(ok) => Resolved(RunOutcome(f, a).ok && ok)
  {
    var ab := a + b;
    assert forall j :: 0 <= j < |b| ==> ab[|a| + j] == b[j];
    assert forall j :: 0 <= j < |ab| ==> ab[j] == if j < |a| then a[j] else b[j - |a|];
  }

  /** The outcome of one more job after a prefix that resolved. */
  lemma RunOutcomeNext<T>(f: T -> Outcome, jobs: seq<T>, j: nat)
    requires j < |jobs| && RunOutcome(f, jobs[..j]).Resolved?
    ensures RunOutcome(f, jobs[..j + 1]) ==
      match f(jobs[j])
      case Throws => Throws
      case Resolved(ok) => Resolved(RunOutcome(f, jobs[..j]).ok && ok)
  {
    RunOutcomeAppend(f, jobs[..j], [jobs[j]]);
    assert jobs[..j + 1] == jobs[..j] + [jobs[j]];
    assert [jobs[j]][0] == jobs[j];
  }

  /** A run that throws on a prefix throws on the whole. */
  lemma ThrowsExtends<T>(f: T -> Outcome, jobs: seq<T>, end: nat)
    requires end <= |jobs| && RunOutcome(f, jobs[..end]).Throws?
    ensures RunOutcome(f, jobs).Throws?
  {
    var j :| 0 <= j < end && f(jobs[..end][j]).Throws?;
    assert jobs[j] == jobs[..end][j];
  }

  /** Where a batch loop is once the jobs before `done` have run, as the
      batches `ran`, with `success` their conjunction. */
  ghost predicate Batched<T>(f: T -> Outcome, jobs: seq<T>, done: nat, success: bool, ran: seq<seq<T>>, c: nat)
    requires c >= 1
  {
    && done <= |jobs|
    && RunOutcome(f, jobs[..done]) == Resolved(success)
    && ran + Batches(jobs[done..], c) == Batches(jobs, c)
  }

  lemma BatchedStart<T>(f: T -> Outcome, jobs: seq<T>, c: nat)
    requires c >= 1
    ensures Batched(f, jobs, 0, true, [], c)
  {
    assert jobs[0..] == jobs;
  }

  /** One turn of a batch loop: the next slice of at most `c` jobs, and the
      outcome it adds. */
  lemma BatchStep<T>(f: T -> Outcome, jobs: seq<T>, done: nat, success: bool, ran: seq<seq<T>>, c: nat,
                     end: nat, result: Outcome)
    requires c >= 1 && done < |jobs| && Batched(f, jobs, done, success, ran, c)
    requires end == if |jobs| < done + c then |jobs| else done + c
    requires result == RunOutcome(f, jobs[done..end])
    ensures result.Throws? ==> RunOutcome(f, jobs).Throws?
    ensures result.Resolved? ==> Batched(f, jobs, end, success && result.ok, ran + [jobs[done..end]], c)
  {
    BatchesFrom(jobs, done, c);
    RunOutcomeAppend(f, jobs[..done], jobs[done..end]);
    assert jobs[..end] == jobs[..done] + jobs[done..end];
    if result.Throws? {
      ThrowsExtends(f, jobs, end);
    }
    assert ran + [jobs[done..end]] + Batches(jobs[end..], c) == ran + ([jobs[done..end]] + Batches(jobs[end..], c));
  }

  /** At the end of a batch loop every batch has run and the result is the
      outcome of the whole run. */
  lemma BatchedEnd<T>(f: T -> Outcome, jobs: seq<T>, success: bool, ran: seq<seq<T>>, c: nat)
    requires c >= 1 && Batched(f, jobs, |jobs|, success, ran, c)
    ensures RunOutcome(f, jobs) == Resolved(success) && ran == Batches(jobs, c)
  {
    assert jobs[..|jobs|] == jobs;
    assert jobs[|jobs|..] == [];
  }
}
