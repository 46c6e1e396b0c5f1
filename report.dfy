// The table reporter of src/log/report.ts: how a slot is judged against its
// budget, the rows `update` emits, and the summary `end` writes.

module Report {
  import opened Wrappers
  import opened Condition
  import opened Output
  import Strings = Text

  /** How a reporter sees one slot. */
  datatype Verdict =
    | Skipped     // `undefined`: the encoding is ignored for the file
    | Processing  // `null`: still being measured
    | Unbudgeted  // measured, no budget
    | Success     // under budget
    | Warning     // under budget by less than 5%
    | Failure     // at or over budget

  /** The classification of `displaySize`. The floating-point test
      `1 - size / maxSize < 0.05` is read exactly, as
      `20 * (maxSize - size) < maxSize`. */
  function Classify(slot: Slot): Verdict
  {
    match slot.size
    case Ignored => Skipped
    case Awaiting => Processing
    case Calculated(size) =>
      match slot.maxSize
      case Unrestricted => Unbudgeted
      case Limit(max) =>
        if size < max then (if 20 * (max - size) < max then Warning else Success)
        else Failure
  }

  /** A measured slot fails exactly when it is not within its budget, that
      is when `store` reports it as failing; a warning is a pass by a margin
      of less than 5% of the budget. */
  lemma ClassifyAgainstBudget(slot: Slot)
    requires slot.size.Calculated?
    ensures Classify(slot) == Failure <==> !WithinBudget(slot.size.bytes, slot.maxSize)
    ensures Classify(slot) == Warning <==>
      slot.maxSize.Limit? && slot.size.bytes < slot.maxSize.bytes && 20 * slot.size.bytes > 19 * slot.maxSize.bytes
    ensures Classify(slot) == Unbudgeted <==> slot.maxSize.Unrestricted?
  {
  }

  /** `undefined` and `null` sizes are never counted. */
  lemma ClassifyUnmeasured(slot: Slot)
    ensures slot.size.Ignored? <==> Classify(slot) == Skipped
    ensures slot.size.Awaiting? <==> Classify(slot) == Processing
  {
  }

  /** What `displaySize` appends to the current line. */
  function CellOf(slot: Slot): (c: Cell)
    ensures c.Placeholder? <==> !slot.size.Calculated?
    ensures !c.Placeholder? ==> c.bytes == slot.size.bytes
  {
    match Classify(slot)
    case Skipped => Placeholder
    case Processing => Placeholder
    case Unbudgeted => Neutral(slot.size.bytes)
    case Success => Pass(slot.size.bytes)
    case Warning => Warn(slot.size.bytes)
    case Failure => Fail(slot.size.bytes)
  }

  /** The cells of a row, one per encoding slot. */
  function Cells(record: seq<Slot>): (cells: seq<Cell>)
    ensures |cells| == |record|
    ensures forall i :: 0 <= i < |record| ==> cells[i] == CellOf(record[i])
  {
    if record == [] then [] else Cells(record[..|record| - 1]) + [CellOf(record[|record| - 1])]
  }

  /** The result of `displaySize`: `null` while processing, `true` on a
      failure, `false` otherwise. */
  function HasFailure(v: Verdict): Option<bool>
  {
    if v == Processing then None else Some(v == Failure)
  }

  /** The `success`, `warning` and `failure` counters. */
  datatype Counts = Counts(success: nat, warning: nat, failure: nat)

  const Zero := Counts(0, 0, 0)

  function Plus(a: Counts, b: Counts): Counts
  {
    Counts(a.success + b.success, a.warning + b.warning, a.failure + b.failure)
  }

  /** The counter a verdict increments, if any. */
  function Count(v: Verdict): (c: Counts)
    ensures c.success + c.warning + c.failure <= 1
    ensures c.success + c.warning + c.failure == 1 <==> v in {Success, Warning, Failure}
  {
    match v
    case Success => Counts(1, 0, 0)
    case Warning => Counts(0, 1, 0)
    case Failure => Counts(0, 0, 1)
    case _ => Zero
  }

  /** The counts one record contributes. */
  function Tally(record: seq<Slot>): (c: Counts)
    ensures c.success + c.warning + c.failure <= |record|
  {
    if record == [] then Zero
    else Plus(Tally(record[..|record| - 1]), Count(Classify(record[|record| - 1])))
  }

  /** Some slot of the record is at or over its budget. */
  predicate Failing(record: seq<Slot>)
  {
    exists i :: 0 <= i < |record| && Classify(record[i]) == Failure
  }

  /** Some slot of the record is still being measured. */
  predicate InProgress(record: seq<Slot>)
  {
    exists i :: 0 <= i < |record| && record[i].size == Awaiting
  }

  /** A record adds to the failure counter exactly when it is failing. */
  lemma {:induction false} TallyFailure(record: seq<Slot>)
    ensures Tally(record).failure == 0 <==> !Failing(record)
    decreases |record|
  {
    if record != [] {
      var init := record[..|record| - 1];
      TallyFailure(init);
      assert forall i :: 0 <= i < |init| ==> init[i] == record[i];
      if Failing(init) {
        var i :| 0 <= i < |init| && Classify(init[i]) == Failure;
        assert Classify(record[i]) == Failure;
      }
      if Failing(record) {
        var i :| 0 <= i < |record| && Classify(record[i]) == Failure;
        if i < |init| {
          assert Classify(init[i]) == Failure;
        }
      }
    }
  }

  /** The name `update` shows for a path: its configured spelling when there
      is a non-empty one (`originalPaths.get(path) || path`). */
  function DisplayPath(names: map<Path, string>, p: Path): (d: string)
    ensures d == p || (p in names && d == names[p])
  {
    if p in names && names[p] != "" then names[p] else p
  }

  /** The row `update` emits for a completed path: a cross iff some slot
      failed, otherwise a tick. */
  function ReportRow(t: map<Path, seq<Slot>>, names: map<Path, string>, p: Path): Token
    requires p in t
  {
    Row(if Failing(t[p]) then Cross else Tick, DisplayPath(names, p), Cells(t[p]))
  }

  function RowsOf(t: map<Path, seq<Slot>>, names: map<Path, string>, ps: seq<Path>): (rows: Text)
    requires forall p :: p in ps ==> p in t
    ensures |rows| == |ps|
  {
    if ps == [] then [] else [ReportRow(t, names, ps[0])] + RowsOf(t, names, ps[1..])
  }

  lemma RowsCons(t: map<Path, seq<Slot>>, names: map<Path, string>, p: Path, ps: seq<Path>)
    requires p in t && forall q :: q in ps ==> q in t
    ensures RowsOf(t, names, [p] + ps) == [ReportRow(t, names, p)] + RowsOf(t, names, ps)
  {
    assert ([p] + ps)[0] == p && ([p] + ps)[1..] == ps;
  }

  /** The counts of a list of records. */
  function TallyOf(t: map<Path, seq<Slot>>, ps: seq<Path>): Counts
    requires forall p :: p in ps ==> p in t
  {
    if ps == [] then Zero else Plus(Tally(t[ps[0]]), TallyOf(t, ps[1..]))
  }

  /** `e` is `s` with some elements left out. */
  predicate InOrder(e: seq<Path>, s: seq<Path>)
    decreases |s|
  {
    if s == [] then e == []
    else (e != [] && e[0] == s[0] && InOrder(e[1..], s[1..])) || InOrder(e, s[1..])
  }

  /** Where `update` is after some paths: the rows built so far, the
      completed paths, the counters, and the path it stopped at, if any. */
  datatype Scan = Scan(rows: Text, completed: seq<Path>, counts: Counts, stopped: Option<Path>)

  /** One turn of `update`'s loop: a path missing from the table or already
      completed is skipped; otherwise its slots are counted, and it either
      stops the scan (some slot is still processing) or is completed with a
      row. */
  function Step(t: map<Path, seq<Slot>>, names: map<Path, string>, acc: Scan, p: Path): Scan
  {
    if p !in t || p in acc.completed then acc
    else
      var counts := Plus(acc.counts, Tally(t[p]));
      if InProgress(t[p]) then acc.(counts := counts, stopped := Some(p))
      else acc.(counts := counts, completed := acc.completed + [p], rows := acc.rows + [ReportRow(t, names, p)])
  }

  /** `update`'s loop from the `k`-th path on. */
  function ScanFrom(paths: seq<Path>, k: nat, t: map<Path, seq<Slot>>, names: map<Path, string>, acc: Scan): Scan
    decreases |paths| - k
  {
    if k >= |paths| || acc.stopped.Some? then acc
    else ScanFrom(paths, k + 1, t, names, Step(t, names, acc, paths[k]))
  }

  /** The paths a scan from the `k`-th path on completes, in order. */
  function Emitted(paths: seq<Path>, k: nat, t: map<Path, seq<Slot>>, names: map<Path, string>, acc: Scan): seq<Path>
    decreases |paths| - k
  {
    if k >= |paths| || acc.stopped.Some? then []
    else
      var next := Step(t, names, acc, paths[k]);
      (if next.completed == acc.completed then [] else [paths[k]]) + Emitted(paths, k + 1, t, names, next)
  }

  /** The newly completed paths are paths of the table that were not
      complete yet and are not processing. */
  lemma {:induction false} ScanMembers(paths: seq<Path>, k: nat, t: map<Path, seq<Slot>>, names: map<Path, string>, acc: Scan)
    ensures forall p :: p in Emitted(paths, k, t, names, acc) ==> p in t && p !in acc.completed && !InProgress(t[p])
    decreases |paths| - k
  {
    if k < |paths| && acc.stopped.None? {
      var next := Step(t, names, acc, paths[k]);
      ScanMembers(paths, k + 1, t, names, next);
      assert forall p :: p in acc.completed ==> p in next.completed;
    }
  }

  /** The completed list grows by exactly the newly completed paths. */
  lemma {:induction false} ScanCompleted(paths: seq<Path>, k: nat, t: map<Path, seq<Slot>>, names: map<Path, string>, acc: Scan)
    ensures ScanFrom(paths, k, t, names, acc).completed == acc.completed + Emitted(paths, k, t, names, acc)
    decreases |paths| - k
  {
    if k < |paths| && acc.stopped.None? {
      var p := paths[k];
      var next := Step(t, names, acc, p);
      var e' := Emitted(paths, k + 1, t, names, next);
      ScanCompleted(paths, k + 1, t, names, next);
      assert ScanFrom(paths, k, t, names, acc) == ScanFrom(paths, k + 1, t, names, next);
      assert Emitted(paths, k, t, names, acc) == (if next.completed == acc.completed then [] else [p]) + e';
      if next.completed != acc.completed {
        assert next.completed == acc.completed + [p];
        assert acc.completed + [p] + e' == acc.completed + ([p] + e');
      } else {
        assert [] + e' == e';
      }
    }
  }

  /** The rows written are those of the newly completed paths, in the
      same order. */
  lemma {:induction false} ScanRows(paths: seq<Path>, k: nat, t: map<Path, seq<Slot>>, names: map<Path, string>, acc: Scan)
    ensures forall p :: p in Emitted(paths, k, t, names, acc) ==> p in t
    ensures ScanFrom(paths, k, t, names, acc).rows == acc.rows + RowsOf(t, names, Emitted(paths, k, t, names, acc))
    decreases |paths| - k
  {
    ScanMembers(paths, k, t, names, acc);
    if k < |paths| && acc.stopped.None? {
      var p := paths[k];
      var next := Step(t, names, acc, p);
      var e' := Emitted(paths, k + 1, t, names, next);
      ScanRows(paths, k + 1, t, names, next);
      assert ScanFrom(paths, k, t, names, acc) == ScanFrom(paths, k + 1, t, names, next);
      if next.completed != acc.completed {
        assert Emitted(paths, k, t, names, acc) == [p] + e';
        assert p in t && p !in acc.completed && !InProgress(t[p]);
        assert next.rows == acc.rows + [ReportRow(t, names, p)];
        RowsCons(t, names, p, e');
        Strings.AppendAssoc(acc.rows, [ReportRow(t, names, p)], RowsOf(t, names, e'));
      } else {
        assert Emitted(paths, k, t, names, acc) == e';
        assert next.rows == acc.rows;
      }
    }
  }

  /** The newly completed paths are taken in `paths` order. */
  lemma {:induction false} ScanInOrder(paths: seq<Path>, k: nat, t: map<Path, seq<Slot>>, names: map<Path, string>, acc: Scan)
    requires k <= |paths|
    ensures InOrder(Emitted(paths, k, t, names, acc), paths[k..])
    decreases |paths| - k
  {
    if k < |paths| {
      assert paths[k..][1..] == paths[k + 1..];
      if acc.stopped.None? {
        var next := Step(t, names, acc, paths[k]);
        var e' := Emitted(paths, k + 1, t, names, next);
        ScanInOrder(paths, k + 1, t, names, next);
        if next.completed != acc.completed {
          assert ([paths[k]] + e')[1..] == e';
        } else {
          assert [] + e' == e';
        }
      } else {
        EmptyInOrder(paths[k + 1..]);
      }
    }
  }

  lemma {:induction false} EmptyInOrder(s: seq<Path>)
    ensures InOrder([], s)
    decreases |s|
  {
    if s != [] {
      EmptyInOrder(s[1..]);
    }
  }

  /** No path is completed twice. */
  lemma {:induction false} ScanDistinct(paths: seq<Path>, k: nat, t: map<Path, seq<Slot>>, names: map<Path, string>, acc: Scan)
    requires Distinct(acc.completed)
    ensures Distinct(ScanFrom(paths, k, t, names, acc).completed)
    decreases |paths| - k
  {
    if k < |paths| && acc.stopped.None? {
      ScanDistinct(paths, k + 1, t, names, Step(t, names, acc, paths[k]));
    }
  }

  /** The counters after one `update`: the counts of the rows it emitted
      plus those of the row it stopped at. */
  lemma {:induction false} ScanCounts(paths: seq<Path>, k: nat, t: map<Path, seq<Slot>>, names: map<Path, string>, acc: Scan)
    ensures CountsFrom(paths, k, t, names, acc)
    decreases |paths| - k
  {
    if k < |paths| && acc.stopped.None? {
      var p := paths[k];
      if p !in t || p in acc.completed {
        ScanCounts(paths, k + 1, t, names, acc);
        CountsSkip(paths, k, t, names, acc);
      } else if InProgress(t[p]) {
        CountsStop(paths, k, t, names, acc);
      } else {
        ScanCounts(paths, k + 1, t, names, Step(t, names, acc, p));
        CountsDraw(paths, k, t, names, acc);
      }
    }
  }

  /** The counters after one `update` from the `k`-th path on: the counts
      of the rows it emitted plus those of the row it stopped at. */
  ghost predicate CountsFrom(paths: seq<Path>, k: nat, t: map<Path, seq<Slot>>, names: map<Path, string>, acc: Scan)
  {
    var e := Emitted(paths, k, t, names, acc);
    && (forall p :: p in e ==> p in t)
    && ScanFrom(paths, k, t, names, acc).counts
       == Plus(Plus(acc.counts, TallyOf(t, e)), StopTally(t, acc, ScanFrom(paths, k, t, names, acc)))
  }

  lemma CountsSkip(paths: seq<Path>, k: nat, t: map<Path, seq<Slot>>, names: map<Path, string>, acc: Scan)
    requires k < |paths| && acc.stopped.None? && (paths[k] !in t || paths[k] in acc.completed)
    requires CountsFrom(paths, k + 1, t, names, acc)
    ensures CountsFrom(paths, k, t, names, acc)
  {
    assert Step(t, names, acc, paths[k]) == acc;
    assert ScanFrom(paths, k, t, names, acc) == ScanFrom(paths, k + 1, t, names, acc);
    assert Emitted(paths, k, t, names, acc) == [] + Emitted(paths, k + 1, t, names, acc);
    assert [] + Emitted(paths, k + 1, t, names, acc) == Emitted(paths, k + 1, t, names, acc);
  }

  lemma CountsStop(paths: seq<Path>, k: nat, t: map<Path, seq<Slot>>, names: map<Path, string>, acc: Scan)
    requires k < |paths| && acc.stopped.None? && paths[k] in t && paths[k] !in acc.completed && InProgress(t[paths[k]])
    ensures CountsFrom(paths, k, t, names, acc)
  {
    var p := paths[k];
    var next := acc.(counts := Plus(acc.counts, Tally(t[p])), stopped := Some(p));
    assert Step(t, names, acc, p) == next;
    assert ScanFrom(paths, k, t, names, acc) == next;
    assert Emitted(paths, k, t, names, acc) == [];
  }

  lemma CountsDraw(paths: seq<Path>, k: nat, t: map<Path, seq<Slot>>, names: map<Path, string>, acc: Scan)
    requires k < |paths| && acc.stopped.None? && paths[k] in t && paths[k] !in acc.completed && !InProgress(t[paths[k]])
    requires CountsFrom(paths, k + 1, t, names, Step(t, names, acc, paths[k]))
    ensures CountsFrom(paths, k, t, names, acc)
  {
    var p := paths[k];
    var next := Step(t, names, acc, p);
    var e' := Emitted(paths, k + 1, t, names, next);
    var r := ScanFrom(paths, k + 1, t, names, next);
    assert next.completed == acc.completed + [p] && next.stopped.None?;
    assert next.counts == Plus(acc.counts, Tally(t[p]));
    assert ScanFrom(paths, k, t, names, acc) == r;
    assert Emitted(paths, k, t, names, acc) == [p] + e';
    assert forall q :: q in e' ==> q in t;
    TallyOfCons(t, p, e');
    assert StopTally(t, next, r) == StopTally(t, acc, r);
  }

  lemma TallyOfCons(t: map<Path, seq<Slot>>, p: Path, ps: seq<Path>)
    requires p in t && forall q :: q in ps ==> q in t
    ensures TallyOf(t, [p] + ps) == Plus(Tally(t[p]), TallyOf(t, ps))
  {
    assert ([p] + ps)[0] == p && ([p] + ps)[1..] == ps;
  }

  /** Where `update`'s loop is after `k` paths, on its way to `result`. */
  ghost predicate Scanning(paths: seq<Path>, k: nat, t: map<Path, seq<Slot>>, names: map<Path, string>,
                           output: Text, completed: seq<Path>, counts: Counts, result: Scan)
  {
    k <= |paths| && ScanFrom(paths, k, t, names, Scan(output, completed, counts, None)) == result
  }

  /** A turn of the loop that skips its path. */
  lemma ScanSkips(paths: seq<Path>, k: nat, t: map<Path, seq<Slot>>, names: map<Path, string>,
                  output: Text, completed: seq<Path>, counts: Counts, result: Scan)
    requires k < |paths| && Scanning(paths, k, t, names, output, completed, counts, result)
    requires paths[k] !in t || paths[k] in completed
    ensures Scanning(paths, k + 1, t, names, output, completed, counts, result)
  {
  }

  /** A turn of the loop that draws a path still processing: the scan ends
      there. */
  lemma ScanStopsAt(paths: seq<Path>, k: nat, t: map<Path, seq<Slot>>, names: map<Path, string>,
                    output: Text, completed: seq<Path>, counts: Counts, result: Scan)
    requires k < |paths| && Scanning(paths, k, t, names, output, completed, counts, result)
    requires paths[k] in t && paths[k] !in completed && InProgress(t[paths[k]])
    ensures result == Scan(output, completed, Plus(counts, Tally(t[paths[k]])), Some(paths[k]))
  {
    var next := Step(t, names, Scan(output, completed, counts, None), paths[k]);
    assert next == Scan(output, completed, Plus(counts, Tally(t[paths[k]])), Some(paths[k]));
    assert ScanFrom(paths, k + 1, t, names, next) == next;
  }

  /** A turn of the loop that completes its path with its row. */
  lemma ScanCompletesAt(paths: seq<Path>, k: nat, t: map<Path, seq<Slot>>, names: map<Path, string>,
                        output: Text, completed: seq<Path>, counts: Counts, result: Scan)
    requires k < |paths| && Scanning(paths, k, t, names, output, completed, counts, result)
    requires paths[k] in t && paths[k] !in completed && !InProgress(t[paths[k]])
    ensures Scanning(paths, k + 1, t, names, output + [ReportRow(t, names, paths[k])], completed + [paths[k]],
                     Plus(counts, Tally(t[paths[k]])), result)
  {
  }

  /** The loop has run past the last path. */
  lemma ScanEnds(paths: seq<Path>, t: map<Path, seq<Slot>>, names: map<Path, string>,
                 output: Text, completed: seq<Path>, counts: Counts, result: Scan)
    requires Scanning(paths, |paths|, t, names, output, completed, counts, result)
    ensures result == Scan(output, completed, counts, None)
  {
  }

  /** The counts of the row the scan stopped at, if it stopped during this
      scan. */
  function StopTally(t: map<Path, seq<Slot>>, acc: Scan, r: Scan): Counts
  {
    if acc.stopped.None? && r.stopped.Some? && r.stopped.value in t then Tally(t[r.stopped.value]) else Zero
  }
  /** A scan stops only at a path of the table that is still processing,
      and the completed list never holds it. */
  lemma {:induction false} ScanStops(paths: seq<Path>, k: nat, t: map<Path, seq<Slot>>, names: map<Path, string>, acc: Scan)
    requires k <= |paths| && acc.stopped.None?
    ensures var r := ScanFrom(paths, k, t, names, acc);
      r.stopped.Some? ==>
        && r.stopped.value in paths[k..] && r.stopped.value in t
        && InProgress(t[r.stopped.value]) && r.stopped.value !in r.completed
    decreases |paths| - k
  {
    if k < |paths| {
      var next := Step(t, names, acc, paths[k]);
      if next.stopped.None? {
        ScanStops(paths, k + 1, t, names, next);
      }
    }
  }

  /** The summary `end` writes: nothing when every counter is 0; otherwise
      the passed line (with the party icon iff nothing failed), the warned
      and failed lines when their counts are positive, then blank lines. */
  function Summary(c: Counts): (texts: seq<Text>)
    ensures texts == [] <==> c == Zero
    ensures texts != [] ==> texts[0] == [Passed(c.success, c.failure == 0)] && texts[|texts| - 1] == [Blank]
    ensures [Warned(c.warning)] in texts <==> c.warning > 0
    ensures [Failed(c.failure)] in texts <==> c.failure > 0
    ensures forall k :: 0 <= k < |texts| ==> texts[k] != []
  {
    if c.success > 0 || c.warning > 0 || c.failure > 0 then
      [[Passed(c.success, c.failure == 0)]]
      + (if c.warning > 0 then [[Warned(c.warning)]] else [])
      + (if c.failure > 0 then [[Failed(c.failure)]] else [])
      + [[Blank]]
    else []
  }

  /** After an `update` that started from zeroed counters, the summary shows
      the party icon iff no row it emitted, nor the row it stopped at, has a
      failing slot. */
  lemma {:induction false} TadaIffNoCross(t: map<Path, seq<Slot>>, ps: seq<Path>)
    requires forall p :: p in ps ==> p in t
    ensures TallyOf(t, ps).failure == 0 <==> forall p :: p in ps ==> !Failing(t[p])
    decreases |ps|
  {
    if ps != [] {
      TallyFailure(t[ps[0]]);
      TadaIffNoCross(t, ps[1..]);
      assert forall p :: p in ps ==> p == ps[0] || p in ps[1..];
    }
  }

  /** Where the slot loop of a row is after `i` slots. */
  ghost predicate Drawn(rec: seq<Slot>, i: nat, failing: bool, processing: bool, cells: seq<Cell>, counts0: Counts, counts: Counts)
  {
    && i <= |rec|
    && failing == Failing(rec[..i]) && processing == InProgress(rec[..i])
    && cells == Cells(rec[..i]) && counts == Plus(counts0, Tally(rec[..i]))
  }

  lemma DrawStep(rec: seq<Slot>, i: nat, failing: bool, processing: bool, cells: seq<Cell>, counts0: Counts, counts: Counts)
    requires i < |rec| && Drawn(rec, i, failing, processing, cells, counts0, counts)
    ensures var v := Classify(rec[i]);
      Drawn(rec, i + 1, failing || v == Failure, processing || v == Processing, cells + [CellOf(rec[i])],
            counts0, Plus(counts, Count(v)))
  {
    var pre, next := rec[..i], rec[..i + 1];
    assert next[..i] == pre && next[i] == rec[i];
    assert forall j :: 0 <= j < i ==> next[j] == pre[j];
    if Failing(next) {
      var j :| 0 <= j < |next| && Classify(next[j]) == Failure;
      if j < i {
        assert Classify(pre[j]) == Failure;
      }
    }
    if InProgress(next) {
      var j :| 0 <= j < |next| && next[j].size == Awaiting;
      if j < i {
        assert pre[j].size == Awaiting;
      }
    }
  }

  /** The two header texts `start` writes. */
  const Header: seq<Text> := [[Heading], [Columns]]

  /** `Report`: the paths of the table at construction, in table order, the
      counters, and the paths whose rows have been emitted. `currentLine` is
      the list of cells each method builds for a row. */
  class Report {
    var silent: bool
    const paths: seq<Path>
    var success: nat
    var warning: nat
    var failure: nat
    var completedPaths: seq<Path>

    function Counters(): Counts
      reads this
    {
      Counts(success, warning, failure)
    }

    /** Each completed path is one of `paths`, and is completed once. */
    ghost predicate Valid()
      reads this
    {
      && Distinct(completedPaths)
      && (forall p :: p in completedPaths ==> p in paths)
    }

    /** Silent: nothing but the flag. Otherwise the paths of the table are
        taken and the header is written. */
    constructor (ctx: Context, out: Queue)
      requires out.Valid()
      modifies out
      ensures Valid() && out.Valid()
      ensures silent == ctx.silent && Counters() == Zero && completedPaths == []
      ensures ctx.silent ==> paths == [] && out.stdout == old(out.stdout)
      ensures !ctx.silent ==> paths == ctx.order && out.stdout == old(out.stdout) + Header
    {
      success, warning, failure := 0, 0, 0;
      completedPaths := [];
      silent := ctx.silent;
      paths := if ctx.silent then [] else ctx.order;
      new;
      if !ctx.silent {
        Start(out);
      }
    }

    /** `start`: the title and the encoding names. */
    static method Start(out: Queue)
      requires out.Valid()
      modifies out
      ensures out.Valid() && out.stdout == old(out.stdout) + Header
    {
      out.Write([Heading]);
      out.Write([Columns]);
    }

    /** `displaySize` on slot `i` of a record: the cell for the slot, the
        counter its verdict names incremented, and `null`, `true` or
        `false` for processing, failing or anything else. */
    method DisplaySize(record: array<Slot>, i: nat) returns (hasFailure: Option<bool>, cell: Cell)
      requires i < record.Length
      modifies this`success, this`warning, this`failure
      ensures hasFailure == HasFailure(Classify(record[i])) && cell == CellOf(record[i])
      ensures Counters() == Plus(old(Counters()), Count(Classify(record[i])))
    {
      var slot := record[i];
      cell := CellOf(slot);
      match slot.size {
        case Ignored => return Some(false), cell;
        case Awaiting => return None, cell;
        case Calculated(size) =>
          match slot.maxSize {
            case Unrestricted => return Some(false), cell;
            case Limit(max) =>
              if size < max {
                if 20 * (max - size) < max {
                  warning := warning + 1;
                  return Some(false), cell;
                }
                success := success + 1;
                return Some(false), cell;
              }
              failure := failure + 1;
              return Some(true), cell;
          }
      }
    }

    /** The loop over the three slots that `update` runs for a row: whether
        some slot failed, whether some slot is processing, and the cells. */
    method DrawRecord(record: array<Slot>) returns (failing: bool, processing: bool, cells: seq<Cell>)
      modifies this`success, this`warning, this`failure
      ensures failing == Failing(record[..]) && processing == InProgress(record[..])
      ensures cells == Cells(record[..])
      ensures Counters() == Plus(old(Counters()), Tally(record[..]))
    {
      ghost var rec := record[..];
      ghost var counts0 := Counters();
      failing, processing, cells := false, false, [];
      for i := 0 to record.Length
        invariant Drawn(rec, i, failing, processing, cells, counts0, Counters())
      {
        ghost var counts := Counters();
        var hasFailure, cell := DisplaySize(record, i);
        DrawStep(rec, i, failing, processing, cells, counts0, counts);
        cells := cells + [cell];
        if hasFailure == None {
          processing := true;
        } else if !failing {
          failing := hasFailure.value;
        }
      }
      assert rec[..|rec|] == rec;
    }

    /** The body of `update`'s loop for a path of the table: its slots
        drawn and counted, whether one is still processing, and the row
        with its icon. */
    method DrawPath(ctx: Context, path: Path, ghost rec: seq<Slot>) returns (processing: bool, row: Token)
      requires path in ctx.compressed && rec == ctx.compressed[path][..]
      modifies this`success, this`warning, this`failure
      ensures processing == InProgress(rec)
      ensures Counters() == Plus(old(Counters()), Tally(rec))
      ensures row == Row(if Failing(rec) then Cross else Tick, DisplayPath(ctx.originalPaths, path), Cells(rec))
    {
      var record := ctx.compressed[path];
      var displayPath := if path in ctx.originalPaths && ctx.originalPaths[path] != "" then ctx.originalPaths[path] else path;
      var failing, cells;
      failing, processing, cells := DrawRecord(record);
      row := Row(if failing then Cross else Tick, displayPath, cells);
    }

    /** `update`: unless silent, the counters are reset, the paths not yet
        completed are scanned in order up to the first one still
        processing, and the rows of the newly completed ones are written
        as one text (nothing reaches stdout when there are none). */
    method Update(ctx: Context, out: Queue)
      requires Valid() && ctx.Valid() && out.Valid()
      modifies this, out
      ensures Valid() && out.Valid() && silent == old(silent)
      ensures old(silent) ==>
        Counters() == old(Counters()) && completedPaths == old(completedPaths) && out.stdout == old(out.stdout)
      ensures !old(silent) ==>
        var r := ScanFrom(paths, 0, ctx.Snapshot(), ctx.originalPaths, Scan([], old(completedPaths), Zero, None));
        && completedPaths == r.completed && Counters() == r.counts
        && out.stdout == old(out.stdout) + Shown(r.rows)
    {
      if silent {
        return;
      }
      success, failure, warning := 0, 0, 0;
      var output := ScanPaths(ctx, ctx.Snapshot());
      out.Write(output);
    }

    /** The loop of `update`, from the counters and completed list it
        finds, up to the first path still processing. */
    method ScanPaths(ctx: Context, ghost t: map<Path, seq<Slot>>) returns (output: Text)
      requires Valid() && t == ctx.Snapshot()
      modifies this`success, this`warning, this`failure, this`completedPaths
      ensures Valid()
      ensures var r := ScanFrom(paths, 0, t, ctx.originalPaths, Scan([], old(completedPaths), old(Counters()), None));
        completedPaths == r.completed && Counters() == r.counts && output == r.rows
    {
      ghost var names := ctx.originalPaths;
      ghost var result := ScanFrom(paths, 0, t, names, Scan([], completedPaths, Counters(), None));
      output := [];
      var k := 0;
      while k < |paths|
        invariant Scanning(paths, k, t, names, output, completedPaths, Counters(), result)
        invariant Valid()
      {
        var path := paths[k];
        if path !in ctx.compressed || path in completedPaths {
          ScanSkips(paths, k, t, names, output, completedPaths, Counters(), result);
          k := k + 1;
          continue;
        }
        ghost var counts := Counters();
        assert t[path] == ctx.compressed[path][..];
        var processing, row := DrawPath(ctx, path, t[path]);
        if processing {
          ScanStopsAt(paths, k, t, names, output, completedPaths, counts, result);
          break;
        }
        ScanCompletesAt(paths, k, t, names, output, completedPaths, counts, result);
        completedPaths := completedPaths + [path];
        output := output + [row];
        k := k + 1;
      }
      if k == |paths| {
        ScanEnds(paths, t, names, output, completedPaths, Counters(), result);
      }
    }

    /** `end`: unless silent, the summary of the counters. */
    method End(out: Queue)
      requires out.Valid()
      modifies out
      ensures out.Valid()
      ensures out.stdout == old(out.stdout) + (if silent then [] else Summary(Counters()))
    {
      if silent {
        return;
      }
      WriteSummary(success, warning, failure, out);
    }

    /** The writes of `end` for given counters. */
    static method WriteSummary(success: nat, warning: nat, failure: nat, out: Queue)
      requires out.Valid()
      modifies out
      ensures out.Valid()
      ensures out.stdout == old(out.stdout) + Summary(Counts(success, warning, failure))
    {
      if success > 0 || failure > 0 || warning > 0 {
        out.Write([Passed(success, failure == 0)]);
        if warning > 0 {
          out.Write([Warned(warning)]);
        }
        if failure > 0 {
          out.Write([Failed(failure)]);
        }
        out.Write([Blank]);
      }
    }
  }
}
