// Terminal output (src/log/helpers/output.ts): the ANSI erase sequence and
// the module-level queue every reporter writes through.

module Output {

  /** The icon at the head of a report row. */
  datatype Icon = Tick | Cross | Dash

  /** One encoding column of a report row; colours, `prettyBytes` formatting
      and padding are not modelled. */
  datatype Cell =
    | Placeholder          // the dimmed dash: no size, or not yet measured
    | Neutral(bytes: nat)  // measured, no budget
    | Pass(bytes: nat)     // under budget
    | Warn(bytes: nat)     // under budget by less than 5%
    | Fail(bytes: nat)     // at or over budget

  /** The pieces the reporters write. Every piece renders to at least one
      character, so a text is empty exactly when it has no pieces. */
  datatype Token =
    | EraseLine                                       // ESC [2K
    | CursorUp                                        // ESC [1A
    | CursorLeft                                      // ESC [G
    | Heading                                         // '  Filesizes'
    | Columns                                         // the encoding names
    | Row(icon: Icon, path: string, cells: seq<Cell>) // one file's line
    | Passed(count: nat, tada: bool)                  // 'N checks passed', with the party icon
    | Warned(count: nat)                              // 'N checks warned (within 5% …)'
    | Failed(count: nat)                              // 'N checks failed'
    | Blank                                           // the closing blank lines
    | Problem(text: string)                           // one `LogError` line

  type Text = seq<Token>

  /** The codes the erase loop builds before the final cursor move: erase
      codes at the even positions and cursor-up codes between them. */
  predicate Alternates(t: Text)
  {
    forall k :: 0 <= k < |t| ==> t[k] == (if k % 2 == 0 then EraseLine else CursorUp)
  }

  /** `count` erase codes with a cursor-up between consecutive ones. */
  function EraseLoop(count: nat): (t: Text)
    ensures |t| == (if count == 0 then 0 else 2 * count - 1)
    ensures Alternates(t)
  {
    if count <= 1 then (if count == 0 then [] else [EraseLine])
    else [EraseLine, CursorUp] + EraseLoop(count - 1)
  }

  /** The codes `erase` and `eraseLines` (src/process.ts) build: the erase
      loop, then a cursor move to the left edge whenever `count` is not 0 (a
      negative `count` gives the cursor move alone). */
  function EraseCodes(count: int): Text
  {
    (if count > 0 then EraseLoop(count) else []) + (if count != 0 then [CursorLeft] else [])
  }

  /** `count` erase codes, one fewer cursor-up codes, and one cursor move. */
  lemma {:induction false} EraseLoopCounts(count: nat)
    ensures multiset(EraseLoop(count))[EraseLine] == count
    ensures multiset(EraseLoop(count))[CursorUp] == if count == 0 then 0 else count - 1
    ensures CursorLeft !in EraseLoop(count)
  {
    if count > 1 {
      EraseLoopCounts(count - 1);
      assert multiset(EraseLoop(count)) == multiset([EraseLine, CursorUp]) + multiset(EraseLoop(count - 1));
    }
  }

  lemma EraseCodesCounts(count: int)
    ensures count > 0 ==> multiset(EraseCodes(count))[EraseLine] == count
    ensures count > 0 ==> multiset(EraseCodes(count))[CursorUp] == count - 1
    ensures count > 0 ==> EraseCodes(count)[|EraseCodes(count)| - 1] == CursorLeft
    ensures count > 0 ==> multiset(EraseCodes(count))[CursorLeft] == 1
    ensures count < 0 ==> EraseCodes(count) == [CursorLeft]
    ensures count == 0 ==> EraseCodes(count) == []
  {
    if count > 0 {
      EraseLoopCounts(count);
      assert multiset(EraseCodes(count)) == multiset(EraseLoop(count)) + multiset{CursorLeft};
    }
  }

  /** Two texts of the alternating shape and the same length are equal. */
  lemma AlternatesEqual(a: Text, b: Text)
    requires Alternates(a) && Alternates(b) && |a| == |b|
    ensures a == b
  {
  }

  /** The loop shared by `erase` and `eraseLines`. */
  method EraseSequence(count: int) returns (sequence: Text)
    ensures sequence == EraseCodes(count)
  {
    sequence := [];
    var i := 0;
    while i < count
      invariant 0 <= i && (count > 0 ==> i <= count)
      invariant count <= 0 ==> i == 0 && sequence == []
      invariant |sequence| == (if i == count && i > 0 then 2 * i - 1 else 2 * i)
      invariant Alternates(sequence)
    {
      sequence := sequence + [EraseLine] + (if i < count - 1 then [CursorUp] else []);
      i := i + 1;
    }
    if count > 0 {
      AlternatesEqual(sequence, EraseLoop(count));
    }
    if count != 0 {
      sequence := sequence + [CursorLeft];
    }
  }

  /** The texts `stdout.write` receives for one queued text: nothing for an
      empty one. */
  function Shown(text: Text): seq<Text>
  {
    if text == [] then [] else [text]
  }

  /** The module-level `outputQueue` and the texts handed to `stdout.write`
      so far, in order. */
  class Queue {
    var queue: seq<Text>
    var stdout: seq<Text>

    /** Between calls the queue is empty: `write` pushes one text and
        `exhaust` at once shifts it off again. */
    ghost predicate Valid()
      reads this
    {
      queue == []
    }

    constructor ()
      ensures Valid() && stdout == []
    {
      queue := [];
      stdout := [];
    }

    /** `write`: push the text, then drain. A non-empty text reaches stdout
        at once and after everything written before it. */
    method Write(content: Text)
      requires Valid()
      modifies this
      ensures Valid()
      ensures stdout == old(stdout) + Shown(content)
    {
      queue := queue + [content];
      Exhaust();
    }

    /** `exhaust`: shift the front text and hand it to stdout unless it is
        empty; an empty text or an empty queue ends the drain. */
    method Exhaust()
      modifies this
      ensures queue == if old(queue) == [] then [] else old(queue)[1..]
      ensures stdout == old(stdout) + (if old(queue) == [] then [] else Shown(old(queue)[0]))
    {
      if queue == [] {
        return;
      }
      var text := queue[0];
      queue := queue[1..];
      if text != [] {
        stdout := stdout + [text];
      }
    }

    /** The completion callback of `stdout.write`: drain again if texts are
        waiting; between calls none are, and nothing happens. */
    method Written()
      modifies this
      ensures old(Valid()) ==> Valid() && stdout == old(stdout)
      ensures old(queue) != [] ==>
        queue == old(queue)[1..] && stdout == old(stdout) + Shown(old(queue)[0])
    {
      if |queue| > 0 {
        Exhaust();
      }
    }

    /** `erase`: nothing for a count of 0 or less, otherwise the erase
        sequence as one text. */
    method Erase(count: int)
      requires Valid()
      modifies this
      ensures Valid()
      ensures count <= 0 ==> stdout == old(stdout)
      ensures count > 0 ==> stdout == old(stdout) + [EraseCodes(count)]
    {
      if count <= 0 {
        return;
      }
      var sequence := EraseSequence(count);
      Write(sequence);
    }
  }
}
