// The older console reporter (src/log.ts): rows are printed with
// `console.log`, each path at most once per run, and the counters add up
// over the whole run.

module Log {
  import opened Condition
  import opened Output
  import Report

  /** `MakeError`: the message behind the word 'error' (its red colour is
      not modelled). */
  function MakeError(output: string): (r: string)
    ensures |r| == 6 + |output| && r[..6] == "error " && r[6..] == output
  {
    "error " + output
  }

  /** The longest of the given lengths (0 for none). */
  function MaxLength(names: seq<string>): (m: nat)
    ensures forall i :: 0 <= i < |names| ==> |names[i]| <= m
    ensures names != [] ==> exists i :: 0 <= i < |names| && |names[i]| == m
  {
    if names == [] then 0
    else
      var rest := MaxLength(names[1..]);
      assert forall i :: 1 <= i < |names| ==> names[i] == names[1..][i - 1];
      if |names[0]| >= rest then |names[0]| else rest
  }

  /** `maxFormatDisplay`: the longest encoding name plus 2. */
  function MaxFormatDisplay(): (w: nat)
    ensures forall i :: 0 <= i < |OrderedCompressionNames| ==> |OrderedCompressionNames[i]| + 2 <= w
  {
    MaxLength(OrderedCompressionNames) + 2
  }

  /** 'brotli' is the longest name: the columns are 8 characters wide. */
  lemma FormatColumnWidth()
    ensures MaxFormatDisplay() == 8
  {
    var m := MaxLength(OrderedCompressionNames);
    assert m >= 6 by {
      assert |OrderedCompressionNames[0]| == 6;
    }
    assert m <= 6 by {
      var i :| 0 <= i < 3 && |OrderedCompressionNames[i]| == m;
    }
  }

  /** The width of one path: its length, at most 30, plus 2. */
  function PathSpan(p: Path): nat
  {
    (if |p| < 30 then |p| else 30) + 2
  }

  /** `maxPathDisplay` of a non-empty path list: the widest path span. */
  function MaxPathDisplay(paths: seq<Path>): (w: nat)
    requires paths != []
    ensures forall i :: 0 <= i < |paths| ==> PathSpan(paths[i]) <= w
    ensures exists i :: 0 <= i < |paths| && PathSpan(paths[i]) == w
    ensures 2 <= w <= 32
  {
    if |paths| == 1 then PathSpan(paths[0])
    else
      var rest := MaxPathDisplay(paths[1..]);
      assert forall i :: 1 <= i < |paths| ==> paths[i] == paths[1..][i - 1];
      if PathSpan(paths[0]) >= rest then PathSpan(paths[0]) else rest
  }

  /** `path.substring(path.length - w)`: the last `w` characters, or the
      whole path when it is not longer (a negative start counts as 0). */
  function Tail(p: Path, w: nat): (s: string)
    ensures |s| == (if |p| <= w then |p| else w)
    ensures s == p[|p| - |s|..]
  {
    if |p| <= w then p else p[|p| - w..]
  }

  /** A path of at most 32 characters is shown in full, a longer one by
      its last 32 characters. */
  lemma PathShown(paths: seq<Path>, i: nat)
    requires i < |paths|
    ensures |paths[i]| <= 32 ==> Tail(paths[i], MaxPathDisplay(paths)) == paths[i]
    ensures |paths[i]| > 32 ==> |Tail(paths[i], MaxPathDisplay(paths))| == 32
  {
    assert PathSpan(paths[i]) <= MaxPathDisplay(paths);
  }

  /** What `displaySize` shows: a placeholder unless both the size and the
      budget are known. */
  function LogCell(slot: Slot): (c: Cell)
    ensures c.Placeholder? <==> !slot.size.Calculated? || slot.maxSize.Unrestricted?
  {
    match slot.size
    case Calculated(size) =>
      (match slot.maxSize
       case Unrestricted => Placeholder
       case Limit(max) =>
         if size < max then (if 20 * (max - size) < max then Warn(size) else Pass(size))
         else Fail(size))
    case _ => Placeholder
  }

  /** What `displaySize` returns: whether the slot is at or over a known
      budget. */
  function LogFails(slot: Slot): bool
  {
    slot.size.Calculated? && slot.maxSize.Limit? && slot.size.bytes >= slot.maxSize.bytes
  }

  /** The counter `displaySize` increments, if any. */
  function LogCount(slot: Slot): (c: Report.Counts)
    ensures c.success + c.warning + c.failure <= 1
    ensures c.failure == 1 <==> LogFails(slot)
  {
    if !slot.size.Calculated? || slot.maxSize.Unrestricted? then Report.Zero
    else if slot.size.bytes < slot.maxSize.bytes then
      if 20 * (slot.maxSize.bytes - slot.size.bytes) < slot.maxSize.bytes then Report.Counts(0, 1, 0)
      else Report.Counts(1, 0, 0)
    else Report.Counts(0, 0, 1)
  }

  /** This reporter judges a slot as the table reporter does: the same
      counter, the same failures; it only shows a budget-less size as a
      placeholder instead of its bytes. */
  lemma LogAgrees(slot: Slot)
    ensures LogCount(slot) == Report.Count(Report.Classify(slot))
    ensures LogFails(slot) <==> Report.Classify(slot) == Report.Failure
    ensures LogCell(slot) == Report.CellOf(slot) <==> !(slot.size.Calculated? && slot.maxSize.Unrestricted?)
  {
  }

  /** The cells of a row. */
  function LogCells(record: seq<Slot>): (cells: seq<Cell>)
    ensures |cells| == |record|
  {
    if record == [] then [] else LogCells(record[..|record| - 1]) + [LogCell(record[|record| - 1])]
  }

  /** The row printed for a drawn path: a cross iff some slot failed, the
      tail of the path itself (not its configured spelling), the cells. */
  function LogRow(t: map<Path, seq<Slot>>, w: nat, p: Path): Token
    requires p in t
  {
    Row(if Report.Failing(t[p]) then Cross else Tick, Tail(p, w), LogCells(t[p]))
  }

  /** The printed lines, the `pathsDrawn` set and the counters. */
  datatype Drawing = Drawing(lines: seq<Token>, drawn: set<Path>, counts: Report.Counts)

  /** `update` from path `k` on: drawn and missing paths are skipped; the
      first path with a slot still measuring ends the call, uncounted;
      any other path is printed, counted and marked drawn. */
  function LogFrom(paths: seq<Path>, k: nat, t: map<Path, seq<Slot>>, w: nat, acc: Drawing): Drawing
    decreases |paths| - k
  {
    if k >= |paths| then acc
    else
      var p := paths[k];
      if p !in t || p in acc.drawn then LogFrom(paths, k + 1, t, w, acc)
      else if Report.InProgress(t[p]) then acc
      else LogFrom(paths, k + 1, t, w, Drawing(acc.lines + [LogRow(t, w, p)], acc.drawn + {p},
                                               Report.Plus(acc.counts, Report.Tally(t[p]))))
  }

  /** `pathsDrawn` only grows, and only with paths of the list. */
  lemma {:induction false} LogFromGrows(paths: seq<Path>, k: nat, t: map<Path, seq<Slot>>, w: nat, acc: Drawing)
    requires k <= |paths|
    ensures var r := LogFrom(paths, k, t, w, acc);
      acc.drawn <= r.drawn && forall q :: q in r.drawn ==> q in acc.drawn || q in paths[k..]
    decreases |paths| - k
  {
    if k < |paths| {
      var p := paths[k];
      assert forall q :: q in paths[k + 1..] ==> q in paths[k..];
      if p !in t || p in acc.drawn {
        LogFromGrows(paths, k + 1, t, w, acc);
      } else if !Report.InProgress(t[p]) {
        LogFromGrows(paths, k + 1, t, w, Drawing(acc.lines + [LogRow(t, w, p)], acc.drawn + {p},
                                                 Report.Plus(acc.counts, Report.Tally(t[p]))));
      }
    }
  }

  /** One line per newly drawn path: a path is printed at most once per
      run, however often `update` is called. */
  lemma {:induction false} LogFromOnce(paths: seq<Path>, k: nat, t: map<Path, seq<Slot>>, w: nat, acc: Drawing)
    ensures var r := LogFrom(paths, k, t, w, acc);
      |r.lines| + |acc.drawn| == |acc.lines| + |r.drawn|
    decreases |paths| - k
  {
    if k < |paths| {
      var p := paths[k];
      if p !in t || p in acc.drawn {
        LogFromOnce(paths, k + 1, t, w, acc);
      } else if !Report.InProgress(t[p]) {
        LogFromOnce(paths, k + 1, t, w, Drawing(acc.lines + [LogRow(t, w, p)], acc.drawn + {p},
                                                Report.Plus(acc.counts, Report.Tally(t[p]))));
      }
    }
  }

  /** Only fully measured paths of the table are drawn. */
  lemma {:induction false} LogFromSettled(paths: seq<Path>, k: nat, t: map<Path, seq<Slot>>, w: nat, acc: Drawing)
    ensures var r := LogFrom(paths, k, t, w, acc);
      forall q :: q in r.drawn && q !in acc.drawn ==> q in t && !Report.InProgress(t[q])
    decreases |paths| - k
  {
    if k < |paths| {
      var p := paths[k];
      if p !in t || p in acc.drawn {
        LogFromSettled(paths, k + 1, t, w, acc);
      } else if !Report.InProgress(t[p]) {
        LogFromSettled(paths, k + 1, t, w, Drawing(acc.lines + [LogRow(t, w, p)], acc.drawn + {p},
                                                   Report.Plus(acc.counts, Report.Tally(t[p]))));
      }
    }
  }

  /** The summary `end` prints: only when something passed or failed; the
      passed line (with the party icon iff nothing failed), then the warned
      and failed lines when their counts are positive. */
  function LogSummary(c: Report.Counts): (lines: seq<Token>)
    ensures lines == [] <==> c.success == 0 && c.failure == 0
    ensures lines != [] ==> lines[0] == Passed(c.success, c.failure == 0)
    ensures Failed(c.failure) in lines <==> c.failure > 0
  {
    if c.success > 0 || c.failure > 0 then
      [Passed(c.success, c.failure == 0)]
      + (if c.warning > 0 then [Warned(c.warning)] else [])
      + (if c.failure > 0 then [Failed(c.failure)] else [])
    else []
  }

  /** A run whose only counted slots warned prints no summary at all,
      where the table reporter prints the passed and warned lines. */
  lemma WarningsOnlyUnreported(c: Report.Counts)
    requires c.success == 0 && c.failure == 0 && c.warning > 0
    ensures LogSummary(c) == []
    ensures Report.Summary(c) == [[Passed(0, true)], [Warned(c.warning)], [Blank]]
  {
  }

  /** The summary with the guard of the table reporter: printed whenever
      any slot was counted, warned slots included. */
  function LogSummaryIntended(c: Report.Counts): (lines: seq<Token>)
  {
    if c.success > 0 || c.warning > 0 || c.failure > 0 then
      [Passed(c.success, c.failure == 0)]
      + (if c.warning > 0 then [Warned(c.warning)] else [])
      + (if c.failure > 0 then [Failed(c.failure)] else [])
    else []
  }

  /** The corrected summary is silent exactly when the table reporter's
      is, prints the same lines (less the trailing blank line) and differs
      from the one as written only on runs where every counted slot warned. */
  lemma LogSummaryIntendedAgrees(c: Report.Counts)
    ensures LogSummaryIntended(c) == [] <==> Report.Summary(c) == []
    ensures Report.Summary(c) != [] ==>
      forall k :: 0 <= k < |LogSummaryIntended(c)| ==> Report.Summary(c)[k] == [LogSummaryIntended(c)[k]]
    ensures Report.Summary(c) != [] ==> |Report.Summary(c)| == |LogSummaryIntended(c)| + 1
    ensures LogSummaryIntended(c) != LogSummary(c) <==> c.success == 0 && c.failure == 0 && c.warning > 0
  {
  }

  /** The lines `console.log` has printed. */
  class Console {
    var lines: seq<Token>

    constructor ()
      ensures lines == []
    {
      lines := [];
    }

    method Log(line: Token)
      modifies this
      ensures lines == old(lines) + [line]
    {
      lines := lines + [line];
    }
  }

  /** `LogError`: one console line holding the message behind 'error'. */
  method LogError(console: Console, output: string)
    modifies console
    ensures console.lines == old(console.lines) + [Problem(MakeError(output))]
  {
    console.Log(Problem(MakeError(output)));
  }

  /** The `Report` class of src/log.ts. */
  class ConsoleReport {
    var silent: bool
    const paths: seq<Path>
    /** The path width; with no paths (where the source computes -Infinity)
        it is 0 and never used. */
    const maxPathDisplay: nat
    var pathsDrawn: set<Path>
    var success: nat
    var warning: nat
    var failure: nat

    function Counters(): Report.Counts
      reads this
    {
      Report.Counts(success, warning, failure)
    }

    /** Silent: nothing but the flag. Otherwise the paths of the table, the
        path width, an empty drawn set, and the header. */
    constructor (ctx: Context, console: Console)
      modifies console
      ensures silent == ctx.silent && Counters() == Report.Zero && pathsDrawn == {}
      ensures ctx.silent ==> paths == [] && console.lines == old(console.lines)
      ensures !ctx.silent ==>
        && paths == ctx.order
        && (paths != [] ==> maxPathDisplay == MaxPathDisplay(paths))
        && console.lines == old(console.lines) + [Heading, Columns]
    {
      success, warning, failure := 0, 0, 0;
      pathsDrawn := {};
      silent := ctx.silent;
      paths := if ctx.silent then [] else ctx.order;
      maxPathDisplay := if ctx.silent || ctx.order == [] then 0 else MaxPathDisplay(ctx.order);
      new;
      if !ctx.silent {
        console.Log(Heading);
        console.Log(Columns);
      }
    }

    /** `displaySize` on slot `i` of a record. */
    method DisplaySize(record: array<Slot>, i: nat) returns (hasFailure: bool, cell: Cell)
      requires i < record.Length
      modifies this`success, this`warning, this`failure
      ensures hasFailure == LogFails(record[i]) && cell == LogCell(record[i])
      ensures Counters() == Report.Plus(old(Counters()), LogCount(record[i]))
    {
      var slot := record[i];
      if !slot.size.Calculated? || slot.maxSize.Unrestricted? {
        return false, Placeholder;
      }
      var size, max := slot.size.bytes, slot.maxSize.bytes;
      if size < max {
        if 20 * (max - size) < max {
          warning := warning + 1;
          return false, Warn(size);
        }
        success := success + 1;
        return false, Pass(size);
      }
      failure := failure + 1;
      return true, Fail(size);
    }

    /** The slot loop of a row: whether some slot failed, and the cells. */
    method DrawRecord(record: array<Slot>) returns (failing: bool, cells: seq<Cell>)
      modifies this`success, this`warning, this`failure
      ensures failing == Report.Failing(record[..]) && cells == LogCells(record[..])
      ensures Counters() == Report.Plus(old(Counters()), Report.Tally(record[..]))
    {
      ghost var rec := record[..];
      ghost var counts0 := Counters();
      failing, cells := false, [];
      for i := 0 to record.Length
        invariant Logged(rec, i, failing, cells, counts0, Counters())
      {
        ghost var counts := Counters();
        var hasFailure, cell := DisplaySize(record, i);
        LogStep(rec, i, failing, cells, counts0, counts);
        cells := cells + [cell];
        if !failing {
          failing := hasFailure;
        }
      }
      assert rec[..|rec|] == rec;
    }

    /** The row of a path whose slots are all measured, its slots counted. */
    method DrawPath(path: Path, record: array<Slot>, ghost rec: seq<Slot>) returns (line: Token)
      requires rec == record[..]
      modifies this`success, this`warning, this`failure
      ensures line == Row(if Report.Failing(rec) then Cross else Tick, Tail(path, maxPathDisplay), LogCells(rec))
      ensures Counters() == Report.Plus(old(Counters()), Report.Tally(rec))
    {
      var failing, cells := DrawRecord(record);
      line := Row(if failing then Cross else Tick, Tail(path, maxPathDisplay), cells);
    }

    /** `update`: unless silent, the paths are walked in order from the
        start; drawn and missing ones are skipped, the first one still
        measuring ends the call, every other one is printed and drawn. */
    method Update(ctx: Context, console: Console)
      modifies this`pathsDrawn, this`success, this`warning, this`failure, console
      ensures silent ==> Counters() == old(Counters()) && pathsDrawn == old(pathsDrawn) && console.lines == old(console.lines)
      ensures !silent ==>
        var r := LogFrom(paths, 0, ctx.Snapshot(), maxPathDisplay, Drawing([], old(pathsDrawn), old(Counters())));
        && pathsDrawn == r.drawn && Counters() == r.counts
        && console.lines == old(console.lines) + r.lines
    {
      if silent {
        return;
      }
      WalkPaths(ctx, ctx.Snapshot(), console);
    }

    /** The loop of `update`. */
    method WalkPaths(ctx: Context, ghost t: map<Path, seq<Slot>>, console: Console)
      requires t == ctx.Snapshot()
      modifies this`pathsDrawn, this`success, this`warning, this`failure, console
      ensures var r := LogFrom(paths, 0, t, maxPathDisplay, Drawing([], old(pathsDrawn), old(Counters())));
        && pathsDrawn == r.drawn && Counters() == r.counts
        && console.lines == old(console.lines) + r.lines
    {
      ghost var lines0 := console.lines;
      ghost var emitted: seq<Token> := [];
      ghost var result := LogFrom(paths, 0, t, maxPathDisplay, Drawing([], pathsDrawn, Counters()));
      var k := 0;
      while k < |paths|
        invariant console.lines == lines0 + emitted
        invariant Walking(paths, k, t, maxPathDisplay, emitted, pathsDrawn, Counters(), result)
      {
        var path := paths[k];
        if path !in ctx.compressed || path in pathsDrawn {
          WalkSkips(paths, k, t, maxPathDisplay, emitted, pathsDrawn, Counters(), result);
          k := k + 1;
          continue;
        }
        var record := ctx.compressed[path];
        assert t[path] == record[..];
        if Report.InProgress(record[..]) {
          WalkStops(paths, k, t, maxPathDisplay, emitted, pathsDrawn, Counters(), result);
          break;
        }
        ghost var counts := Counters();
        var line := DrawPath(path, record, t[path]);
        WalkDraws(paths, k, t, maxPathDisplay, emitted, pathsDrawn, counts, result);
        pathsDrawn := pathsDrawn + {path};
        console.Log(line);
        emitted := emitted + [line];
        k := k + 1;
      }
      if k == |paths| {
        WalkEnds(paths, t, maxPathDisplay, emitted, pathsDrawn, Counters(), result);
      }
    }

    /** `end`: unless silent, the summary. */
    method End(console: Console)
      modifies console
      ensures console.lines == old(console.lines) + (if silent then [] else LogSummary(Counters()))
    {
      if silent {
        return;
      }
      if success > 0 || failure > 0 {
        console.Log(Passed(success, failure == 0));
        if warning > 0 {
          console.Log(Warned(warning));
        }
        if failure > 0 {
          console.Log(Failed(failure));
        }
      }
    }
  }

  /** Where the slot loop of a row is after `i` slots. */
  ghost predicate Logged(rec: seq<Slot>, i: nat, failing: bool, cells: seq<Cell>,
                         counts0: Report.Counts, counts: Report.Counts)
  {
    && i <= |rec|
    && failing == Report.Failing(rec[..i])
    && cells == LogCells(rec[..i])
    && counts == Report.Plus(counts0, Report.Tally(rec[..i]))
  }

  lemma LogStep(rec: seq<Slot>, i: nat, failing: bool, cells: seq<Cell>, counts0: Report.Counts, counts: Report.Counts)
    requires i < |rec| && Logged(rec, i, failing, cells, counts0, counts)
    ensures Logged(rec, i + 1, failing || LogFails(rec[i]), cells + [LogCell(rec[i])], counts0,
                   Report.Plus(counts, LogCount(rec[i])))
  {
    assert rec[..i + 1][..i] == rec[..i];
    LogAgrees(rec[i]);
    FailingExtends(rec, i);
  }

  /** A prefix one slot longer fails iff the shorter one does or that slot does. */
  lemma FailingExtends(rec: seq<Slot>, i: nat)
    requires i < |rec|
    ensures Report.Failing(rec[..i + 1]) <==> Report.Failing(rec[..i]) || Report.Classify(rec[i]) == Report.Failure
  {
    var pre, next := rec[..i], rec[..i + 1];
    assert next[i] == rec[i];
    assert forall j :: 0 <= j < i ==> next[j] == pre[j];
    if Report.Failing(next) {
      var j :| 0 <= j < |next| && Report.Classify(next[j]) == Report.Failure;
      if j < i {
        assert Report.Classify(pre[j]) == Report.Failure;
      }
    }
  }

  /** Where the path loop of `update` is after `k` paths, having printed
      `lines`. */
  ghost predicate Walking(paths: seq<Path>, k: nat, t: map<Path, seq<Slot>>, w: nat,
                          lines: seq<Token>, drawn: set<Path>, counts: Report.Counts, result: Drawing)
  {
    && k <= |paths|
    && LogFrom(paths, k, t, w, Drawing(lines, drawn, counts)) == result
  }

  lemma WalkSkips(paths: seq<Path>, k: nat, t: map<Path, seq<Slot>>, w: nat,
                  lines: seq<Token>, drawn: set<Path>, counts: Report.Counts, result: Drawing)
    requires k < |paths| && (paths[k] !in t || paths[k] in drawn)
    requires Walking(paths, k, t, w, lines, drawn, counts, result)
    ensures Walking(paths, k + 1, t, w, lines, drawn, counts, result)
  {
  }

  lemma WalkStops(paths: seq<Path>, k: nat, t: map<Path, seq<Slot>>, w: nat,
                  lines: seq<Token>, drawn: set<Path>, counts: Report.Counts, result: Drawing)
    requires k < |paths| && paths[k] in t && paths[k] !in drawn && Report.InProgress(t[paths[k]])
    requires Walking(paths, k, t, w, lines, drawn, counts, result)
    ensures result == Drawing(lines, drawn, counts)
  {
  }

  lemma WalkDraws(paths: seq<Path>, k: nat, t: map<Path, seq<Slot>>, w: nat,
                  lines: seq<Token>, drawn: set<Path>, counts: Report.Counts, result: Drawing)
    requires k < |paths| && paths[k] in t && paths[k] !in drawn && !Report.InProgress(t[paths[k]])
    requires Walking(paths, k, t, w, lines, drawn, counts, result)
    ensures Walking(paths, k + 1, t, w, lines + [LogRow(t, w, paths[k])], drawn + {paths[k]},
                    Report.Plus(counts, Report.Tally(t[paths[k]])), result)
  {
  }

  lemma WalkEnds(paths: seq<Path>, t: map<Path, seq<Slot>>, w: nat,
                 lines: seq<Token>, drawn: set<Path>, counts: Report.Counts, result: Drawing)
    requires Walking(paths, |paths|, t, w, lines, drawn, counts, result)
    ensures result == Drawing(lines, drawn, counts)
  {
  }
}
