// The terminal reporter of src/log/tty-report.ts: every call redraws the
// whole table in place, erasing the block it drew before.

module TTY {
  import opened Condition
  import opened Output
  import Report

  /** The icon of a redrawn row: a cross if some slot failed, else a dash if
      some slot is still processing, else a tick. */
  function RowIcon(record: seq<Slot>): Icon
  {
    if Report.Failing(record) then Cross else if Report.InProgress(record) then Dash else Tick
  }

  function TTYRow(t: map<Path, seq<Slot>>, names: map<Path, string>, p: Path): Token
    requires p in t
  {
    Row(RowIcon(t[p]), Report.DisplayPath(names, p), Report.Cells(t[p]))
  }

  /** A row no slot of which is processing looks as `Report` draws it. */
  lemma SettledRowsAgree(t: map<Path, seq<Slot>>, names: map<Path, string>, p: Path)
    requires p in t && !Report.InProgress(t[p])
    ensures TTYRow(t, names, p) == Report.ReportRow(t, names, p)
  {
  }

  /** The paths of `paths` the table holds, in order. */
  function Present(paths: seq<Path>, t: map<Path, seq<Slot>>): (ps: seq<Path>)
    ensures forall p :: p in ps <==> p in paths && p in t
    ensures |ps| <= |paths|
  {
    if paths == [] then []
    else Present(paths[..|paths| - 1], t) + (if paths[|paths| - 1] in t then [paths[|paths| - 1]] else [])
  }

  /** What one redraw produces: the rows of the block and the counters. */
  datatype Frame = Frame(rows: Text, counts: Report.Counts)

  /** One redraw: a row per path of the table, in `paths` order, and every
      slot of the table counted once. */
  function Redraw(paths: seq<Path>, t: map<Path, seq<Slot>>, names: map<Path, string>): Frame
  {
    if paths == [] then Frame([], Report.Zero)
    else
      var p := paths[|paths| - 1];
      var f := Redraw(paths[..|paths| - 1], t, names);
      if p in t then Frame(f.rows + [TTYRow(t, names, p)], Report.Plus(f.counts, Report.Tally(t[p])))
      else f
  }

  /** Every path of the table is redrawn, resolved or not: the `j`-th row
      is that of the `j`-th path present. */
  lemma {:induction false} RedrawEvery(paths: seq<Path>, t: map<Path, seq<Slot>>, names: map<Path, string>)
    ensures var ps := Present(paths, t);
      |Redraw(paths, t, names).rows| == |ps|
      && forall j :: 0 <= j < |ps| ==> Redraw(paths, t, names).rows[j] == TTYRow(t, names, ps[j])
    decreases |paths|
  {
    if paths != [] {
      RedrawEvery(paths[..|paths| - 1], t, names);
    }
  }

  /** The summary after a redraw shows the party icon iff no row of the
      table shows a cross. */
  lemma {:induction false} RedrawTada(paths: seq<Path>, t: map<Path, seq<Slot>>, names: map<Path, string>)
    ensures Redraw(paths, t, names).counts.failure == 0 <==> forall p :: p in paths && p in t ==> !Report.Failing(t[p])
    decreases |paths|
  {
    if paths != [] {
      var init, p := paths[..|paths| - 1], paths[|paths| - 1];
      RedrawTada(init, t, names);
      if p in t {
        Report.TallyFailure(t[p]);
      }
      assert forall q :: q in paths <==> q in init || q == p;
    }
  }

  /** `TTYReport`: a `Report` (whose constructor writes the header) and the
      `firstUpdate` flag. */
  class TTYReport {
    const base: Report.Report
    var firstUpdate: bool

    constructor (ctx: Context, out: Queue)
      requires out.Valid()
      modifies out
      ensures fresh(base) && base.Valid() && out.Valid() && firstUpdate
      ensures base.silent == ctx.silent && base.Counters() == Report.Zero && base.completedPaths == []
      ensures ctx.silent ==> base.paths == [] && out.stdout == old(out.stdout)
      ensures !ctx.silent ==> base.paths == ctx.order && out.stdout == old(out.stdout) + Report.Header
    {
      base := new Report.Report(ctx, out);
      firstUpdate := true;
    }

    /** `update`: unless silent, the counters are reset, every path of the
        table is redrawn, the previous block is erased (nothing on the first
        call, `paths.length + 1` lines after), and the block is written. */
    method Update(ctx: Context, out: Queue)
      requires ctx.Valid() && out.Valid()
      modifies this, base, out
      ensures out.Valid() && base.silent == old(base.silent) && base.completedPaths == old(base.completedPaths)
      ensures old(base.silent) ==>
        base.Counters() == old(base.Counters()) && firstUpdate == old(firstUpdate) && out.stdout == old(out.stdout)
      ensures !old(base.silent) ==>
        var f := Redraw(base.paths, ctx.Snapshot(), ctx.originalPaths);
        && base.Counters() == f.counts
        && !firstUpdate
        && out.stdout == old(out.stdout)
           + (if old(firstUpdate) then [] else [EraseCodes(|base.paths| + 1)])
           + Shown(f.rows)
    {
      if base.silent {
        return;
      }
      base.success, base.failure, base.warning := 0, 0, 0;
      ghost var t := ctx.Snapshot();
      var output := RedrawAll(ctx, t);
      Show(output, out);
      assert t == ctx.Snapshot();
    }

    /** The end of `update`: erase the previous block (nothing on the first
        call), clear `firstUpdate`, write the new block. */
    method Show(output: Text, out: Queue)
      requires out.Valid()
      modifies this`firstUpdate, out
      ensures out.Valid() && !firstUpdate
      ensures out.stdout == old(out.stdout)
        + (if old(firstUpdate) then [] else [EraseCodes(|base.paths| + 1)]) + Shown(output)
    {
      out.Erase(if firstUpdate then 0 else |base.paths| + 1);
      firstUpdate := false;
      out.Write(output);
    }

    /** The loop of `update` over every path. */
    method RedrawAll(ctx: Context, ghost t: map<Path, seq<Slot>>) returns (output: Text)
      requires t == ctx.Snapshot()
      modifies base`success, base`warning, base`failure
      ensures var f := Redraw(base.paths, t, ctx.originalPaths);
        output == f.rows && base.Counters() == Report.Plus(old(base.Counters()), f.counts)
    {
      ghost var names := ctx.originalPaths;
      ghost var counts0 := base.Counters();
      output := [];
      for k := 0 to |base.paths|
        invariant Redrawn(base.paths, k, t, names, output, counts0, base.Counters())
      {
        var path := base.paths[k];
        ghost var counts := base.Counters();
        if path !in ctx.compressed {
          RedrawSkips(base.paths, k, t, names, output, counts0, counts);
          continue;
        }
        assert t[path] == ctx.compressed[path][..];
        var row := RedrawPath(ctx, path, t[path]);
        RedrawTakes(base.paths, k, t, names, output, counts0, counts);
        output := output + [row];
      }
      assert base.paths[..|base.paths|] == base.paths;
    }

    /** The body of `update`'s loop for a path of the table. */
    method RedrawPath(ctx: Context, path: Path, ghost rec: seq<Slot>) returns (row: Token)
      requires path in ctx.compressed && rec == ctx.compressed[path][..]
      modifies base`success, base`warning, base`failure
      ensures base.Counters() == Report.Plus(old(base.Counters()), Report.Tally(rec))
      ensures row == Row(RowIcon(rec), Report.DisplayPath(ctx.originalPaths, path), Report.Cells(rec))
    {
      var record := ctx.compressed[path];
      var displayPath := if path in ctx.originalPaths && ctx.originalPaths[path] != "" then ctx.originalPaths[path] else path;
      var failing, processing, cells := base.DrawRecord(record);
      var icon := if failing then Cross else if processing then Dash else Tick;
      row := Row(icon, displayPath, cells);
    }
  }

  /** Where the redraw loop is after `k` paths. */
  ghost predicate Redrawn(paths: seq<Path>, k: nat, t: map<Path, seq<Slot>>, names: map<Path, string>,
                          output: Text, counts0: Report.Counts, counts: Report.Counts)
  {
    && k <= |paths|
    && output == Redraw(paths[..k], t, names).rows
    && counts == Report.Plus(counts0, Redraw(paths[..k], t, names).counts)
  }

  lemma RedrawSkips(paths: seq<Path>, k: nat, t: map<Path, seq<Slot>>, names: map<Path, string>,
                    output: Text, counts0: Report.Counts, counts: Report.Counts)
    requires k < |paths| && paths[k] !in t && Redrawn(paths, k, t, names, output, counts0, counts)
    ensures Redrawn(paths, k + 1, t, names, output, counts0, counts)
  {
    assert paths[..k + 1][..k] == paths[..k];
  }

  lemma RedrawTakes(paths: seq<Path>, k: nat, t: map<Path, seq<Slot>>, names: map<Path, string>,
                    output: Text, counts0: Report.Counts, counts: Report.Counts)
    requires k < |paths| && paths[k] in t && Redrawn(paths, k, t, names, output, counts0, counts)
    ensures Redrawn(paths, k + 1, t, names, output + [TTYRow(t, names, paths[k])], counts0,
                    Report.Plus(counts, Report.Tally(t[paths[k]])))
  {
    assert paths[..k + 1][..k] == paths[..k];
  }
}
