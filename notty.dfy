// The append-only reporter of src/log/no-tty-report.ts: one line per newly
// completed entry, for terminals that cannot redraw.

module NoTTY {
  import opened Condition
  import opened Output
  import Report
  import CLI

  /** A path of the table and the values of its record. */
  type Entry = (Path, seq<Slot>)

  /** The line written for an entry: a cross iff some slot failed, else a
      tick, then the display path and a cell per slot. */
  function EntryRow(names: map<Path, string>, e: Entry): Token
  {
    Row(if Report.Failing(e.1) then Cross else Tick, Report.DisplayPath(names, e.0), Report.Cells(e.1))
  }

  /** The texts `update` writes for a list of entries. */
  function Lines(entries: seq<Entry>, names: map<Path, string>): seq<Text>
  {
    if entries == [] then []
    else Lines(entries[..|entries| - 1], names) + [[EntryRow(names, entries[|entries| - 1])]]
  }

  /** The counts the entries add: every slot of every entry, once. */
  function EntriesTally(entries: seq<Entry>): Report.Counts
  {
    if entries == [] then Report.Zero
    else Report.Plus(EntriesTally(entries[..|entries| - 1]), Report.Tally(entries[|entries| - 1].1))
  }

  /** Exactly one line per entry, in the order of the entries. */
  lemma {:induction false} LinesOnePerEntry(entries: seq<Entry>, names: map<Path, string>)
    ensures |Lines(entries, names)| == |entries|
    ensures forall j :: 0 <= j < |entries| ==> Lines(entries, names)[j] == [EntryRow(names, entries[j])]
    decreases |entries|
  {
    if entries != [] {
      var init := entries[..|entries| - 1];
      LinesOnePerEntry(init, names);
      assert forall j :: 0 <= j < |init| ==> init[j] == entries[j];
    }
  }

  /** The failure count of a record is the number of its failing slots:
      positive exactly when the row gets a cross. */
  lemma CrossIffFailures(record: seq<Slot>)
    ensures Report.Tally(record).failure > 0 <==> Report.Failing(record)
  {
    Report.TallyFailure(record);
  }

  /** Where the slot loop of an entry is after `i` slots. */
  ghost predicate Entered(rec: seq<Slot>, i: nat, failure: nat, cells: seq<Cell>,
                          counts0: Report.Counts, counts: Report.Counts)
  {
    && i <= |rec|
    && failure == Report.Tally(rec[..i]).failure
    && cells == Report.Cells(rec[..i])
    && counts == Report.Plus(counts0, Report.Tally(rec[..i]))
  }

  lemma EnterStep(rec: seq<Slot>, i: nat, failure: nat, cells: seq<Cell>, counts0: Report.Counts, counts: Report.Counts)
    requires i < |rec| && Entered(rec, i, failure, cells, counts0, counts)
    ensures var c := Report.Count(Report.Classify(rec[i]));
      Entered(rec, i + 1, failure + c.failure, cells + [Report.CellOf(rec[i])], counts0, Report.Plus(counts, c))
  {
    assert rec[..i + 1][..i] == rec[..i];
  }

  /** Where the entry loop of `update` is after `j` entries. */
  ghost predicate Printed(entries: seq<Entry>, j: nat, names: map<Path, string>, stdout0: seq<Text>, stdout: seq<Text>,
                          counts0: Report.Counts, counts: Report.Counts)
  {
    && j <= |entries|
    && stdout == stdout0 + Lines(entries[..j], names)
    && counts == Report.Plus(counts0, EntriesTally(entries[..j]))
  }

  lemma PrintStep(entries: seq<Entry>, j: nat, names: map<Path, string>, stdout0: seq<Text>, stdout: seq<Text>,
                  counts0: Report.Counts, counts: Report.Counts)
    requires j < |entries| && Printed(entries, j, names, stdout0, stdout, counts0, counts)
    ensures Printed(entries, j + 1, names, stdout0, stdout + [[EntryRow(names, entries[j])]], counts0,
                    Report.Plus(counts, Report.Tally(entries[j].1)))
  {
    assert entries[..j + 1][..j] == entries[..j];
  }

  /** `NoTTYReport`: the `CLIReport` it extends. */
  class NoTTYReport {
    const cli: CLI.CLIReport

    constructor (ctx: Context, out: Queue)
      requires out.Valid()
      modifies out
      ensures fresh(cli) && fresh(cli.base) && out.Valid()
      ensures cli.base.silent == ctx.silent && cli.base.Counters() == Report.Zero
      ensures out.stdout == old(out.stdout) + (if ctx.silent then [] else Report.Header) + Report.Header
    {
      cli := new CLI.CLIReport(ctx, out);
    }

    /** `update`, given the entries `getUpdated` returns: nothing when
        silent; otherwise one line per entry, in order, each slot counted
        by `displaySize`. The counters are not reset. */
    method Update(ctx: Context, completed: seq<Entry>, out: Queue)
      requires out.Valid()
      requires forall j :: 0 <= j < |completed| ==> |completed[j].1| == 3
      modifies cli.base`success, cli.base`warning, cli.base`failure, out
      ensures out.Valid()
      ensures cli.base.silent ==> cli.base.Counters() == old(cli.base.Counters()) && out.stdout == old(out.stdout)
      ensures !cli.base.silent ==>
        && cli.base.Counters() == Report.Plus(old(cli.base.Counters()), EntriesTally(completed))
        && out.stdout == old(out.stdout) + Lines(completed, ctx.originalPaths)
    {
      if cli.base.silent {
        return;
      }
      ghost var names := ctx.originalPaths;
      ghost var stdout0, counts0 := out.stdout, cli.base.Counters();
      for j := 0 to |completed|
        invariant out.Valid()
        invariant Printed(completed, j, names, stdout0, out.stdout, counts0, cli.base.Counters())
      {
        var (path, record) := completed[j];
        ghost var counts := cli.base.Counters();
        var row := DrawEntry(ctx, path, record);
        PrintStep(completed, j, names, stdout0, out.stdout, counts0, counts);
        out.Write([row]);
      }
      assert completed[..|completed|] == completed;
    }

    /** The body of `update`'s loop: the three slots drawn, their failures
        summed, and the row with its icon. */
    method DrawEntry(ctx: Context, path: Path, record: seq<Slot>) returns (row: Token)
      requires |record| == 3
      modifies cli.base`success, cli.base`warning, cli.base`failure
      ensures row == EntryRow(ctx.originalPaths, (path, record))
      ensures cli.base.Counters() == Report.Plus(old(cli.base.Counters()), Report.Tally(record))
    {
      var displayPath := if path in ctx.originalPaths && ctx.originalPaths[path] != "" then ctx.originalPaths[path] else path;
      ghost var counts0 := cli.base.Counters();
      var failure: nat := 0;
      var cells := [];
      for i := 0 to |OrderedCompressionValues|
        invariant Entered(record, i, failure, cells, counts0, cli.base.Counters())
      {
        ghost var counts := cli.base.Counters();
        var status, cell := cli.DisplaySize(record[i]);
        CLI.StatusAgrees(record[i]);
        EnterStep(record, i, failure, cells, counts0, counts);
        failure := failure + status.failure;
        cells := cells + [cell];
      }
      assert record[..|record|] == record;
      CrossIffFailures(record);
      row := Row(if failure > 0 then Cross else Tick, displayPath, cells);
    }
  }
}
