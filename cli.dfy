// The line reporter of src/log/cli-report.ts: a `Report` whose
// `displaySize` also hands back a status record for the slot, and whose
// `end` adds its own summary after the base one.

module CLI {
  import opened Condition
  import opened Output
  import Report

  /** The status record `displaySize` returns for one slot. */
  datatype Status = Status(success: nat, warning: nat, failure: nat, processing: nat)

  /** The status of a slot: `processing` for a `null` size, nothing more for
      a `null` or `undefined` size or an `undefined` budget, otherwise the
      one field the budget test picks. */
  function StatusOf(slot: Slot): (s: Status)
    ensures s.processing == (if slot.size.Awaiting? then 1 else 0)
    ensures !slot.size.Calculated? || slot.maxSize.Unrestricted? ==> s.success + s.warning + s.failure == 0
    ensures slot.size.Calculated? && slot.maxSize.Limit? ==> s.success + s.warning + s.failure == 1
    ensures s.success + s.warning + s.failure + s.processing <= 1
  {
    match slot.size
    case Ignored => Status(0, 0, 0, 0)
    case Awaiting => Status(0, 0, 0, 1)
    case Calculated(size) =>
      match slot.maxSize
      case Unrestricted => Status(0, 0, 0, 0)
      case Limit(max) =>
        if size < max then
          if 20 * (max - size) < max then Status(0, 1, 0, 0) else Status(1, 0, 0, 0)
        else Status(0, 0, 1, 0)
  }

  /** The counters a status adds. */
  function Counted(s: Status): Report.Counts
  {
    Report.Counts(s.success, s.warning, s.failure)
  }

  /** The status agrees with the classification of `Report`: it names the
      counter `Report.displaySize` increments, its `failure` is set exactly
      for a slot at or over its budget, and its `processing` exactly for a
      slot still being measured. */
  lemma StatusAgrees(slot: Slot)
    ensures Counted(StatusOf(slot)) == Report.Count(Report.Classify(slot))
    ensures StatusOf(slot).failure == 1 <==> Report.Classify(slot) == Report.Failure
    ensures StatusOf(slot).failure == 1 <==> slot.size.Calculated? && !WithinBudget(slot.size.bytes, slot.maxSize)
    ensures StatusOf(slot).processing == 1 <==> Report.Classify(slot) == Report.Processing
  {
  }

  /** `CLIReport`: the `Report` it extends, whose counters it increments. */
  class CLIReport {
    const base: Report.Report

    /** As written: the base constructor writes the header unless silent,
        then `start` writes it again unconditionally. */
    constructor (ctx: Context, out: Queue)
      requires out.Valid()
      modifies out
      ensures fresh(base) && base.Valid() && out.Valid()
      ensures base.silent == ctx.silent && base.Counters() == Report.Zero && base.completedPaths == []
      ensures base.paths == (if ctx.silent then [] else ctx.order)
      ensures out.stdout == old(out.stdout) + (if ctx.silent then [] else Report.Header) + Report.Header
    {
      base := new Report.Report(ctx, out);
      new;
      base.silent := ctx.silent;
      Report.Report.Start(out);
    }

    /** The header written once, and not at all when silent. */
    constructor Once(ctx: Context, out: Queue)
      requires out.Valid()
      modifies out
      ensures fresh(base) && base.Valid() && out.Valid()
      ensures base.silent == ctx.silent && base.Counters() == Report.Zero && base.completedPaths == []
      ensures base.paths == (if ctx.silent then [] else ctx.order)
      ensures out.stdout == old(out.stdout) + (if ctx.silent then [] else Report.Header)
    {
      base := new Report.Report(ctx, out);
    }

    /** `displaySize`: the cell of the slot, its status record, and the
        same-named counter of the report incremented. */
    method DisplaySize(slot: Slot) returns (status: Status, cell: Cell)
      modifies base`success, base`warning, base`failure
      ensures status == StatusOf(slot) && cell == Report.CellOf(slot)
      ensures base.Counters() == Report.Plus(old(base.Counters()), Counted(status))
    {
      status := Status(0, 0, 0, 0);
      if slot.size.Awaiting? {
        status := status.(processing := status.processing + 1);
      }
      if !slot.size.Calculated? {
        cell := Placeholder;
        return;
      }
      var size := slot.size.bytes;
      if slot.maxSize.Unrestricted? {
        cell := Neutral(size);
        return;
      }
      var max := slot.maxSize.bytes;
      if size < max {
        if 20 * (max - size) < max {
          base.warning := base.warning + 1;
          status := status.(warning := status.warning + 1);
          cell := Warn(size);
          return;
        }
        base.success := base.success + 1;
        status := status.(success := status.success + 1);
        cell := Pass(size);
        return;
      }
      base.failure := base.failure + 1;
      status := status.(failure := status.failure + 1);
      cell := Fail(size);
    }

    /** As written: the base `end` (nothing when silent), then the summary
        again, whether silent or not. */
    method End(out: Queue)
      requires out.Valid()
      modifies out
      ensures out.Valid()
      ensures out.stdout == old(out.stdout)
        + (if base.silent then [] else Report.Summary(base.Counters())) + Report.Summary(base.Counters())
    {
      base.End(out);
      Report.Report.WriteSummary(base.success, base.warning, base.failure, out);
    }
  }

  /** A silent line reporter still writes the header. */
  method SilentHeader() returns (out: Queue)
    ensures out.stdout == Report.Header
  {
    var ctx := new Context("", "", true, map[]);
    out := new Queue();
    var report := new CLIReport(ctx, out);
  }

  /** With the header written once, a silent reporter writes nothing. */
  method SilentHeaderOnce() returns (out: Queue)
    ensures out.stdout == []
  {
    var ctx := new Context("", "", true, map[]);
    out := new Queue();
    var report := new CLIReport.Once(ctx, out);
  }

  /** With any counter positive, the passed line reaches stdout twice at
      the end of a run that is not silent. */
  lemma PassedLineTwice(c: Report.Counts)
    requires c != Report.Zero
    ensures multiset(Report.Summary(c) + Report.Summary(c))[[Passed(c.success, c.failure == 0)]] == 2
  {
    var passed := [Passed(c.success, c.failure == 0)];
    var s := Report.Summary(c);
    assert s == [passed] + s[1..];
    assert passed !in s[1..];
    assert multiset(s)[passed] == 1;
  }
}
