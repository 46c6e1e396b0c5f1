// The compression driver of src/compress.ts: collect one job per measured
// slot of the table, run them in batches of the concurrency, and report
// through the console reporter of src/log.ts.

module Compress {
  import opened Wrappers
  import opened Text
  import opened Condition
  import opened Host
  import opened Output
  import opened Batching
  import Log
  import Worker
  import Report

  /** What `readFile` yields for a path, `""` when it yields nothing. */
  function ReadContents(env: Env, path: Path): string
  {
    match env.readFile(path)
    case None => ""
    case Some(s) => s
  }

  /** What measuring a job gives, from the file as read now. */
  function Attempt(env: Env, item: Worker.CompressionItem): Worker.Measurement
  {
    Worker.Measure(env, ReadContents(env, item.path), item.compression)
  }

  /** A job passes when it is measured within its budget. */
  predicate JobOk(env: Env, item: Worker.CompressionItem)
  {
    var m := Attempt(env, item);
    m.Measured? && WithinBudget(m.bytes, item.maxSize)
  }

  /** How a job settles: it throws on a backend error, and otherwise
      resolves to whether it passed. */
  function JobOutcome(env: Env, item: Worker.CompressionItem): Outcome
  {
    if Attempt(env, item).BackendError? then Throws else Resolved(JobOk(env, item))
  }

  /** `JobOutcome` for one environment. */
  function Settles(env: Env): Worker.CompressionItem -> Outcome
  {
    item => JobOutcome(env, item)
  }

  /** The job for slot `i` of a record, when that slot is measured. */
  function SlotJobs(p: Path, record: seq<Slot>, i: nat): seq<Worker.CompressionItem>
    requires i < |record| <= |OrderedCompressionValues|
  {
    if record[i].size.Ignored? then [] else [Worker.CompressionItem(p, OrderedCompressionValues[i], record[i].maxSize)]
  }

  /** The jobs of one record, in slot order. */
  function RecordJobs(p: Path, record: seq<Slot>): seq<Worker.CompressionItem>
    requires |record| <= |OrderedCompressionValues|
  {
    if record == [] then []
    else RecordJobs(p, record[..|record| - 1]) + SlotJobs(p, record, |record| - 1)
  }

  /** The table holds a full record for each of `order`. */
  ghost predicate Tabled(order: seq<Path>, t: map<Path, seq<Slot>>)
  {
    forall p :: p in order ==> p in t && |t[p]| == 3
  }

  /** `toCompress`: the jobs of every record, in table order. */
  function Jobs(order: seq<Path>, t: map<Path, seq<Slot>>): seq<Worker.CompressionItem>
    requires Tabled(order, t)
  {
    if order == [] then []
    else Jobs(order[..|order| - 1], t) + RecordJobs(order[|order| - 1], t[order[|order| - 1]])
  }

  /** The slot a job stands for is measured, and has the job's budget. */
  ghost predicate JobSlot(t: map<Path, seq<Slot>>, item: Worker.CompressionItem)
    requires item.path in t && |t[item.path]| == 3
  {
    var s := t[item.path][SizeMapValueIndex(item.compression)];
    !s.size.Ignored? && s.maxSize == item.maxSize
  }

  lemma {:induction false} RecordJobsExactly(p: Path, record: seq<Slot>, item: Worker.CompressionItem)
    requires |record| <= 3
    ensures item in RecordJobs(p, record) <==>
      && item.path == p && SizeMapValueIndex(item.compression) < |record|
      && var s := record[SizeMapValueIndex(item.compression)];
         !s.size.Ignored? && s.maxSize == item.maxSize
    decreases |record|
  {
    if record != [] {
      var init := record[..|record| - 1];
      RecordJobsExactly(p, init, item);
      EncodingTables(item.compression);
      if SizeMapValueIndex(item.compression) < |init| {
        assert init[SizeMapValueIndex(item.compression)] == record[SizeMapValueIndex(item.compression)];
      }
    }
  }

  /** A job is collected exactly when its path is in the table and the slot
      of its encoding is measured with its budget. */
  lemma {:induction false} JobsExactly(order: seq<Path>, t: map<Path, seq<Slot>>, item: Worker.CompressionItem)
    requires Tabled(order, t)
    ensures item in Jobs(order, t) <==> item.path in order && JobSlot(t, item)
    decreases |order|
  {
    if order != [] {
      var init, p := order[..|order| - 1], order[|order| - 1];
      JobsExactly(init, t, item);
      RecordJobsExactly(p, t[p], item);
      assert forall q :: q in order <==> q in init || q == p;
    }
  }

  /** Each job of a record: one per measured slot, so at most three. */
  lemma {:induction false} RecordJobsBound(p: Path, record: seq<Slot>)
    requires |record| <= 3
    ensures |RecordJobs(p, record)| <= |record|
    decreases |record|
  {
    if record != [] {
      RecordJobsBound(p, record[..|record| - 1]);
    }
  }

  /** The message `store` logs for an error of the backend. */
  function CompressFailed(item: Worker.CompressionItem): string
  {
    "Could not compress '" + item.path + "' with '" + Name(item.compression) + "'."
  }

  /** The message `store` logs for a path the table lacks. */
  function NotInTable(item: Worker.CompressionItem): string
  {
    "Could not find item '" + item.path + "' with '" + Name(item.compression) + "' in compression map."
  }

  /** A slot changed by measuring keeps its budget and whether it is
      ignored, and any new size is a calculated one. */
  predicate SlotRemeasured(s0: Slot, s1: Slot)
  {
    && s1.maxSize == s0.maxSize
    && (s1.size.Ignored? <==> s0.size.Ignored?)
    && (s1 != s0 ==> s1.size.Calculated?)
  }

  /** Between two table snapshots only measured fields have changed. */
  ghost predicate Remeasured(t0: map<Path, seq<Slot>>, t1: map<Path, seq<Slot>>)
  {
    && t1.Keys == t0.Keys
    && forall p :: p in t0 ==>
         |t1[p]| == |t0[p]| && forall i :: 0 <= i < |t0[p]| ==> SlotRemeasured(t0[p][i], t1[p][i])
  }

  lemma RemeasuredTrans(t0: map<Path, seq<Slot>>, t1: map<Path, seq<Slot>>, t2: map<Path, seq<Slot>>)
    requires Remeasured(t0, t1) && Remeasured(t1, t2)
    ensures Remeasured(t0, t2)
  {
  }

  /** The slot a job writes is in the table and not ignored. */
  ghost predicate Writable(t: map<Path, seq<Slot>>, item: Worker.CompressionItem)
  {
    item.path in t && |t[item.path]| == 3 && !t[item.path][SizeMapValueIndex(item.compression)].size.Ignored?
  }

  /** A job whose file measures has left a calculated size in its slot. */
  ghost predicate Done(env: Env, t: map<Path, seq<Slot>>, item: Worker.CompressionItem)
  {
    Attempt(env, item).Measured? ==>
      item.path in t && |t[item.path]| == 3 && t[item.path][SizeMapValueIndex(item.compression)].size.Calculated?
  }

  /** Measuring more keeps every job writable and every finished job done. */
  lemma {:induction false} RemeasuredKeeps(env: Env, t0: map<Path, seq<Slot>>, t1: map<Path, seq<Slot>>,
                                           item: Worker.CompressionItem)
    requires Remeasured(t0, t1)
    ensures Writable(t0, item) ==> Writable(t1, item)
    ensures Done(env, t0, item) ==> Done(env, t1, item)
  {
    if item.path in t0 && |t0[item.path]| == 3 {
      var i := SizeMapValueIndex(item.compression);
      assert SlotRemeasured(t0[item.path][i], t1[item.path][i]);
    }
  }

  /** The console has only gained lines since `before`, and none at all
      when the reporter is silent. */
  predicate Grown(silent: bool, before: seq<Token>, after: seq<Token>)
  {
    if silent then after == before else |before| <= |after| && after[..|before|] == before
  }

  lemma GrownTrans(silent: bool, a: seq<Token>, b: seq<Token>, c: seq<Token>)
    requires Grown(silent, a, b) && Grown(silent, b, c)
    ensures Grown(silent, a, c)
  {
    if !silent {
      assert c[..|a|] == c[..|b|][..|a|];
    }
  }

  /** What a grown console has gained. */
  lemma GrownSplit(silent: bool, before: seq<Token>, after: seq<Token>)
    requires Grown(silent, before, after)
    ensures after == before + (if silent then [] else after[|before|..])
  {
    if !silent {
      assert after == after[..|before|] + after[|before|..];
    }
  }

  /** The reporter and the console are as they were. */
  twostate predicate Quiet(report: Log.ConsoleReport, console: Log.Console)
    reads report, console
  {
    && report.pathsDrawn == old(report.pathsDrawn) && report.Counters() == old(report.Counters())
    && console.lines == old(console.lines)
  }

  /** `report.update(context)` has run on the table `t`. */
  twostate predicate Updated(report: Log.ConsoleReport, t: map<Path, seq<Slot>>, console: Log.Console)
    reads report, console
  {
    if report.silent then Quiet(report, console)
    else
      var r := Log.LogFrom(report.paths, 0, t, report.maxPathDisplay,
                           Log.Drawing([], old(report.pathsDrawn), old(report.Counters())));
      && report.pathsDrawn == r.drawn && report.Counters() == r.counts
      && console.lines == old(console.lines) + r.lines
  }

  /** `store` of src/compress.ts: on an error, or for a path the table
      lacks, one error line and false. Otherwise only the measured field of
      the item's slot is written, the console reporter is updated after the
      write, and the result is the strict budget test. */
  method Store(report: Log.ConsoleReport, ctx: Context, item: Worker.CompressionItem, error: bool, size: nat,
               console: Log.Console)
    returns (ok: bool)
    requires ctx.Valid()
    modifies (if item.path in ctx.compressed then {ctx.compressed[item.path]} else {}),
             report`pathsDrawn, report`success, report`warning, report`failure, console
    ensures error || item.path !in ctx.compressed ==>
      && !ok && ctx.Snapshot() == old(ctx.Snapshot())
      && report.pathsDrawn == old(report.pathsDrawn) && report.Counters() == old(report.Counters())
    ensures error ==> console.lines == old(console.lines) + [Problem(Log.MakeError(CompressFailed(item)))]
    ensures !error && item.path !in ctx.compressed ==>
      console.lines == old(console.lines) + [Problem(Log.MakeError(NotInTable(item)))]
    ensures !error && item.path in ctx.compressed ==>
      && ctx.compressed[item.path][..] == Worker.Stored(old(ctx.compressed[item.path][..]), item.compression, size)
      && ok == WithinBudget(size, item.maxSize)
      && Updated(report, ctx.Snapshot(), console)
    ensures !error && Writable(old(ctx.Snapshot()), item) ==>
      && Remeasured(old(ctx.Snapshot()), ctx.Snapshot())
      && ctx.Snapshot()[item.path][SizeMapValueIndex(item.compression)].size == Calculated(size)
  {
    if error {
      Log.LogError(console, CompressFailed(item));
      return false;
    }
    if item.path !in ctx.compressed {
      Log.LogError(console, NotInTable(item));
      return false;
    }
    Record(ctx, item, size);
    report.Update(ctx, console);
    if item.maxSize.Unrestricted? {
      return true;
    }
    return size < item.maxSize.bytes;
  }

  /** `sizeMap[OrderedCompressionValues.indexOf(item.compression)][0] = size`:
      every path sharing the record sees the write, and only a measured
      field changes. */
  method Record(ctx: Context, item: Worker.CompressionItem, size: nat)
    requires ctx.Valid() && item.path in ctx.compressed
    modifies ctx.compressed[item.path]
    ensures ctx.compressed[item.path][..] == Worker.Stored(old(ctx.compressed[item.path][..]), item.compression, size)
    ensures ctx.Snapshot()[item.path][SizeMapValueIndex(item.compression)].size == Calculated(size)
    ensures Writable(old(ctx.Snapshot()), item) ==> Remeasured(old(ctx.Snapshot()), ctx.Snapshot())
  {
    EncodingTables(item.compression);
    var i := IndexOf(OrderedCompressionNames, Name(item.compression));
    var found := ctx.SetSize(item.path, i, size);
  }

  /** The inner `compressor`: the file is read again; with no contents,
      false; brotli and gzip go to their backends, whose error makes the
      callback throw on the missing result; anything else is measured as
      UTF-8 and stored. */
  method Compressor(env: Env, ctx: Context, report: Log.ConsoleReport, item: Worker.CompressionItem,
                    console: Log.Console)
    returns (outcome: Outcome)
    requires ctx.Valid()
    modifies (if item.path in ctx.compressed then {ctx.compressed[item.path]} else {}),
             report`pathsDrawn, report`success, report`warning, report`failure, console
    ensures var m := Attempt(env, item);
      && (m.Unreadable? ==> outcome == Resolved(false))
      && (m.BackendError? ==> outcome == Throws)
      && (m.Measured? ==> outcome == Resolved(item.path in ctx.compressed && WithinBudget(m.bytes, item.maxSize)))
      && (!m.Measured? ==> ctx.Snapshot() == old(ctx.Snapshot()) && Quiet(report, console))
      && (m.Measured? && item.path !in ctx.compressed ==>
            && ctx.Snapshot() == old(ctx.Snapshot())
            && report.pathsDrawn == old(report.pathsDrawn) && report.Counters() == old(report.Counters())
            && console.lines == old(console.lines) + [Problem(Log.MakeError(NotInTable(item)))])
      && (m.Measured? && item.path in ctx.compressed ==>
            && ctx.compressed[item.path][..] == Worker.Stored(old(ctx.compressed[item.path][..]), item.compression, m.bytes)
            && Updated(report, ctx.Snapshot(), console))
    ensures Writable(old(ctx.Snapshot()), item) ==>
      Remeasured(old(ctx.Snapshot()), ctx.Snapshot()) && Done(env, ctx.Snapshot(), item)
  {
    var read := env.readFile(item.path);
    var contents := if read.Some? then read.value else "";
    if contents == "" {
      return Resolved(false);
    }
    match item.compression
    case Brotli =>
      var result := env.compress(Brotli, contents);
      if result.None? {
        return Throws;
      }
      var ok := Store(report, ctx, item, false, result.value, console);
      return Resolved(ok);
    case Gzip =>
      var result := env.compress(Gzip, contents);
      if result.None? {
        return Throws;
      }
      var ok := Store(report, ctx, item, false, result.value, console);
      return Resolved(ok);
    case Identity =>
      var ok := Store(report, ctx, item, false, Utf8Length(contents), console);
      return Resolved(ok);
  }

  /** Jobs still writable and those before `n` still done, once more has
      been measured. */
  lemma {:induction false} KeepsAll(env: Env, t0: map<Path, seq<Slot>>, t1: map<Path, seq<Slot>>,
                                    jobs: seq<Worker.CompressionItem>, n: nat)
    requires Remeasured(t0, t1) && n <= |jobs|
    requires forall k :: 0 <= k < |jobs| ==> Writable(t0, jobs[k])
    requires forall k :: 0 <= k < n ==> Done(env, t0, jobs[k])
    ensures forall k :: 0 <= k < |jobs| ==> Writable(t1, jobs[k])
    ensures forall k :: 0 <= k < n ==> Done(env, t1, jobs[k])
  {
    forall k | 0 <= k < |jobs|
      ensures Writable(t1, jobs[k]) && (k < n ==> Done(env, t1, jobs[k]))
    {
      RemeasuredKeeps(env, t0, t1, jobs[k]);
    }
  }

  /** `KeepsAll`, with job `n` done in the new table. */
  lemma {:induction false} KeepsNext(env: Env, t0: map<Path, seq<Slot>>, t1: map<Path, seq<Slot>>,
                                     jobs: seq<Worker.CompressionItem>, n: nat)
    requires Remeasured(t0, t1) && n < |jobs|
    requires forall k :: 0 <= k < |jobs| ==> Writable(t0, jobs[k])
    requires forall k :: 0 <= k < n ==> Done(env, t0, jobs[k])
    requires Done(env, t1, jobs[n])
    ensures forall k :: 0 <= k < |jobs| ==> Writable(t1, jobs[k])
    ensures forall k :: 0 <= k <= n ==> Done(env, t1, jobs[k])
  {
    KeepsAll(env, t0, t1, jobs, n);
  }

  /** `KeepsAll`, with the batch `jobs[n..m]` done in the new table. */
  lemma {:induction false} KeepsBatch(env: Env, t0: map<Path, seq<Slot>>, t1: map<Path, seq<Slot>>,
                                      jobs: seq<Worker.CompressionItem>, n: nat, m: nat,
                                      batch: seq<Worker.CompressionItem>)
    requires Remeasured(t0, t1) && n <= m <= |jobs| && batch == jobs[n..m]
    requires forall k :: 0 <= k < |jobs| ==> Writable(t0, jobs[k])
    requires forall k :: 0 <= k < n ==> Done(env, t0, jobs[k])
    requires forall k :: 0 <= k < |batch| ==> Done(env, t1, batch[k])
    ensures forall k :: 0 <= k < |jobs| ==> Writable(t1, jobs[k])
    ensures forall k :: 0 <= k < m ==> Done(env, t1, jobs[k])
  {
    KeepsAll(env, t0, t1, jobs, n);
    forall k | n <= k < m ensures Done(env, t1, jobs[k]) {
      assert jobs[k] == batch[k - n];
    }
  }

  /** One job as its batch sees it: how it settles, and that it only
      measures its own slot and only adds to the console (nothing when
      silent). */
  method Job(env: Env, ctx: Context, report: Log.ConsoleReport, item: Worker.CompressionItem, console: Log.Console)
    returns (outcome: Outcome)
    requires ctx.Valid() && Writable(ctx.Snapshot(), item)
    modifies ctx.compressed.Values, report`pathsDrawn, report`success, report`warning, report`failure, console
    ensures outcome == JobOutcome(env, item)
    ensures Remeasured(old(ctx.Snapshot()), ctx.Snapshot()) && Done(env, ctx.Snapshot(), item)
    ensures Grown(report.silent, old(console.lines), console.lines)
  {
    outcome := Compressor(env, ctx, report, item, console);
  }

  /** The loops that build `toCompress`, in table order and slot order:
      every job writes a slot of the table that is not ignored. */
  method CollectJobs(ctx: Context, ghost t: map<Path, seq<Slot>>) returns (jobs: seq<Worker.CompressionItem>)
    requires ctx.Valid() && t == ctx.Snapshot()
    ensures Tabled(ctx.order, t)
    ensures jobs == Jobs(ctx.order, t)
    ensures forall k :: 0 <= k < |jobs| ==> Writable(t, jobs[k])
  {
    assert Tabled(ctx.order, t);
    jobs := [];
    for k := 0 to |ctx.order|
      invariant jobs == Jobs(ctx.order[..k], t)
    {
      var path := ctx.order[k];
      var sizeMapValue := ctx.compressed[path];
      assert ctx.order[..k + 1][..k] == ctx.order[..k];
      ghost var record := sizeMapValue[..];
      assert record == t[path];
      for i := 0 to |OrderedCompressionValues|
        invariant jobs == Jobs(ctx.order[..k], t) + RecordJobs(path, record[..i])
      {
        assert record[..i + 1][..i] == record[..i];
        if sizeMapValue[i].size != Ignored {
          jobs := jobs + [Worker.CompressionItem(path, OrderedCompressionValues[i], sizeMapValue[i].maxSize)];
        }
      }
      assert record[..3] == record;
    }
    assert ctx.order[..|ctx.order|] == ctx.order;
    forall k | 0 <= k < |jobs| ensures Writable(t, jobs[k]) {
      JobsExactly(ctx.order, t, jobs[k]);
    }
  }

  /** `Promise.all` over one batch, its results taken in order. Only
      measured fields of the table change, the console only grows (and not
      at all when silent), and once the batch settles every job whose file
      measures has a calculated size in its slot. */
  method RunBatch(env: Env, ctx: Context, report: Log.ConsoleReport, batch: seq<Worker.CompressionItem>,
                  console: Log.Console)
    returns (outcome: Outcome)
    requires ctx.Valid()
    requires forall j :: 0 <= j < |batch| ==> Writable(ctx.Snapshot(), batch[j])
    modifies ctx.compressed.Values, report`pathsDrawn, report`success, report`warning, report`failure, console
    ensures outcome == RunOutcome(Settles(env), batch)
    ensures Remeasured(old(ctx.Snapshot()), ctx.Snapshot())
    ensures outcome.Resolved? ==> forall j :: 0 <= j < |batch| ==> Done(env, ctx.Snapshot(), batch[j])
    ensures Grown(report.silent, old(console.lines), console.lines)
  {
    ghost var t0 := ctx.Snapshot();
    ghost var t := t0;
    var all := true;
    for j := 0 to |batch|
      invariant RunOutcome(Settles(env), batch[..j]) == Resolved(all)
      invariant t == ctx.Snapshot()
      invariant Remeasured(t0, t)
      invariant forall k :: 0 <= k < |batch| ==> Writable(t, batch[k])
      invariant forall k :: 0 <= k < j ==> Done(env, t, batch[k])
      invariant Grown(report.silent, old(console.lines), console.lines)
    {
      ghost var lines := console.lines;
      var result := Job(env, ctx, report, batch[j], console);
      GrownTrans(report.silent, old(console.lines), lines, console.lines);
      KeepsNext(env, t, ctx.Snapshot(), batch, j);
      RemeasuredTrans(t0, t, ctx.Snapshot());
      t := ctx.Snapshot();
      assert result == Settles(env)(batch[j]);
      RunOutcomeNext(Settles(env), batch, j);
      if result.Throws? {
        return Throws;
      }
      all := all && result.ok;
    }
    assert batch[..|batch|] == batch;
    return Resolved(all);
  }

  /** `new Report(context)`: the header unless silent, and the table left
      alone. */
  method NewReport(ctx: Context, console: Log.Console) returns (report: Log.ConsoleReport)
    modifies console
    ensures fresh(report)
    ensures ctx.Snapshot() == old(ctx.Snapshot())
    ensures report.silent == ctx.silent && report.Counters() == Report.Zero
    ensures console.lines == old(console.lines) + (if ctx.silent then [] else [Heading, Columns])
  {
    report := new Log.ConsoleReport(ctx, console);
  }

  /** `report.end()`: the summary unless silent, and the table left alone. */
  method EndReport(report: Log.ConsoleReport, ctx: Context, console: Log.Console)
    modifies console
    ensures ctx.Snapshot() == old(ctx.Snapshot())
    ensures console.lines == old(console.lines) + (if report.silent then [] else Log.LogSummary(report.Counters()))
  {
    report.End(console);
  }

  /** `compress` as written: the report is made, the jobs collected, the
      batches run, and the report ended. A backend error ends the run by
      throwing; otherwise the run succeeds iff every job passed. Only
      measured fields of the table change; a settled run leaves a
      calculated size in the slot of every job whose file measures. Unless
      silent, the console gets the header, then the `rows` the updates
      print, then, once the run settles, the summary of the reporter's
      final counts `counts`; a silent run prints nothing, and with no jobs
      only the header is printed. */
  method Compress(env: Env, ctx: Context, console: Log.Console, concurrency: nat)
    returns (outcome: Outcome, ghost ran: seq<seq<Worker.CompressionItem>>,
             ghost rows: seq<Token>, ghost counts: Report.Counts)
    requires ctx.Valid() && concurrency >= 1
    modifies ctx.compressed.Values, console
    ensures var jobs := Jobs(ctx.order, old(ctx.Snapshot()));
      && outcome == RunOutcome(Settles(env), jobs)
      && (outcome.Resolved? ==> ran == Batches(jobs, concurrency))
      && (jobs == [] ==> console.lines == old(console.lines) + (if ctx.silent then [] else [Heading, Columns]))
      && (outcome.Resolved? ==> forall k :: 0 <= k < |jobs| ==> Done(env, ctx.Snapshot(), jobs[k]))
    ensures Remeasured(old(ctx.Snapshot()), ctx.Snapshot())
    ensures console.lines == old(console.lines) +
      (if ctx.silent then [] else [Heading, Columns] + rows + (if outcome.Resolved? then Log.LogSummary(counts) else []))
  {
    // The jobs are collected before the report is made: the constructor
    // writes only to the console and the collection only reads the table,
    // so the order of the two does not matter.
    ghost var t := ctx.Snapshot();
    ghost var start := console.lines;
    var toCompress := CollectJobs(ctx, t);
    var report := NewReport(ctx, console);
    ghost var header := console.lines;
    outcome, ran := RunBatches(env, ctx, report, toCompress, console, concurrency);
    counts := report.Counters();
    rows := if ctx.silent then [] else console.lines[|header|..];
    GrownSplit(ctx.silent, header, console.lines);
    ghost var body := console.lines;
    if outcome.Resolved? {
      EndReport(report, ctx, console);
    }
    Transcript(ctx.silent, start, header, body, console.lines, rows,
               if outcome.Resolved? then Log.LogSummary(counts) else []);
  }

  /** The console of a run, assembled from its three stages. */
  lemma Transcript(silent: bool, start: seq<Token>, header: seq<Token>, body: seq<Token>, end: seq<Token>,
                   rows: seq<Token>, summary: seq<Token>)
    requires header == start + (if silent then [] else [Heading, Columns])
    requires body == header + (if silent then [] else rows)
    requires end == body + (if silent then [] else summary)
    ensures end == start + (if silent then [] else [Heading, Columns] + rows + summary)
  {
    if !silent {
      AppendAssoc(start, [Heading, Columns], rows);
      AppendAssoc(start, [Heading, Columns] + rows, summary);
    }
  }

  /** One pass of the batch loop: the report is updated on the first
      pass, then the slice `toCompress[offset..end]` runs as one batch. */
  method BatchAt(env: Env, ctx: Context, report: Log.ConsoleReport, toCompress: seq<Worker.CompressionItem>,
                 offset: nat, end: nat, console: Log.Console)
    returns (outcome: Outcome)
    requires ctx.Valid() && offset < end <= |toCompress|
    requires forall k :: 0 <= k < |toCompress| ==> Writable(ctx.Snapshot(), toCompress[k])
    requires forall k :: 0 <= k < offset ==> Done(env, ctx.Snapshot(), toCompress[k])
    modifies ctx.compressed.Values, report`pathsDrawn, report`success, report`warning, report`failure, console
    ensures outcome == RunOutcome(Settles(env), toCompress[offset..end])
    ensures Remeasured(old(ctx.Snapshot()), ctx.Snapshot())
    ensures forall k :: 0 <= k < |toCompress| ==> Writable(ctx.Snapshot(), toCompress[k])
    ensures forall k :: 0 <= k < offset ==> Done(env, ctx.Snapshot(), toCompress[k])
    ensures outcome.Resolved? ==> forall k :: 0 <= k < end ==> Done(env, ctx.Snapshot(), toCompress[k])
    ensures Grown(report.silent, old(console.lines), console.lines)
  {
    if offset == 0 {
      report.Update(ctx, console);
    }
    ghost var t := ctx.Snapshot();
    ghost var lines := console.lines;
    var batch := toCompress[offset..end];
    assert forall j :: 0 <= j < |batch| ==> batch[j] == toCompress[offset + j];
    outcome := RunBatch(env, ctx, report, batch, console);
    GrownTrans(report.silent, old(console.lines), lines, console.lines);
    if outcome.Throws? {
      KeepsAll(env, t, ctx.Snapshot(), toCompress, offset);
    } else {
      KeepsBatch(env, t, ctx.Snapshot(), toCompress, offset, end, batch);
    }
  }

  /** The batch loop of `compress`: the report updated before the first
      batch, then each slice of `concurrency` jobs run in turn. */
  method RunBatches(env: Env, ctx: Context, report: Log.ConsoleReport, toCompress: seq<Worker.CompressionItem>,
                    console: Log.Console, concurrency: nat)
    returns (outcome: Outcome, ghost ran: seq<seq<Worker.CompressionItem>>)
    requires ctx.Valid() && concurrency >= 1
    requires forall k :: 0 <= k < |toCompress| ==> Writable(ctx.Snapshot(), toCompress[k])
    modifies ctx.compressed.Values, report`pathsDrawn, report`success, report`warning, report`failure, console
    ensures outcome == RunOutcome(Settles(env), toCompress)
    ensures outcome.Resolved? ==> ran == Batches(toCompress, concurrency)
    ensures toCompress == [] ==> report.Counters() == old(report.Counters()) && console.lines == old(console.lines)
    ensures Remeasured(old(ctx.Snapshot()), ctx.Snapshot())
    ensures outcome.Resolved? ==> forall k :: 0 <= k < |toCompress| ==> Done(env, ctx.Snapshot(), toCompress[k])
    ensures Grown(report.silent, old(console.lines), console.lines)
  {
    ghost var t0 := ctx.Snapshot();
    var success := true;
    ran := [];
    var offset := 0;
    BatchedStart(Settles(env), toCompress, concurrency);
    while offset < |toCompress|
      invariant Batched(Settles(env), toCompress, offset, success, ran, concurrency)
      invariant offset == 0 ==> report.Counters() == old(report.Counters()) && console.lines == old(console.lines)
      invariant Remeasured(t0, ctx.Snapshot())
      invariant forall k :: 0 <= k < |toCompress| ==> Writable(ctx.Snapshot(), toCompress[k])
      invariant forall k :: 0 <= k < offset ==> Done(env, ctx.Snapshot(), toCompress[k])
      invariant Grown(report.silent, old(console.lines), console.lines)
      decreases |toCompress| - offset
    {
      var end := if |toCompress| < offset + concurrency then |toCompress| else offset + concurrency;
      ghost var t := ctx.Snapshot();
      ghost var lines := console.lines;
      var itemsSuccessful := BatchAt(env, ctx, report, toCompress, offset, end, console);
      RemeasuredTrans(t0, t, ctx.Snapshot());
      GrownTrans(report.silent, old(console.lines), lines, console.lines);
      BatchStep(Settles(env), toCompress, offset, success, ran, concurrency, end, itemsSuccessful);
      if itemsSuccessful.Throws? {
        return Throws, ran;
      }
      success := success && itemsSuccessful.ok;
      ran := ran + [toCompress[offset..end]];
      offset := end;
    }
    BatchedEnd(Settles(env), toCompress, success, ran, concurrency);
    return Resolved(success), ran;
  }
}
