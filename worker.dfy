// The result recorder and the per-item compressor of src/worker.ts.

module Worker {
  import opened Wrappers
  import opened Text
  import opened Condition
  import opened Host
  import opened Output
  import opened Batching
  import Report

  /** One job: a path of the table, one of its encodings, and that slot's
      budget. */
  datatype CompressionItem = CompressionItem(path: Path, compression: Compression, maxSize: MaxSize)

  /** What measuring an item's contents gives: nothing to measure (the
      contents are missing or empty), an error of the compression backend,
      or a byte length. */
  datatype Measurement = Unreadable | BackendError | Measured(bytes: nat)

  /** The cached contents of a path, `""` when there are none. */
  function ContentsOf(fileContents: map<Path, string>, path: Path): string
  {
    if path in fileContents then fileContents[path] else ""
  }

  /** Brotli and gzip go to their backends; every other encoding measures
      the UTF-8 byte length of the contents. */
  function Measure(env: Env, contents: string, c: Compression): (m: Measurement)
    ensures m.Unreadable? <==> contents == ""
    ensures c == Identity && contents != "" ==> m == Measured(Utf8Length(contents))
    ensures m.BackendError? ==> c != Identity
  {
    if contents == "" then Unreadable
    else if c == Brotli || c == Gzip then
      match env.compress(c, contents)
      case None => BackendError
      case Some(n) => Measured(n)
    else Measured(Utf8Length(contents))
  }

  /** The identity encoding never measures 0 bytes: readable contents are
      non-empty, and each character takes at least one byte. */
  lemma IdentityMeasuresContents(env: Env, contents: string)
    requires contents != ""
    ensures Measure(env, contents, Identity).bytes >= |contents| > 0
  {
    Utf8LengthBounds(contents);
  }

  /** `store` passes a slot exactly when the table reporter does not show it
      as failing. */
  lemma StoreAgreesWithReport(size: nat, maxSize: MaxSize)
    ensures WithinBudget(size, maxSize) <==> Report.Classify(Slot(Calculated(size), maxSize)) != Report.Failure
  {
    Report.ClassifyAgainstBudget(Slot(Calculated(size), maxSize));
  }

  /** The record of `path` with the measured field of the slot of `c` set. */
  function Stored(record: seq<Slot>, c: Compression, size: nat): seq<Slot>
    requires |record| == 3
  {
    var i := SizeMapValueIndex(c);
    record[i := record[i].(size := Calculated(size))]
  }

  /** The reporter is as it was: same mode, completed paths and counters. */
  twostate predicate Untouched(report: Report.Report)
    reads report
  {
    && report.silent == old(report.silent)
    && report.completedPaths == old(report.completedPaths)
    && report.Counters() == old(report.Counters())
  }

  /** `store`: on an error, or for a path missing from the table, false and
      nothing written. Otherwise only the measured field of the item's slot
      is written, the reporter (if any) is updated after the write, and the
      result is the strict budget test of the item's budget. */
  method Store(report: Report.Report?, ctx: Context, item: CompressionItem, error: bool, size: nat, out: Queue)
    returns (ok: bool)
    requires ctx.Valid() && out.Valid() && (report != null ==> report.Valid())
    modifies (if item.path in ctx.compressed then {ctx.compressed[item.path]} else {}), report, out
    ensures out.Valid() && (report != null ==> report.Valid())
    ensures error || item.path !in ctx.compressed ==>
      && !ok && ctx.Snapshot() == old(ctx.Snapshot()) && out.stdout == old(out.stdout)
      && (report != null ==> Untouched(report))
    ensures !error && item.path in ctx.compressed ==>
      && ctx.compressed[item.path][..] == Stored(old(ctx.compressed[item.path][..]), item.compression, size)
      && ok == WithinBudget(size, item.maxSize)
      && (report == null || report.silent ==> out.stdout == old(out.stdout))
      && (report != null && report.silent ==> Untouched(report))
      && (report != null && !report.silent ==>
            var r := Report.ScanFrom(report.paths, 0, ctx.Snapshot(), ctx.originalPaths,
                                     Report.Scan([], old(report.completedPaths), Report.Zero, None));
            && report.completedPaths == r.completed && report.Counters() == r.counts
            && out.stdout == old(out.stdout) + Shown(r.rows))
  {
    if error {
      return false;
    }
    if item.path !in ctx.compressed {
      return false;
    }
    EncodingTables(item.compression);
    var i := IndexOf(OrderedCompressionNames, Name(item.compression));
    var found := ctx.SetSize(item.path, i, size);
    if report != null {
      report.Update(ctx, out);
    }
    if item.maxSize.Unrestricted? {
      return true;
    }
    return size < item.maxSize.bytes;
  }

  /** `compressor` as written: with no contents, false; otherwise the
      measured size is stored and the reporter updated as `Store` does. When a backend reports an error, its
      callback reads the length of the missing result, throws, and the
      promise never settles. */
  method Compressor(env: Env, ctx: Context, report: Report.Report?, item: CompressionItem, out: Queue)
    returns (outcome: Outcome)
    requires ctx.Valid() && out.Valid() && (report != null ==> report.Valid())
    modifies (if item.path in ctx.compressed then {ctx.compressed[item.path]} else {}), report, out
    ensures out.Valid() && (report != null ==> report.Valid())
    ensures var m := Measure(env, ContentsOf(ctx.fileContents, item.path), item.compression);
      && (m.Unreadable? ==> outcome == Resolved(false))
      && (m.BackendError? ==> outcome == Throws)
      && (!m.Measured? || item.path !in ctx.compressed ==>
            && ctx.Snapshot() == old(ctx.Snapshot()) && out.stdout == old(out.stdout)
            && (report != null ==> Untouched(report)))
      && (m.Measured? ==> outcome == Resolved(item.path in ctx.compressed && WithinBudget(m.bytes, item.maxSize)))
      && (m.Measured? && item.path in ctx.compressed ==>
            && ctx.compressed[item.path][..] == Stored(old(ctx.compressed[item.path][..]), item.compression, m.bytes)
            && (report == null || report.silent ==> out.stdout == old(out.stdout))
            && (report != null && report.silent ==> Untouched(report))
            && (report != null && !report.silent ==>
                  var r := Report.ScanFrom(report.paths, 0, ctx.Snapshot(), ctx.originalPaths,
                                           Report.Scan([], old(report.completedPaths), Report.Zero, None));
                  && report.completedPaths == r.completed && report.Counters() == r.counts
                  && out.stdout == old(out.stdout) + Shown(r.rows)))
  {
    var contents := if item.path in ctx.fileContents then ctx.fileContents[item.path] else "";
    if contents == "" {
      return Resolved(false);
    }
    if item.compression == Brotli || item.compression == Gzip {
      var result := env.compress(item.compression, contents);
      if result.None? {
        return Throws;
      }
      var ok := Store(report, ctx, item, false, result.value, out);
      return Resolved(ok);
    }
    var ok := Store(report, ctx, item, false, Utf8Length(contents), out);
    return Resolved(ok);
  }

  /** `compressor` with the error handed to `store`: a backend error
      resolves to false and writes nothing. */
  method CompressorChecked(env: Env, ctx: Context, report: Report.Report?, item: CompressionItem, out: Queue)
    returns (ok: bool)
    requires ctx.Valid() && out.Valid() && (report != null ==> report.Valid())
    modifies (if item.path in ctx.compressed then {ctx.compressed[item.path]} else {}), report, out
    ensures out.Valid() && (report != null ==> report.Valid())
    ensures var m := Measure(env, ContentsOf(ctx.fileContents, item.path), item.compression);
      && (ok <==> m.Measured? && item.path in ctx.compressed && WithinBudget(m.bytes, item.maxSize))
      && (!m.Measured? || item.path !in ctx.compressed ==>
            && ctx.Snapshot() == old(ctx.Snapshot()) && out.stdout == old(out.stdout)
            && (report != null ==> Untouched(report)))
      && (m.Measured? && item.path in ctx.compressed ==>
            && ctx.compressed[item.path][..] == Stored(old(ctx.compressed[item.path][..]), item.compression, m.bytes)
            && (report == null || report.silent ==> out.stdout == old(out.stdout))
            && (report != null && report.silent ==> Untouched(report))
            && (report != null && !report.silent ==>
                  var r := Report.ScanFrom(report.paths, 0, ctx.Snapshot(), ctx.originalPaths,
                                           Report.Scan([], old(report.completedPaths), Report.Zero, None));
                  && report.completedPaths == r.completed && report.Counters() == r.counts
                  && out.stdout == old(out.stdout) + Shown(r.rows)))
  {
    var contents := if item.path in ctx.fileContents then ctx.fileContents[item.path] else "";
    if contents == "" {
      return false;
    }
    if item.compression == Brotli || item.compression == Gzip {
      var result := env.compress(item.compression, contents);
      ok := Store(report, ctx, item, result.None?, if result.None? then 0 else result.value, out);
      return;
    }
    ok := Store(report, ctx, item, false, Utf8Length(contents), out);
  }
}
