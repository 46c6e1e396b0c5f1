// The compressor of the earlier top-level compress.ts: one job per
// configured item, run in batches, each job printing one line.

module LegacyCompress {
  import opened Wrappers
  import opened Text
  import opened Condition
  import opened Host
  import opened Batching
  import Worker

  /** The line `report` prints: an error, a passing or a failing line. */
  datatype Logged = CouldNotCompress | PassingOutput | FailingOutput

  /** `report`: an error fails the item; otherwise the item passes when the
      size is at most its budget. */
  function Report(item: ItemConfig, error: bool, size: nat): (r: (bool, Logged))
    ensures r.0 <==> !error && size <= item.maxSize
    ensures r.1 == CouldNotCompress <==> error
    ensures r.1 == PassingOutput <==> r.0
  {
    if error then (false, CouldNotCompress)
    else if item.maxSize >= size then (true, PassingOutput)
    else (false, FailingOutput)
  }

  /** The budget test of `report` is the test of `store` in src/worker.ts
      loosened by one byte: they disagree only on a size equal to the
      budget, which passes here and fails there. */
  lemma ReportLoosensStore(item: ItemConfig, size: nat)
    requires item.maxSize >= 0
    ensures Report(item, false, size).0 <==> WithinBudget(size, Limit(item.maxSize)) || size == item.maxSize
    ensures size == item.maxSize ==> Report(item, false, size).0 && !WithinBudget(size, Limit(item.maxSize))
  {
  }

  /** `compressor`: unreadable or empty contents fail the item; brotli and
      gzip measure their output, and a backend error throws inside its
      callback, so the job never settles; any other encoding measures the
      UTF-8 byte length of the contents. */
  function Compressor(env: Env, item: ItemConfig): (o: Outcome)
  {
    match env.readFile(item.path)
    case None => Resolved(false)
    case Some(contents) =>
      if contents == "" then Resolved(false)
      else if item.compression == Brotli || item.compression == Gzip then
        match env.compress(item.compression, contents)
        case None => Throws
        case Some(n) => Resolved(Report(item, false, n).0)
      else Resolved(Report(item, false, Utf8Length(contents)).0)
  }

  /** A job measures exactly what src/worker.ts measures for the same
      contents: it fails when there is nothing to measure, throws on a
      backend error, and otherwise applies `report`'s budget test to the
      measured size. */
  lemma CompressorMeasures(env: Env, item: ItemConfig)
    ensures var contents := match env.readFile(item.path) case None => "" case Some(s) => s;
      Compressor(env, item) ==
        match Worker.Measure(env, contents, item.compression)
        case Unreadable => Resolved(false)
        case BackendError => Throws
        case Measured(n) => Resolved(n <= item.maxSize)
  {
  }

  /** `compressor` with the backend's error handed to `report`: the job
      fails instead of throwing. */
  function CompressorChecked(env: Env, item: ItemConfig): (o: Outcome)
  {
    match env.readFile(item.path)
    case None => Resolved(false)
    case Some(contents) =>
      if contents == "" then Resolved(false)
      else if item.compression == Brotli || item.compression == Gzip then
        match env.compress(item.compression, contents)
        case None => Resolved(Report(item, true, 0).0)
        case Some(n) => Resolved(Report(item, false, n).0)
      else Resolved(Report(item, false, Utf8Length(contents)).0)
  }

  /** The checked job always settles, fails on a backend error, and
      otherwise settles as the job as written. */
  lemma CompressorCheckedSettles(env: Env, item: ItemConfig)
    ensures CompressorChecked(env, item).Resolved?
    ensures Compressor(env, item).Throws? ==> CompressorChecked(env, item) == Resolved(false)
    ensures Compressor(env, item).Resolved? ==> CompressorChecked(env, item) == Compressor(env, item)
  {
  }

  /** A brotli item whose backend fails: the job as written throws, the
      checked one fails. */
  lemma BackendErrorThrows(env: Env, item: ItemConfig)
    requires env.readFile(item.path) == Some("x") && item.compression == Brotli
    requires env.compress(Brotli, "x") == None
    ensures Compressor(env, item) == Throws
    ensures CompressorChecked(env, item) == Resolved(false)
  {
  }

  /** The jobs of one environment. */
  function Jobs(env: Env): ItemConfig -> Outcome
  {
    item => Compressor(env, item)
  }

  /** One batch: `Promise.all` over its jobs, then `includes(false)`. */
  method RunBatch(env: Env, batch: seq<ItemConfig>) returns (outcome: Outcome)
    ensures outcome == RunOutcome(Jobs(env), batch)
  {
    var all := true;
    for j := 0 to |batch|
      invariant RunOutcome(Jobs(env), batch[..j]) == Resolved(all)
    {
      var result := Compressor(env, batch[j]);
      assert result == Jobs(env)(batch[j]);
      RunOutcomeAppend(Jobs(env), batch[..j], [batch[j]]);
      assert batch[..j + 1] == batch[..j] + [batch[j]];
      if result.Throws? {
        return Throws;
      }
      all := all && result.ok;
    }
    assert batch[..|batch|] == batch;
    return Resolved(all);
  }

  /** `compress`: the configured items in batches of `concurrency`, each
      batch awaited before the next starts. A failing batch does not stop
      the loop; the run succeeds iff every item passed, and the batches run
      are the consecutive slices of the configuration. */
  method Compress(env: Env, context: Context, concurrency: nat)
    returns (outcome: Outcome, ghost ran: seq<seq<ItemConfig>>)
    requires concurrency >= 1
    ensures outcome == RunOutcome(Jobs(env), context.config)
    ensures outcome.Resolved? ==> ran == Batches(context.config, concurrency)
  {
    var config := context.config;
    var success := true;
    ran := [];
    var offset := 0;
    BatchedStart(Jobs(env), config, concurrency);
    while offset < |config|
      invariant Batched(Jobs(env), config, offset, success, ran, concurrency)
      decreases |config| - offset
    {
      var end := if |config| < offset + concurrency then |config| else offset + concurrency;
      var batch := config[offset..end];
      var itemsSuccessful := RunBatch(env, batch);
      BatchStep(Jobs(env), config, offset, success, ran, concurrency, end, itemsSuccessful);
      if itemsSuccessful.Throws? {
        return Throws, ran;
      }
      if !itemsSuccessful.ok {
        success := false;
      }
      ran := ran + [batch];
      offset := end;
    }
    BatchedEnd(Jobs(env), config, success, ran, concurrency);
    return Resolved(success), ran;
  }

  /** With every read failing, no job throws and the run fails exactly when
      there is at least one item. */
  lemma NothingReadable(env: Env, config: seq<ItemConfig>)
    requires forall p :: env.readFile(p).None?
    ensures RunOutcome(Jobs(env), config) == Resolved(config == [])
  {
    if config != [] {
      assert Jobs(env)(config[0]) == Resolved(false);
    }
  }
}
