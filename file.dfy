// Validation of one file entry of the 'filesize' configuration
// (src/validation/File.ts): encoding names, and the size-table records that
// a file's `{ encoding: budget }` object creates or updates.

module File {
  import opened Wrappers
  import opened Text
  import opened Json
  import opened Condition
  import opened Host

  /** `validateCompressionName`: brotli, gzip and none in any letter case,
      the empty string as 'none', anything else `null`. */
  function ValidateCompressionName(fsValue: string): Option<Compression>
  {
    var lowerCaseValue := LowerAscii(fsValue);
    if lowerCaseValue == "brotli" then Some(Brotli)
    else if lowerCaseValue == "gzip" then Some(Gzip)
    else if lowerCaseValue == "none" then Some(Identity)
    else if lowerCaseValue == "" then Some(Identity)
    else None
  }

  /** The accepted names are exactly the three encoding names, compared after
      lower-casing, plus the empty string for 'none'. */
  lemma ValidateCompressionNameSpec(fsValue: string, c: Compression)
    ensures ValidateCompressionName(fsValue) == Some(c) <==>
            LowerAscii(fsValue) == Name(c) || (fsValue == "" && c == Identity)
  {
  }

  /** Every encoding name is accepted whatever its letter case. */
  lemma CompressionNameCaseInsensitive(c: Compression)
    ensures ValidateCompressionName(Name(c)) == Some(c)
    ensures ValidateCompressionName(UpperAscii(Name(c))) == Some(c)
  {
    var u := UpperAscii(Name(c));
    assert LowerAscii(u) == Name(c);
  }

  /** The text of every error `validateFileConfig` reports. */
  function InvalidConfig(originalPath: string, reason: string): string
  {
    "Configuration for '" + originalPath + "' is invalid. " + reason
  }

  /** Why one `[configKey, configValue]` entry is rejected, if it is. */
  function EntryProblem(env: Env, entry: (string, Json)): Option<string>
  {
    if ValidateCompressionName(entry.0).None? then Some("(Invalid compression value '" + entry.0 + "')")
    else
      var maxSize := env.bytes(entry.1);
      if maxSize.None? || maxSize.value < 0 then Some("(size unspecified)") else None
  }

  predicate ValidEntry(env: Env, entry: (string, Json))
  {
    EntryProblem(env, entry).None?
  }

  /** The slot a valid entry writes, and what it writes there. */
  function EntrySlot(env: Env, entry: (string, Json)): (r: (nat, Slot))
    requires ValidEntry(env, entry)
    ensures r.0 < 3 && r.1.size == Awaiting && r.1.maxSize.Limit?
  {
    var c := ValidateCompressionName(entry.0).value;
    (SizeMapValueIndex(c), Slot(Awaiting, Limit(env.bytes(entry.1).value)))
  }

  /** The number of entries before the first invalid one. */
  function AcceptedCount(env: Env, entries: seq<(string, Json)>): (k: nat)
    ensures k <= |entries|
    ensures forall j :: 0 <= j < k ==> ValidEntry(env, entries[j])
    ensures k < |entries| ==> !ValidEntry(env, entries[k])
    decreases |entries|
  {
    if entries == [] || !ValidEntry(env, entries[0]) then 0
    else 1 + AcceptedCount(env, entries[1..])
  }

  /** A record after the given valid entries were written into it in order. */
  function WriteEntries(env: Env, record: seq<Slot>, entries: seq<(string, Json)>): (r: seq<Slot>)
    requires |record| == 3
    requires forall j :: 0 <= j < |entries| ==> ValidEntry(env, entries[j])
    ensures |r| == 3
    decreases |entries|
  {
    if entries == [] then record
    else
      var last := EntrySlot(env, entries[|entries| - 1]);
      WriteEntries(env, record, entries[..|entries| - 1])[last.0 := last.1]
  }

  /** The position of the last entry that writes slot `i`, if any. */
  function LastWriter(env: Env, entries: seq<(string, Json)>, i: nat): (r: Option<nat>)
    requires forall j :: 0 <= j < |entries| ==> ValidEntry(env, entries[j])
    ensures r.Some? ==> r.value < |entries| && EntrySlot(env, entries[r.value]).0 == i
    ensures r.Some? ==> forall l :: r.value < l < |entries| ==> EntrySlot(env, entries[l]).0 != i
    ensures r.None? ==> forall l :: 0 <= l < |entries| ==> EntrySlot(env, entries[l]).0 != i
    decreases |entries|
  {
    if entries == [] then None
    else if EntrySlot(env, entries[|entries| - 1]).0 == i then Some(|entries| - 1)
    else
      assert forall l :: 0 <= l < |entries| - 1 ==> entries[..|entries| - 1][l] == entries[l];
      LastWriter(env, entries[..|entries| - 1], i)
  }

  /** A slot ends up awaiting calculation with the budget of the LAST entry
      naming its encoding, and a slot no entry names is left as it was. */
  lemma {:induction false} WriteEntriesSlot(env: Env, record: seq<Slot>, entries: seq<(string, Json)>, i: nat)
    requires |record| == 3 && i < 3
    requires forall j :: 0 <= j < |entries| ==> ValidEntry(env, entries[j])
    ensures WriteEntries(env, record, entries)[i] ==
      match LastWriter(env, entries, i)
      case None => record[i]
      case Some(j) => EntrySlot(env, entries[j]).1
    decreases |entries|
  {
    if entries != [] {
      var init := entries[..|entries| - 1];
      assert forall j :: 0 <= j < |init| ==> init[j] == entries[j];
      WriteEntriesSlot(env, record, init, i);
    }
  }

  /** The outcome `validateFileConfig` returns: the entries must be non-empty,
      the path must be a file, and the first invalid entry is reported. */
  function FileConfigError(env: Env, projectPath: string, originalPath: string, entries: seq<(string, Json)>): Option<string>
  {
    if |entries| == 0 then Some(InvalidConfig(originalPath, "(compression values unspecified)"))
    else if !env.isFile(env.resolveIn(projectPath, originalPath)) then Some(InvalidConfig(originalPath, "(path is not a valid file)"))
    else
      var k := AcceptedCount(env, entries);
      if k < |entries| then Some(InvalidConfig(originalPath, EntryProblem(env, entries[k]).value)) else None
  }

  /** The checks come in the order of the source: an empty entry list is
      reported before the path is looked at, and success means every entry was
      valid. */
  lemma FileConfigErrorOrder(env: Env, projectPath: string, originalPath: string, entries: seq<(string, Json)>)
    ensures |entries| == 0 ==>
      FileConfigError(env, projectPath, originalPath, entries) == Some(InvalidConfig(originalPath, "(compression values unspecified)"))
    ensures |entries| > 0 && !env.isFile(env.resolveIn(projectPath, originalPath)) ==>
      FileConfigError(env, projectPath, originalPath, entries) == Some(InvalidConfig(originalPath, "(path is not a valid file)"))
    ensures FileConfigError(env, projectPath, originalPath, entries).None? <==>
      |entries| > 0 && env.isFile(env.resolveIn(projectPath, originalPath)) &&
      forall j :: 0 <= j < |entries| ==> ValidEntry(env, entries[j])
  {
  }

  /** The number of entries `validateFileConfig` writes into the table before
      it returns. */
  function WrittenCount(env: Env, projectPath: string, originalPath: string, entries: seq<(string, Json)>): (k: nat)
    ensures k <= |entries|
  {
    if |entries| == 0 || !env.isFile(env.resolveIn(projectPath, originalPath)) then 0
    else AcceptedCount(env, entries)
  }

  /** Looks up the record of `path`, starts one with every slot ignored when
      there is none, writes slot `i` in place and stores the record under
      `path`. */
  method SetSlot(ctx: Context, path: Path, i: nat, slot: Slot) returns (compressedItem: array<Slot>)
    requires ctx.Valid() && i < 3
    modifies ctx`order, ctx`compressed, if path in ctx.compressed then {ctx.compressed[path]} else {}
    ensures ctx.Valid()
    ensures path in old(ctx.compressed) ==> compressedItem == old(ctx.compressed[path])
    ensures path !in old(ctx.compressed) ==> fresh(compressedItem)
    ensures compressedItem[..] ==
      (if path in old(ctx.compressed) then old(ctx.compressed[path][..]) else UntrackedRecord)[i := slot]
    ensures ctx.order == SetKey(old(ctx.order), path)
    ensures ctx.compressed == old(ctx.compressed)[path := compressedItem]
  {
    if path in ctx.compressed {
      compressedItem := ctx.compressed[path];
    } else {
      compressedItem := new Slot[3] [Slot(Ignored, Unrestricted), Slot(Ignored, Unrestricted), Slot(Ignored, Unrestricted)];
    }
    compressedItem[i] := slot;
    ctx.SetRecord(path, compressedItem);
  }

  /** Writing one more entry writes its slot over the record so far. */
  lemma WriteEntriesNext(env: Env, record: seq<Slot>, entries: seq<(string, Json)>, i: nat)
    requires |record| == 3 && i < |entries|
    requires forall j :: 0 <= j <= i ==> ValidEntry(env, entries[j])
    ensures WriteEntries(env, record, entries[..i + 1]) ==
            WriteEntries(env, record, entries[..i])[EntrySlot(env, entries[i]).0 := EntrySlot(env, entries[i]).1]
  {
    assert entries[..i + 1][..i] == entries[..i];
  }

  lemma ReplaceTwice<K, V>(m: map<K, V>, k: K, v: V, w: V)
    ensures m[k := v][k := w] == m[k := w]
  {
  }

  /** The state `validateFileConfig` leaves behind once it has written
      `entries[..k]` for `path`, starting from the key order `order0`, the
      table `table0`, the original names `paths0` and the record contents
      `heap0`: nothing changed when `k == 0`; otherwise `path` holds its old
      record object (or a new one) with those entries written into it, and no
      other record or path changed. */
  ghost predicate Wrote(ctx: Context, env: Env, path: Path, originalPath: string,
                        entries: seq<(string, Json)>, k: nat,
                        order0: seq<Path>, table0: map<Path, array<Slot>>, paths0: map<Path, string>,
                        heap0: map<array<Slot>, seq<Slot>>)
    requires k <= |entries| && forall j :: 0 <= j < k ==> ValidEntry(env, entries[j])
    requires forall p :: p in table0 ==> table0[p] in heap0 && |heap0[table0[p]]| == 3
    reads ctx, ctx.compressed.Values, table0.Values
  {
    if k == 0 then
      && ctx.order == order0 && ctx.compressed == table0 && ctx.originalPaths == paths0
      && (forall p :: p in table0 ==> table0[p][..] == heap0[table0[p]])
    else
      && path in ctx.compressed
      && ctx.order == SetKey(order0, path)
      && ctx.originalPaths == paths0[path := originalPath]
      && ctx.compressed == table0[path := ctx.compressed[path]]
      && (path in table0 ==> ctx.compressed[path] == table0[path])
      && ctx.compressed[path][..] ==
           WriteEntries(env, if path in table0 then heap0[table0[path]] else UntrackedRecord, entries[..k])
      && (forall p :: p in table0 && table0[p] != ctx.compressed[path] ==> table0[p][..] == heap0[table0[p]])
  }

  /** The loop of `validateFileConfig` over the entries of a file whose path
      was accepted: each entry is checked and written before the next one is
      looked at, and the first invalid entry ends the loop with its error. */
  method StoreEntries(ctx: Context, env: Env, path: Path, originalPath: string, entries: seq<(string, Json)>)
    returns (err: Option<string>)
    requires ctx.Valid()
    modifies ctx`order, ctx`compressed, ctx`originalPaths, ctx.compressed.Values
    ensures ctx.Valid()
    ensures var k := AcceptedCount(env, entries);
            err == (if k < |entries| then Some(InvalidConfig(originalPath, EntryProblem(env, entries[k]).value)) else None)
    ensures Wrote(ctx, env, path, originalPath, entries, AcceptedCount(env, entries),
                  old(ctx.order), old(ctx.compressed), old(ctx.originalPaths), old(Contents(ctx.compressed)))
    ensures path !in old(ctx.compressed) && AcceptedCount(env, entries) > 0 ==> fresh(ctx.compressed[path])
  {
    ghost var k := AcceptedCount(env, entries);
    ghost var order0, table0, paths0, heap0 := ctx.order, ctx.compressed, ctx.originalPaths, Contents(ctx.compressed);
    var i := 0;
    while i < |entries|
      invariant 0 <= i <= k
      invariant ctx.Valid()
      invariant forall p :: p in table0 ==> table0[p] in heap0 && |heap0[table0[p]]| == 3
      invariant Wrote(ctx, env, path, originalPath, entries, i, order0, table0, paths0, heap0)
      invariant path !in table0 && i > 0 ==> fresh(ctx.compressed[path])
      decreases |entries| - i
    {
      var problem, idx, slot := CheckEntry(env, entries[i]);
      if problem.Some? {
        assert i == k;
        return Some(InvalidConfig(originalPath, problem.value));
      }
      assert i < k;
      AcceptEntry(ctx, env, path, originalPath, entries, i, idx, slot, order0, table0, paths0, heap0);
      i := i + 1;
    }
    assert entries[..i] == entries;
    return None;
  }

  /** The two checks of one entry: its compression name, then its size. */
  method CheckEntry(env: Env, entry: (string, Json)) returns (problem: Option<string>, idx: nat, slot: Slot)
    ensures problem == EntryProblem(env, entry)
    ensures problem.None? ==> (idx, slot) == EntrySlot(env, entry)
  {
    var (configKey, configValue) := entry;
    var compression := ValidateCompressionName(configKey);
    if compression.None? {
      return Some("(Invalid compression value '" + configKey + "')"), 0, Slot(Ignored, Unrestricted);
    }
    var maxSize := env.bytes(configValue);
    if maxSize.None? || maxSize.value < 0 {
      return Some("(size unspecified)"), 0, Slot(Ignored, Unrestricted);
    }
    return None, SizeMapValueIndex(compression.value), Slot(Awaiting, Limit(maxSize.value));
  }

  /** One pass of that loop after `entries[i]` was found valid: the slot it
      names is written into the record of `path` and the original name is
      remembered. */
  method AcceptEntry(ctx: Context, env: Env, path: Path, originalPath: string,
                     entries: seq<(string, Json)>, i: nat, idx: nat, slot: Slot,
                     ghost order0: seq<Path>, ghost table0: map<Path, array<Slot>>, ghost paths0: map<Path, string>,
                     ghost heap0: map<array<Slot>, seq<Slot>>)
    requires ctx.Valid()
    requires i < |entries| && forall j :: 0 <= j <= i ==> ValidEntry(env, entries[j])
    requires EntrySlot(env, entries[i]) == (idx, slot)
    requires forall p :: p in table0 ==> table0[p] in heap0 && |heap0[table0[p]]| == 3
    requires Wrote(ctx, env, path, originalPath, entries, i, order0, table0, paths0, heap0)
    modifies ctx`order, ctx`compressed, ctx`originalPaths, ctx.compressed.Values
    ensures ctx.Valid()
    ensures Wrote(ctx, env, path, originalPath, entries, i + 1, order0, table0, paths0, heap0)
    ensures path in old(ctx.compressed) ==> ctx.compressed[path] == old(ctx.compressed[path])
    ensures path !in old(ctx.compressed) ==> fresh(ctx.compressed[path])
  {
    if path in ctx.compressed {
      if i == 0 {
        assert path in ctx.order && entries[..0] == [];
      }
      AcceptExisting(ctx, env, path, originalPath, entries, i, idx, slot, order0, table0, paths0, heap0);
    } else {
      AcceptNew(ctx, env, path, originalPath, entries, idx, slot, order0, table0, paths0, heap0);
    }
  }

  /** The first entry of a path the table does not hold: a new record. */
  method AcceptNew(ctx: Context, env: Env, path: Path, originalPath: string,
                   entries: seq<(string, Json)>, idx: nat, slot: Slot,
                   ghost order0: seq<Path>, ghost table0: map<Path, array<Slot>>, ghost paths0: map<Path, string>,
                   ghost heap0: map<array<Slot>, seq<Slot>>)
    requires ctx.Valid()
    requires 0 < |entries| && ValidEntry(env, entries[0]) && EntrySlot(env, entries[0]) == (idx, slot)
    requires forall p :: p in table0 ==> table0[p] in heap0 && |heap0[table0[p]]| == 3
    requires path !in table0
    requires ctx.order == order0 && ctx.compressed == table0 && ctx.originalPaths == paths0
    requires forall p :: p in table0 ==> table0[p][..] == heap0[table0[p]]
    modifies ctx`order, ctx`compressed, ctx`originalPaths
    ensures ctx.Valid()
    ensures Wrote(ctx, env, path, originalPath, entries, 1, order0, table0, paths0, heap0)
    ensures fresh(ctx.compressed[path])
  {
    WriteEntriesNext(env, UntrackedRecord, entries, 0);
    assert entries[..0] == [];
    var compressedItem := SetSlot(ctx, path, idx, slot);
    ctx.originalPaths := ctx.originalPaths[path := originalPath];
    WroteAfter(ctx, env, path, originalPath, entries, 1, order0, table0, paths0, heap0);
  }

  /** A further entry for a path whose record the table holds: that record
      is written in place. */
  method AcceptExisting(ctx: Context, env: Env, path: Path, originalPath: string,
                        entries: seq<(string, Json)>, i: nat, idx: nat, slot: Slot,
                        ghost order0: seq<Path>, ghost table0: map<Path, array<Slot>>, ghost paths0: map<Path, string>,
                        ghost heap0: map<array<Slot>, seq<Slot>>)
    requires ctx.Valid() && path in ctx.compressed
    requires i < |entries| && forall j :: 0 <= j <= i ==> ValidEntry(env, entries[j])
    requires EntrySlot(env, entries[i]) == (idx, slot)
    requires forall p :: p in table0 ==> table0[p] in heap0 && |heap0[table0[p]]| == 3
    requires ctx.order == SetKey(order0, path)
    requires ctx.originalPaths[path := originalPath] == paths0[path := originalPath]
    requires ctx.compressed == table0[path := ctx.compressed[path]]
    requires path in table0 ==> ctx.compressed[path] == table0[path]
    requires ctx.compressed[path][..] ==
             WriteEntries(env, if path in table0 then heap0[table0[path]] else UntrackedRecord, entries[..i])
    requires forall p :: p in table0 && table0[p] != ctx.compressed[path] ==> table0[p][..] == heap0[table0[p]]
    modifies ctx`order, ctx`compressed, ctx`originalPaths, ctx.compressed[path]
    ensures ctx.Valid()
    ensures Wrote(ctx, env, path, originalPath, entries, i + 1, order0, table0, paths0, heap0)
    ensures ctx.compressed[path] == old(ctx.compressed[path])
  {
    WriteEntriesNext(env, if path in table0 then heap0[table0[path]] else UntrackedRecord, entries, i);
    var compressedItem := SetSlot(ctx, path, idx, slot);
    ReplaceTwice(table0, path, compressedItem, compressedItem);
    ctx.originalPaths := ctx.originalPaths[path := originalPath];
    WroteAfter(ctx, env, path, originalPath, entries, i + 1, order0, table0, paths0, heap0);
  }

  /** `Wrote` after at least one entry, one conjunct at a time. */
  lemma WroteAfter(ctx: Context, env: Env, path: Path, originalPath: string,
                   entries: seq<(string, Json)>, k: nat,
                   order0: seq<Path>, table0: map<Path, array<Slot>>, paths0: map<Path, string>,
                   heap0: map<array<Slot>, seq<Slot>>)
    requires 0 < k <= |entries| && forall j :: 0 <= j < k ==> ValidEntry(env, entries[j])
    requires forall p :: p in table0 ==> table0[p] in heap0 && |heap0[table0[p]]| == 3
    requires path in ctx.compressed
    requires ctx.order == SetKey(order0, path)
    requires ctx.originalPaths == paths0[path := originalPath]
    requires ctx.compressed == table0[path := ctx.compressed[path]]
    requires path in table0 ==> ctx.compressed[path] == table0[path]
    requires ctx.compressed[path][..] ==
             WriteEntries(env, if path in table0 then heap0[table0[path]] else UntrackedRecord, entries[..k])
    requires forall p :: p in table0 && table0[p] != ctx.compressed[path] ==> table0[p][..] == heap0[table0[p]]
    ensures Wrote(ctx, env, path, originalPath, entries, k, order0, table0, paths0, heap0)
  {
  }

  /** `validateFileConfig(originalPath, compressionConfig, context)`. Entries are
      written as they are validated, so the entries before a failing one stay
      in the table. */
  method ValidateFileConfig(ctx: Context, env: Env, originalPath: string, compressionConfig: seq<(string, Json)>)
    returns (err: Option<string>)
    requires ctx.Valid()
    modifies ctx`order, ctx`compressed, ctx`originalPaths, ctx.compressed.Values
    ensures ctx.Valid()
    ensures err == FileConfigError(env, ctx.projectPath, originalPath, compressionConfig)
    ensures Wrote(ctx, env, env.resolveIn(ctx.projectPath, originalPath), originalPath, compressionConfig,
                  WrittenCount(env, ctx.projectPath, originalPath, compressionConfig),
                  old(ctx.order), old(ctx.compressed), old(ctx.originalPaths), old(Contents(ctx.compressed)))
  {
    if |compressionConfig| == 0 {
      return Some(InvalidConfig(originalPath, "(compression values unspecified)"));
    }
    var path := env.resolveIn(ctx.projectPath, originalPath);
    if !env.isFile(path) {
      return Some(InvalidConfig(originalPath, "(path is not a valid file)"));
    }
    err := StoreEntries(ctx, env, path, originalPath, compressionConfig);
  }
}
