// Tracking of glob-matched files (src/validation/Track.ts): every file the
// `track` globs match gets a record with the tracked encodings awaiting
// measurement and no budget.

module Track {
  import opened Wrappers
  import opened Json
  import opened Condition
  import opened Host
  import File

  /** The encodings `trackFormat` names, after `validateCompressionName`;
      names it rejects are dropped. */
  function Formats(trackFormat: seq<Json>): (r: seq<Compression>)
    ensures |r| <= |trackFormat|
    ensures forall c :: c in r <==>
      exists k :: 0 <= k < |trackFormat| && File.ValidateCompressionName(ToJsString(trackFormat[k])) == Some(c)
    decreases |trackFormat|
  {
    if trackFormat == [] then []
    else
      var rest := Formats(trackFormat[1..]);
      assert forall k :: 0 < k < |trackFormat| ==> trackFormat[k] == trackFormat[1..][k - 1];
      match File.ValidateCompressionName(ToJsString(trackFormat[0]))
      case None => rest
      case Some(c) => [c] + rest
  }

  /** The record every tracked file gets: all three slots awaiting without a
      `trackFormat` array; with one, brotli and gzip awaiting only when named
      and 'none' awaiting always. No slot has a budget. */
  function TrackedRecord(json: Json): (r: seq<Slot>)
    ensures |r| == 3
    ensures forall i :: 0 <= i < 3 ==> r[i].maxSize == Unrestricted
    ensures r[2].size == Awaiting
  {
    match Lookup(json, "trackFormat")
    case Some(JArr(fs)) =>
      var formats := Formats(fs);
      [Slot(if Brotli in formats then Awaiting else Ignored, Unrestricted),
       Slot(if Gzip in formats then Awaiting else Ignored, Unrestricted),
       Slot(Awaiting, Unrestricted)]
    case _ => [Slot(Awaiting, Unrestricted), Slot(Awaiting, Unrestricted), Slot(Awaiting, Unrestricted)]
  }

  /** The glob matches when `json` has a `track` array, `None` otherwise. */
  function TrackedEntries(env: Env, json: Json): Option<seq<string>>
  {
    match Lookup(json, "track")
    case Some(JArr(globs)) => Some(env.glob(globs))
    case _ => None
  }

  /** `path.resolve` of every glob match, in order. */
  function Resolved(env: Env, entries: seq<string>): (r: seq<Path>)
    ensures |r| == |entries|
    decreases |entries|
  {
    if entries == [] then [] else Resolved(env, entries[..|entries| - 1]) + [env.resolveCwd(entries[|entries| - 1])]
  }

  /** The key order after `set` of every path, in order. */
  function SetKeys(order: seq<Path>, paths: seq<Path>): seq<Path>
    decreases |paths|
  {
    if paths == [] then order else SetKey(SetKeys(order, paths[..|paths| - 1]), paths[|paths| - 1])
  }

  /** The table after `set(path, record)` for every path, with one record. */
  function SetAll(m: map<Path, array<Slot>>, paths: seq<Path>, record: array<Slot>): map<Path, array<Slot>>
    decreases |paths|
  {
    if paths == [] then m else SetAll(m, paths[..|paths| - 1], record)[paths[|paths| - 1] := record]
  }

  /** `originalPaths` after `set(resolve(entry), entry)` for every entry. */
  function NameAll(m: map<Path, string>, env: Env, entries: seq<string>): map<Path, string>
    decreases |entries|
  {
    if entries == [] then m
    else
      var last := entries[|entries| - 1];
      NameAll(m, env, entries[..|entries| - 1])[env.resolveCwd(last) := last]
  }

  /** Entry `k` resolves to path `k`. */
  lemma {:induction false} ResolvedSpec(env: Env, entries: seq<string>)
    ensures forall k :: 0 <= k < |entries| ==> Resolved(env, entries)[k] == env.resolveCwd(entries[k])
    decreases |entries|
  {
    if entries != [] {
      ResolvedSpec(env, entries[..|entries| - 1]);
    }
  }

  /** Setting keys appends each new path once and keeps the order of the
      keys already there. */
  lemma {:induction false} SetKeysSpec(order: seq<Path>, paths: seq<Path>)
    ensures Distinct(order) ==> Distinct(SetKeys(order, paths))
    ensures forall q :: q in SetKeys(order, paths) <==> q in order || q in paths
    ensures |order| <= |SetKeys(order, paths)| && SetKeys(order, paths)[..|order|] == order
    decreases |paths|
  {
    if paths != [] {
      var init := paths[..|paths| - 1];
      SetKeysSpec(order, init);
      assert forall q :: q in paths <==> q in init || q == paths[|paths| - 1];
    }
  }

  /** Every listed path is mapped to the one record; every other path keeps
      what it had. */
  lemma {:induction false} SetAllSpec(m: map<Path, array<Slot>>, paths: seq<Path>, record: array<Slot>)
    ensures forall q :: q in SetAll(m, paths, record) <==> q in m || q in paths
    ensures forall q :: q in paths ==> SetAll(m, paths, record)[q] == record
    ensures forall q :: q in m && q !in paths ==> SetAll(m, paths, record)[q] == m[q]
    decreases |paths|
  {
    if paths != [] {
      var init := paths[..|paths| - 1];
      SetAllSpec(m, init, record);
      assert forall q :: q in paths <==> q in init || q == paths[|paths| - 1];
    }
  }

  /** A path takes the spelling of the LAST entry resolving to it; paths no
      entry resolves to keep their spelling. */
  lemma {:induction false} NameAllSpec(m: map<Path, string>, env: Env, entries: seq<string>)
    ensures forall q :: q in NameAll(m, env, entries) <==> q in m || q in Resolved(env, entries)
    ensures forall q :: q in m && q !in Resolved(env, entries) ==> NameAll(m, env, entries)[q] == m[q]
    ensures forall k :: 0 <= k < |entries| && (forall l :: k < l < |entries| ==> env.resolveCwd(entries[l]) != env.resolveCwd(entries[k])) ==>
      env.resolveCwd(entries[k]) in NameAll(m, env, entries) && NameAll(m, env, entries)[env.resolveCwd(entries[k])] == entries[k]
    decreases |entries|
  {
    if entries != [] {
      var init := entries[..|entries| - 1];
      NameAllSpec(m, env, init);
      assert forall k :: 0 <= k < |init| ==> init[k] == entries[k];
    }
  }

  /** One more entry sets one more key and one more spelling. */
  lemma NextEntry(env: Env, order: seq<Path>, names: map<Path, string>, entries: seq<string>, k: nat)
    requires k < |entries|
    ensures Resolved(env, entries[..k + 1]) == Resolved(env, entries[..k]) + [env.resolveCwd(entries[k])]
    ensures SetKeys(order, Resolved(env, entries[..k + 1])) ==
            SetKey(SetKeys(order, Resolved(env, entries[..k])), env.resolveCwd(entries[k]))
    ensures NameAll(names, env, entries[..k + 1]) ==
            NameAll(names, env, entries[..k])[env.resolveCwd(entries[k]) := entries[k]]
  {
    assert entries[..k + 1][..k] == entries[..k];
    var init := Resolved(env, entries[..k]);
    assert (init + [env.resolveCwd(entries[k])])[..|init|] == init;
  }

  /** Allocates the record `Track` assigns. */
  method NewRecord(json: Json) returns (record: array<Slot>)
    ensures fresh(record) && record[..] == TrackedRecord(json)
  {
    var r := TrackedRecord(json);
    record := new Slot[3] [r[0], r[1], r[2]];
  }

  /** The loop of `Track`: every glob match is set to `record` and its
      spelling is remembered. */
  method SetTracked(ctx: Context, env: Env, entries: seq<string>, record: array<Slot>)
    requires ctx.Valid() && record.Length == 3
    modifies ctx`order, ctx`compressed, ctx`originalPaths
    ensures ctx.Valid()
    ensures ctx.compressed == SetAll(old(ctx.compressed), Resolved(env, entries), record)
    ensures ctx.order == SetKeys(old(ctx.order), Resolved(env, entries))
    ensures ctx.originalPaths == NameAll(old(ctx.originalPaths), env, entries)
  {
    for k := 0 to |entries|
      invariant ctx.Valid()
      invariant ctx.order == SetKeys(old(ctx.order), Resolved(env, entries[..k]))
      invariant ctx.compressed == SetAll(old(ctx.compressed), Resolved(env, entries[..k]), record)
      invariant ctx.originalPaths == NameAll(old(ctx.originalPaths), env, entries[..k])
    {
      var path := env.resolveCwd(entries[k]);
      NextEntry(env, old(ctx.order), old(ctx.originalPaths), entries, k);
      ghost var init := Resolved(env, entries[..k]);
      assert (init + [path])[..|init|] == init;
      ctx.SetRecord(path, record);
      ctx.originalPaths := ctx.originalPaths[path := entries[k]];
    }
    assert entries[..|entries|] == entries;
  }

  /** `Track(context, json)`: when `json` has a `track` array, every match of
      its globs is set to ONE record object built before the loop, replacing
      any record the file configuration made, and remembers the glob's
      spelling. The result is always `null`. */
  method Track(ctx: Context, env: Env, json: Json) returns (r: Option<string>)
    requires ctx.Valid()
    modifies ctx`order, ctx`compressed, ctx`originalPaths
    ensures ctx.Valid() && r == None
    ensures TrackedEntries(env, json).None? || TrackedEntries(env, json).value == [] ==>
      ctx.order == old(ctx.order) && ctx.compressed == old(ctx.compressed) && ctx.originalPaths == old(ctx.originalPaths)
    ensures TrackedEntries(env, json).Some? && TrackedEntries(env, json).value != [] ==>
      var paths := Resolved(env, TrackedEntries(env, json).value);
      && paths[0] in ctx.compressed
      && var record := ctx.compressed[paths[0]];
      && fresh(record) && record[..] == TrackedRecord(json)
      && ctx.compressed == SetAll(old(ctx.compressed), paths, record)
      && ctx.order == SetKeys(old(ctx.order), paths)
      && ctx.originalPaths == NameAll(old(ctx.originalPaths), env, TrackedEntries(env, json).value)
  {
    var track := Lookup(json, "track");
    if !(track.Some? && track.value.JArr?) {
      return None;
    }
    var entries := env.glob(track.value.items);
    var trackedFormats := NewRecord(json);
    SetTracked(ctx, env, entries, trackedFormats);
    SetAllSpec(old(ctx.compressed), Resolved(env, entries), trackedFormats);
    if entries != [] {
      assert Resolved(env, entries)[0] in Resolved(env, entries);
    }
    return None;
  }

  /** The table of the corrected loop after `k` entries: the starting table
      plus the records `added` for the first `k` paths, none of which was in
      the starting table or is shared. */
  ghost predicate AddedFresh(compressed: map<Path, array<Slot>>, env: Env, entries: seq<string>, k: nat,
                             table0: map<Path, array<Slot>>, added: map<Path, array<Slot>>)
    requires k <= |entries|
  {
    && compressed == table0 + added
    && (forall q :: q in added <==> q in Resolved(env, entries[..k]))
    && (forall q, p :: q in added && p in table0 ==> added[q] != table0[p])
    && Unaliased(added)
  }

  /** The order and spellings after `k` entries, as `Track` leaves them. */
  ghost predicate NamedSoFar(order: seq<Path>, names: map<Path, string>, env: Env, entries: seq<string>, k: nat,
                             order0: seq<Path>, names0: map<Path, string>)
    requires k <= |entries|
  {
    && order == SetKeys(order0, Resolved(env, entries[..k]))
    && names == NameAll(names0, env, entries[..k])
  }

  /** One pass of the corrected loop keeps `AddedFresh`, given a record that
      is in neither the starting table nor `added`. */
  lemma AddedFreshNext(compressed: map<Path, array<Slot>>, env: Env, entries: seq<string>, k: nat,
                       table0: map<Path, array<Slot>>, added: map<Path, array<Slot>>, record: array<Slot>)
    requires k < |entries|
    requires AddedFresh(compressed, env, entries, k, table0, added)
    requires record !in table0.Values && record !in added.Values
    ensures var path := env.resolveCwd(entries[k]);
      AddedFresh(compressed[path := record], env, entries, k + 1, table0, added[path := record])
  {
    var path := env.resolveCwd(entries[k]);
    NextEntry(env, [], map[], entries, k);
    UnionUpdate(table0, added, path, record);
    ApartNext(table0, added, path, record, added[path := record]);
    UnaliasedNext(added, path, record);
  }

  /** A record in neither map keeps the added records apart from the table's. */
  lemma ApartNext(table0: map<Path, array<Slot>>, added: map<Path, array<Slot>>, path: Path, record: array<Slot>,
                  next: map<Path, array<Slot>>)
    requires forall q, p :: q in added && p in table0 ==> added[q] != table0[p]
    requires record !in table0.Values && next == added[path := record]
    ensures forall q, p :: q in next && p in table0 ==> next[q] != table0[p]
  {
    forall q, p | q in next && p in table0
      ensures next[q] != table0[p]
    {
      if q != path {
        assert next[q] == added[q];
      } else {
        assert table0[p] in table0.Values;
      }
    }
  }

  /** A record not yet added keeps the added records distinct. */
  lemma UnaliasedNext(added: map<Path, array<Slot>>, path: Path, record: array<Slot>)
    requires Unaliased(added) && record !in added.Values
    ensures Unaliased(added[path := record])
  {
    var added' := added[path := record];
    forall q, p | q in added' && p in added' && q != p
      ensures added'[q] != added'[p]
    {
      if q == path {
        assert added[p] in added.Values;
      } else if p == path {
        assert added[q] in added.Values;
      }
    }
  }

  /** One pass of the corrected loop keeps `NamedSoFar`. */
  lemma NamedSoFarNext(order: seq<Path>, names: map<Path, string>, env: Env, entries: seq<string>, k: nat,
                       order0: seq<Path>, names0: map<Path, string>)
    requires k < |entries|
    requires NamedSoFar(order, names, env, entries, k, order0, names0)
    ensures var path := env.resolveCwd(entries[k]);
      NamedSoFar(SetKey(order, path), names[path := entries[k]], env, entries, k + 1, order0, names0)
  {
    NextEntry(env, order0, names0, entries, k);
  }

  /** One pass of that loop: a new record for the `k`th entry's path, and
      the entry's spelling. */
  method AddRecord(ctx: Context, env: Env, entries: seq<string>, k: nat, json: Json,
                   ghost order0: seq<Path>, ghost names0: map<Path, string>, ghost table0: map<Path, array<Slot>>,
                   ghost added: map<Path, array<Slot>>)
    returns (record: array<Slot>)
    requires ctx.Valid() && k < |entries|
    requires AddedFresh(ctx.compressed, env, entries, k, table0, added)
    requires NamedSoFar(ctx.order, ctx.originalPaths, env, entries, k, order0, names0)
    modifies ctx`order, ctx`compressed, ctx`originalPaths
    ensures ctx.Valid()
    ensures fresh(record) && record[..] == TrackedRecord(json)
    ensures AddedFresh(ctx.compressed, env, entries, k + 1, table0, added[env.resolveCwd(entries[k]) := record])
    ensures NamedSoFar(ctx.order, ctx.originalPaths, env, entries, k + 1, order0, names0)
  {
    var path := env.resolveCwd(entries[k]);
    ghost var compressed, order, names := ctx.compressed, ctx.order, ctx.originalPaths;
    record := NewRecord(json);
    assert record !in table0.Values && record !in added.Values;
    ctx.SetRecord(path, record);
    ctx.originalPaths := ctx.originalPaths[path := entries[k]];
    AddedFreshNext(compressed, env, entries, k, table0, added, record);
    NamedSoFarNext(order, names, env, entries, k, order0, names0);
  }

  /** The loop of `Track` as its authors evidently meant it: every glob match
      gets a record object of its own. */
  method SetTrackedFresh(ctx: Context, env: Env, entries: seq<string>, json: Json)
    requires ctx.Valid()
    modifies ctx`order, ctx`compressed, ctx`originalPaths
    ensures ctx.Valid()
    ensures forall q :: q in ctx.compressed <==> q in old(ctx.compressed) || q in Resolved(env, entries)
    ensures forall q :: q in Resolved(env, entries) ==>
      fresh(ctx.compressed[q]) && ctx.compressed[q][..] == TrackedRecord(json)
    ensures forall q :: q in old(ctx.compressed) && q !in Resolved(env, entries) ==> ctx.compressed[q] == old(ctx.compressed[q])
    ensures Unaliased(old(ctx.compressed)) ==> Unaliased(ctx.compressed)
    ensures ctx.order == SetKeys(old(ctx.order), Resolved(env, entries))
    ensures ctx.originalPaths == NameAll(old(ctx.originalPaths), env, entries)
  {
    ghost var table0 := ctx.compressed;
    ghost var added := AddRecords(ctx, env, entries, json);
    AddedFreshEnd(ctx.compressed, env, entries, table0, added);
  }

  /** The loop itself, stated through the loop's own predicates. */
  method AddRecords(ctx: Context, env: Env, entries: seq<string>, json: Json)
    returns (ghost added: map<Path, array<Slot>>)
    requires ctx.Valid()
    modifies ctx`order, ctx`compressed, ctx`originalPaths
    ensures ctx.Valid()
    ensures AddedFresh(ctx.compressed, env, entries, |entries|, old(ctx.compressed), added)
    ensures forall q :: q in added ==> fresh(added[q]) && added[q][..] == TrackedRecord(json)
    ensures ctx.order == SetKeys(old(ctx.order), Resolved(env, entries))
    ensures ctx.originalPaths == NameAll(old(ctx.originalPaths), env, entries)
  {
    added := map[];
    ghost var table0, order0, names0 := ctx.compressed, ctx.order, ctx.originalPaths;
    for k := 0 to |entries|
      invariant ctx.Valid()
      invariant AddedFresh(ctx.compressed, env, entries, k, table0, added)
      invariant NamedSoFar(ctx.order, ctx.originalPaths, env, entries, k, order0, names0)
      invariant forall q :: q in added ==> fresh(added[q]) && added[q][..] == TrackedRecord(json)
    {
      var trackedFormats := AddRecord(ctx, env, entries, k, json, order0, names0, table0, added);
      added := added[env.resolveCwd(entries[k]) := trackedFormats];
    }
    assert entries[..|entries|] == entries;
  }

  /** What `AddedFresh` says once every entry is done: the table's keys, the
      records it leaves alone, and that it gains no shared record. */
  lemma AddedFreshEnd(compressed: map<Path, array<Slot>>, env: Env, entries: seq<string>,
                      table0: map<Path, array<Slot>>, added: map<Path, array<Slot>>)
    requires AddedFresh(compressed, env, entries, |entries|, table0, added)
    ensures forall q :: q in added <==> q in Resolved(env, entries)
    ensures forall q :: q in compressed <==> q in table0 || q in Resolved(env, entries)
    ensures forall q :: q in added ==> compressed[q] == added[q]
    ensures forall q :: q in table0 && q !in Resolved(env, entries) ==> compressed[q] == table0[q]
    ensures Unaliased(table0) ==> Unaliased(compressed)
  {
    assert entries[..|entries|] == entries;
    UnaliasedUnion(table0, added);
  }

  lemma UnionUpdate<K, V>(m: map<K, V>, a: map<K, V>, k: K, v: V)
    ensures m + a[k := v] == (m + a)[k := v]
  {
  }

  /** Adding records that are distinct from each other and from every record
      already in the table keeps the table free of shared records. */
  lemma UnaliasedUnion(m: map<Path, array<Slot>>, added: map<Path, array<Slot>>)
    requires Unaliased(added)
    requires forall q, p :: q in added && p in m ==> added[q] != m[p]
    ensures Unaliased(m) ==> Unaliased(m + added)
  {
  }

  /** `Track` with a record per tracked file: the same table keys, order and
      spellings as `Track`, every tracked file holding its own new record,
      so a table without shared records keeps none. */
  method TrackFresh(ctx: Context, env: Env, json: Json) returns (r: Option<string>)
    requires ctx.Valid()
    modifies ctx`order, ctx`compressed, ctx`originalPaths
    ensures ctx.Valid() && r == None
    ensures TrackedEntries(env, json).None? ==>
      ctx.order == old(ctx.order) && ctx.compressed == old(ctx.compressed) && ctx.originalPaths == old(ctx.originalPaths)
    ensures TrackedEntries(env, json).Some? ==>
      var paths := Resolved(env, TrackedEntries(env, json).value);
      && (forall q :: q in ctx.compressed <==> q in old(ctx.compressed) || q in paths)
      && (forall q :: q in paths ==> fresh(ctx.compressed[q]) && ctx.compressed[q][..] == TrackedRecord(json))
      && (forall q :: q in old(ctx.compressed) && q !in paths ==> ctx.compressed[q] == old(ctx.compressed[q]))
      && ctx.order == SetKeys(old(ctx.order), paths)
      && ctx.originalPaths == NameAll(old(ctx.originalPaths), env, TrackedEntries(env, json).value)
    ensures Unaliased(old(ctx.compressed)) ==> Unaliased(ctx.compressed)
  {
    var track := Lookup(json, "track");
    if !(track.Some? && track.value.JArr?) {
      return None;
    }
    var entries := env.glob(track.value.items);
    SetTrackedFresh(ctx, env, entries, json);
    return None;
  }

  /** Two files matched by one `track` glob share their record: measuring the
      brotli size of "a.js" changes the brotli slot of "b.js" as well. */
  method SharedRecordExample() returns (sizeOfB: Size)
    ensures sizeOfB == Calculated(10)
  {
    var ctx := new Context("/p", "/p/package.json", false, map[]);
    var env := Env(_ => None, _ => None, (a, b) => b, p => p, _ => true, _ => None,
                   _ => ["a.js", "b.js"], (_, _) => None);
    var json := JObj([("track", JArr([JStr("*.js")]))]);
    assert Lookup(json, "track") == Some(JArr([JStr("*.js")]));
    var _ := Track(ctx, env, json);
    assert TrackedEntries(env, json) == Some(["a.js", "b.js"]);
    assert Resolved(env, ["a.js", "b.js"]) == ["a.js", "b.js"];
    SetAllSpec(map[], ["a.js", "b.js"], ctx.compressed["a.js"]);
    assert ctx.compressed["b.js"] == ctx.compressed["a.js"];
    var found := ctx.SetSize("a.js", 0, 10);
    sizeOfB := ctx.compressed["b.js"][0].size;
  }
}
