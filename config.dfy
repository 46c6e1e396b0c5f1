// The configuration chain (src/validation/Config.ts): read package.json,
// find its 'filesize' object, validate every file item in it, then track the
// glob-matched files. The first condition that reports an error ends the
// chain with that error.

module Config {
  import opened Wrappers
  import opened Text
  import opened Json
  import opened Condition
  import opened Host
  import Track
  import Log

  /** What the item validator `ValidateFileConfig(path, index, item)` called
      by `parseFiles` hands back. */
  datatype ItemOutcome = ItemOutcome(success: bool, error: Option<string>, config: seq<ItemConfig>)

  /** That validator, taken as given: it is called with the item's key, its
      1-based position among all keys, and the item. */
  type Validator = (string, nat, Json) -> ItemOutcome

  /** The fields of a `ConfigContext` other than the package location:
      `null` is `None` for `error` and `content`, and `JNull` for the
      untyped `json` and `keys`. */
  datatype Stage = Stage(error: Option<string>, content: Option<string>, json: Json, keys: Json)

  /** The context `Config` starts the chain with. */
  const Initial: Stage := Stage(None, None, JNull, JNull)

  function ReadError(package: string): string
  {
    "Could not read the configuration in '" + package + "'"
  }

  function ParseError(package: string): string
  {
    "Could not parse '" + package + "'"
  }

  function NoFilesize(package: string): string
  {
    "There is no 'filesize' configuration in '" + package + "'"
  }

  function NoData(package: string): string
  {
    "There is no data inside the 'filesize' configuration in '" + package + "'"
  }

  /** The members of an object other than those named `name`, in order. */
  function Without(members: seq<(string, Json)>, name: string): (r: seq<(string, Json)>)
    ensures forall k :: 0 <= k < |r| ==> r[k].0 != name
    ensures forall m :: m in r <==> m in members && m.0 != name
    decreases |members|
  {
    if members == [] then []
    else
      var rest := Without(members[1..], name);
      assert forall m :: m in members <==> m == members[0] || m in members[1..];
      if members[0].0 == name then rest else [members[0]] + rest
  }

  /** The index-keyed properties of an array: ("0", items[0]), ("1", items[1]), … */
  function Indexed(items: seq<Json>): (r: seq<(string, Json)>)
    ensures |r| == |items|
    ensures forall k :: 0 <= k < |r| ==> r[k] == (NatToString(k), items[k])
    decreases |items|
  {
    if items == [] then []
    else Indexed(items[..|items| - 1]) + [(NatToString(|items| - 1), items[|items| - 1])]
  }

  /** The characters of a string as one-character strings. */
  function Characters(s: string): (r: seq<Json>)
    ensures |r| == |s|
    ensures forall k :: 0 <= k < |r| ==> r[k] == JStr([s[k]])
    decreases |s|
  {
    if s == [] then [] else Characters(s[..|s| - 1]) + [JStr([s[|s| - 1]])]
  }

  /** `keys` of `const { track, ...keys } = json`: the own enumerable
      properties of `json` except `track`. An object keeps its other
      members, an array or a string is spread into index-keyed properties,
      and a number or a boolean has none. */
  function RestKeys(json: Json): (keys: seq<(string, Json)>)
    ensures forall k :: 0 <= k < |keys| ==> keys[k].0 != "track"
  {
    match json
    case JObj(members) => Without(members, "track")
    case JArr(items) =>
      var r := Indexed(items);
      assert forall k :: 0 <= k < |r| ==> r[k].0[0] != 't';
      r
    case JStr(s) =>
      var r := Indexed(Characters(s));
      assert forall k :: 0 <= k < |r| ==> r[k].0[0] != 't';
      r
    case _ => []
  }

  /** What `parsePackage` makes of the package content. */
  datatype Parse = Parsed(json: Json, keys: seq<(string, Json)>) | Failed(message: string)

  /** `parsePackage`'s outcome: content that is missing (`JSON.parse(null)`
      gives `null`), is not JSON, is `null`, or has a `null` 'filesize' makes
      the destructuring throw, so "Could not parse"; a value without a
      'filesize' property gives "There is no 'filesize'"; a 'filesize' with
      nothing but `track` gives "There is no data". The rest of 'filesize'
      is always a fresh object, so the "not an object" branch of the source
      (src/validation/Config.ts:62-67) is never taken. */
  function ParsePackageResult(env: Env, package: string, content: Option<string>): (r: Parse)
    ensures r.Parsed? ==> r.keys != [] && forall k :: 0 <= k < |r.keys| ==> r.keys[k].0 != "track"
  {
    if content.None? then Failed(ParseError(package))
    else
      var parsed := env.parseJson(content.value);
      if parsed.None? || parsed.value.JNull? then Failed(ParseError(package))
      else
        match Lookup(parsed.value, "filesize")
        case None => Failed(NoFilesize(package))
        case Some(json) =>
          if json.JNull? then Failed(ParseError(package))
          else
            var keys := RestKeys(json);
            if keys == [] then Failed(NoData(package)) else Parsed(json, keys)
  }

  /** `readPackage`: the content is stored; only a missing one sets the error. */
  function ReadStep(env: Env, package: string, s: Stage): Stage
  {
    var content := env.readFile(package);
    s.(content := content, error := if content.None? then Some(ReadError(package)) else s.error)
  }

  /** `parsePackage`: an error, or the 'filesize' value and its keys. */
  function ParseStep(env: Env, package: string, s: Stage): (t: Stage)
    ensures t.error.None? ==>
      t.keys.JObj? && |t.keys.members| > 0 && forall k :: 0 <= k < |t.keys.members| ==> t.keys.members[k].0 != "track"
  {
    match ParsePackageResult(env, package, s.content)
    case Failed(message) => s.(error := Some(message))
    case Parsed(json, keys) => s.(json := json, keys := JObj(keys))
  }

  /** Whether the `k`th key stops `parseFiles`: its item is an object that
      the validator rejects. */
  predicate Fails(validate: Validator, keys: seq<(string, Json)>, k: nat)
    requires k < |keys|
  {
    IsObject(keys[k].1) && !validate(keys[k].0, k + 1, keys[k].1).success
  }

  /** The first key at or after `k` that stops `parseFiles`. */
  function FirstFailureFrom(validate: Validator, keys: seq<(string, Json)>, k: nat): (r: Option<nat>)
    requires k <= |keys|
    ensures r.Some? ==> k <= r.value < |keys| && Fails(validate, keys, r.value)
    ensures forall i :: k <= i < |keys| && (r.None? || i < r.value) ==> !Fails(validate, keys, i)
    decreases |keys| - k
  {
    if k == |keys| then None
    else if Fails(validate, keys, k) then Some(k)
    else FirstFailureFrom(validate, keys, k + 1)
  }

  function FirstFailure(validate: Validator, keys: seq<(string, Json)>): Option<nat>
  {
    FirstFailureFrom(validate, keys, 0)
  }

  /** The items the validator returns for the `k`th key, if it is an object. */
  function ItemsOf(validate: Validator, keys: seq<(string, Json)>, k: nat): seq<ItemConfig>
    requires k < |keys|
  {
    if IsObject(keys[k].1) then validate(keys[k].0, k + 1, keys[k].1).config else []
  }

  /** The items of the first `n` keys, in order. */
  function Accepted(validate: Validator, keys: seq<(string, Json)>, n: nat): seq<ItemConfig>
    requires n <= |keys|
  {
    if n == 0 then [] else Accepted(validate, keys, n - 1) + ItemsOf(validate, keys, n - 1)
  }

  /** `parseFiles`: the error of the first rejected item and the items of
      the keys before it, or every key's items. */
  function FilesStep(validate: Validator, s: Stage): (Stage, seq<ItemConfig>)
    requires s.keys.JObj?
  {
    var keys := s.keys.members;
    match FirstFailure(validate, keys)
    case Some(j) => (s.(error := validate(keys[j].0, j + 1, keys[j].1).error), Accepted(validate, keys, j))
    case None => (s, Accepted(validate, keys, |keys|))
  }

  /** Condition `i` of `CONDITIONS`, with the items it appends to the run's
      item list. */
  function Step(env: Env, validate: Validator, package: string, i: nat, s: Stage): (Stage, seq<ItemConfig>)
    requires i < 3 && (i == 2 ==> s.keys.JObj?)
  {
    if i == 0 then (ReadStep(env, package, s), [])
    else if i == 1 then (ParseStep(env, package, s), [])
    else FilesStep(validate, s)
  }

  /** The chain from condition `i` on, stopping after the first condition
      that leaves an error. */
  function RunFrom(env: Env, validate: Validator, package: string, i: nat, s: Stage, appended: seq<ItemConfig>)
    : (Stage, seq<ItemConfig>)
    requires i <= 3 && s.error.None?
    requires i == 2 ==> s.keys.JObj?
    decreases 3 - i
  {
    if i == 3 then (s, appended)
    else
      var (t, items) := Step(env, validate, package, i, s);
      if t.error.Some? then (t, appended + items)
      else RunFrom(env, validate, package, i + 1, t, appended + items)
  }

  /** One condition of the chain. */
  lemma RunFromStep(env: Env, validate: Validator, package: string, i: nat, s: Stage, appended: seq<ItemConfig>,
                    t: Stage, items: seq<ItemConfig>)
    requires i < 3 && s.error.None?
    requires i == 2 ==> s.keys.JObj?
    requires (t, items) == Step(env, validate, package, i, s)
    ensures t.error.Some? ==> RunFrom(env, validate, package, i, s, appended) == (t, appended + items)
    ensures t.error.None? && i == 1 ==>
      t.keys.JObj? && forall k :: 0 <= k < |t.keys.members| ==> t.keys.members[k].0 != "track"
    ensures t.error.None? && i >= 2 ==> t.keys == s.keys
    ensures t.error.None? ==> RunFrom(env, validate, package, i, s, appended) == RunFrom(env, validate, package, i + 1, t, appended + items)
  {
  }

  /** The whole chain: the final context and the items appended. */
  function Chain(env: Env, validate: Validator, package: string): (Stage, seq<ItemConfig>)
  {
    RunFrom(env, validate, package, 0, Initial, [])
  }

  /** What `Config` returns. */
  function ChainResult(env: Env, validate: Validator, package: string): Option<string>
  {
    var s := Chain(env, validate, package).0;
    if s.error.Some? then Some(Log.MakeError(s.error.value)) else None
  }

  /** The chain in closed form: an unreadable package, then a parse
      failure, then the first rejected item decide the message; an item
      rejected without a message lets the chain finish with no error. The
      items appended are those of the keys before the rejected one, or all
      of them, and none when reading or parsing fails. */
  lemma ChainCases(env: Env, validate: Validator, package: string)
    ensures var (s, appended) := Chain(env, validate, package);
      var content := env.readFile(package);
      && (content.None? ==> s.error == Some(ReadError(package)) && appended == [])
      && (content.Some? && ParsePackageResult(env, package, content).Failed? ==>
            s.error == Some(ParsePackageResult(env, package, content).message) && appended == [])
      && (content.Some? && ParsePackageResult(env, package, content).Parsed? ==>
            var parsed := ParsePackageResult(env, package, content);
            var keys := parsed.keys;
            && s.json == parsed.json && s.keys == JObj(keys)
            && match FirstFailure(validate, keys)
               case Some(j) => s.error == validate(keys[j].0, j + 1, keys[j].1).error && appended == Accepted(validate, keys, j)
               case None => s.error == None && appended == Accepted(validate, keys, |keys|))
  {
    var s1 := ReadStep(env, package, Initial);
    if s1.error.None? {
      var s2 := ParseStep(env, package, s1);
      if s2.error.None? {
        assert RunFrom(env, validate, package, 0, Initial, []) == RunFrom(env, validate, package, 2, s2, []);
      }
    }
  }

  /** Conditions run in order: each one runs only if every earlier one left
      no error, so a read failure is reported even when the validator would
      reject every item, and `Config` returns `null` exactly when no
      condition leaves an error. */
  lemma FirstErrorWins(env: Env, validate: Validator, package: string)
    ensures env.readFile(package).None? ==> ChainResult(env, validate, package) == Some(Log.MakeError(ReadError(package)))
    ensures ChainResult(env, validate, package).None? <==>
      && env.readFile(package).Some?
      && ParsePackageResult(env, package, env.readFile(package)).Parsed?
      && var keys := ParsePackageResult(env, package, env.readFile(package)).keys;
         (FirstFailure(validate, keys).None? ||
          validate(keys[FirstFailure(validate, keys).value].0, FirstFailure(validate, keys).value + 1,
                   keys[FirstFailure(validate, keys).value].1).error.None?)
  {
    ChainCases(env, validate, package);
  }

  /** The parse messages: text that is not JSON cannot be parsed, a value
      without 'filesize' has no configuration, and a 'filesize' object whose
      only member is `track` holds no data. */
  lemma ParseMessages(env: Env, package: string, content: string, globs: seq<Json>)
    ensures env.parseJson(content).None? ==> ParsePackageResult(env, package, Some(content)) == Failed(ParseError(package))
    ensures env.parseJson(content) == Some(JObj([])) ==> ParsePackageResult(env, package, Some(content)) == Failed(NoFilesize(package))
    ensures env.parseJson(content) == Some(JObj([("filesize", JObj([("track", JArr(globs))]))])) ==>
      ParsePackageResult(env, package, Some(content)) == Failed(NoData(package))
  {
    assert Without([("track", JArr(globs))], "track") == [];
  }

  /** The keys `Config` hands to `Track` never have a `track` member, so
      `Track` never finds globs there, whatever the 'filesize' object says. */
  lemma KeysHaveNoTrack(env: Env, json: Json, globs: seq<Json>)
    requires Lookup(json, "track") == Some(JArr(globs))
    ensures Track.TrackedEntries(env, json) == Some(env.glob(globs))
    ensures Track.TrackedEntries(env, JObj(RestKeys(json))) == None
  {
  }

  /** The state of a `ConfigContext`. */
  class ConfigContext {
    var error: Option<string>
    const package: string
    var content: Option<string>
    var json: Json
    var keys: Json

    function Fields(): Stage
      reads this
    {
      Stage(error, content, json, keys)
    }

    constructor (package: string)
      ensures this.package == package && Fields() == Initial
    {
      error := None;
      this.package := package;
      content := None;
      json := JNull;
      keys := JNull;
    }
  }

  /** `readPackage`. */
  method ReadPackage(context: ConfigContext, env: Env)
    modifies context
    ensures context.Fields() == ReadStep(env, context.package, old(context.Fields()))
  {
    context.content := env.readFile(context.package);
    if context.content.None? {
      context.error := Some(ReadError(context.package));
    }
  }

  /** `parsePackage`. */
  method ParsePackage(context: ConfigContext, env: Env)
    modifies context
    ensures context.Fields() == ParseStep(env, context.package, old(context.Fields()))
  {
    match ParsePackageResult(env, context.package, context.content)
    case Failed(message) =>
      context.error := Some(message);
    case Parsed(json, keys) =>
      context.json := json;
      context.keys := JObj(keys);
  }

  /** `parseFiles`: keys in order with a 1-based index counted over all of
      them; items that are not objects are skipped; the first rejected item
      sets the error and ends the walk; accepted items are appended to the
      run's item list. */
  method ParseFiles(context: ConfigContext, overallContext: Context, validate: Validator)
    requires context.keys.JObj?
    modifies context`error, overallContext`config
    ensures context.Fields() == FilesStep(validate, old(context.Fields())).0
    ensures overallContext.config == old(overallContext.config) + FilesStep(validate, old(context.Fields())).1
  {
    var keys := context.keys.members;
    var index := 0;
    for k := 0 to |keys|
      invariant index == k
      invariant FirstFailure(validate, keys) == FirstFailureFrom(validate, keys, k)
      invariant overallContext.config == old(overallContext.config) + Accepted(validate, keys, k)
      invariant context.Fields() == old(context.Fields())
    {
      var (path, item) := keys[k];
      index := index + 1;
      if !IsObject(item) {
        continue;
      }
      var outcome := validate(path, index, item);
      if !outcome.success {
        context.error := outcome.error;
        return;
      }
      overallContext.config := overallContext.config + outcome.config;
    }
  }

  /** Runs condition `i` of `CONDITIONS`; `items` are what it appends to
      the run's item list. */
  method RunCondition(context: ConfigContext, overallContext: Context, env: Env, validate: Validator, i: nat)
    returns (ghost items: seq<ItemConfig>)
    requires i < 3 && (i == 2 ==> context.keys.JObj?)
    modifies context, overallContext`config
    ensures (context.Fields(), items) == Step(env, validate, context.package, i, old(context.Fields()))
    ensures overallContext.config == old(overallContext.config) + items
  {
    if i == 0 {
      ReadPackage(context, env);
      items := [];
    } else if i == 1 {
      ParsePackage(context, env);
      items := [];
    } else {
      items := FilesStep(validate, context.Fields()).1;
      ParseFiles(context, overallContext, validate);
    }
  }

  /** The state of `Config`'s loop before condition `i`: no error yet,
      the keys of a parsed 'filesize' once past `parsePackage`, the rest of
      the chain still to come, and the items appended so far. */
  ghost predicate ChainAt(env: Env, validate: Validator, package: string, i: nat, s: Stage,
                          config: seq<ItemConfig>, config0: seq<ItemConfig>, appended: seq<ItemConfig>)
  {
    && i <= 3 && s.error.None?
    && (i >= 2 ==> s.keys.JObj? && forall k :: 0 <= k < |s.keys.members| ==> s.keys.members[k].0 != "track")
    && Chain(env, validate, package) == RunFrom(env, validate, package, i, s, appended)
    && config == config0 + appended
  }

  /** Running condition `i` from that state either ends the chain or
      reaches the state before condition `i + 1`. */
  lemma ChainAtNext(env: Env, validate: Validator, package: string, i: nat, s: Stage, config: seq<ItemConfig>,
                    config0: seq<ItemConfig>, appended: seq<ItemConfig>, t: Stage, items: seq<ItemConfig>,
                    config': seq<ItemConfig>)
    requires i < 3 && ChainAt(env, validate, package, i, s, config, config0, appended)
    requires (t, items) == Step(env, validate, package, i, s) && config' == config + items
    ensures config' == config0 + (appended + items)
    ensures t.error.Some? ==> (t, appended + items) == Chain(env, validate, package)
    ensures t.error.None? ==> ChainAt(env, validate, package, i + 1, t, config', config0, appended + items)
  {
    RunFromStep(env, validate, package, i, s, appended, t, items);
    AppendAssoc(config0, appended, items);
  }

  /** One pass of `Config`'s loop: condition `i` runs, and either ends
      the chain or leaves the state before condition `i + 1`. */
  method ChainStep(context: ConfigContext, overallContext: Context, env: Env, validate: Validator, i: nat,
                   ghost config0: seq<ItemConfig>, ghost appended: seq<ItemConfig>)
    returns (ghost appended': seq<ItemConfig>)
    requires i < 3
    requires ChainAt(env, validate, context.package, i, context.Fields(), overallContext.config, config0, appended)
    modifies context, overallContext`config
    ensures overallContext.config == config0 + appended'
    ensures context.error.Some? ==> (context.Fields(), appended') == Chain(env, validate, context.package)
    ensures context.error.None? ==>
      ChainAt(env, validate, context.package, i + 1, context.Fields(), overallContext.config, config0, appended')
  {
    ghost var before, config := context.Fields(), overallContext.config;
    ghost var items := RunCondition(context, overallContext, env, validate, i);
    ChainAtNext(env, validate, context.package, i, before, config, config0, appended, context.Fields(), items,
                overallContext.config);
    appended' := appended + items;
  }

  /** The loop of `Config` over the three conditions, returning at the
      first one that leaves an error; `appended` are the items appended to
      the run's item list. */
  method RunChain(context: ConfigContext, overallContext: Context, env: Env, validate: Validator)
    returns (ghost appended: seq<ItemConfig>)
    requires context.Fields() == Initial
    modifies context, overallContext`config
    ensures (context.Fields(), appended) == Chain(env, validate, context.package)
    ensures overallContext.config == old(overallContext.config) + appended
    ensures context.error.None? ==>
      context.keys.JObj? && forall k :: 0 <= k < |context.keys.members| ==> context.keys.members[k].0 != "track"
  {
    appended := [];
    ghost var config0 := overallContext.config;
    var i := 0;
    while i < 3
      invariant ChainAt(env, validate, context.package, i, context.Fields(), overallContext.config, config0, appended)
    {
      appended := ChainStep(context, overallContext, env, validate, i, config0, appended);
      if context.error.Some? {
        return;
      }
      i := i + 1;
    }
  }

  /** `Config` as written: the conditions in order, the first error
      returned through `MakeError`, and on success `Track` given the keys of
      'filesize' without `track`, so the size table never changes. */
  method Config(context: Context, env: Env, validate: Validator, package: string) returns (r: Option<string>)
    requires context.Valid()
    modifies context`config, context`order, context`compressed, context`originalPaths
    ensures context.Valid()
    ensures r == ChainResult(env, validate, package)
    ensures context.config == old(context.config) + Chain(env, validate, package).1
    ensures context.compressed == old(context.compressed) && context.order == old(context.order)
    ensures context.originalPaths == old(context.originalPaths)
  {
    var configContext := new ConfigContext(package);
    ghost var appended := RunChain(configContext, context, env, validate);
    if configContext.error.Some? {
      return Some(Log.MakeError(configContext.error.value));
    }
    r := Track.Track(context, env, configContext.keys);
  }

  /** `Config` with `Track` given the 'filesize' object itself, as the
      comment above the call intends: every file its `track` globs match
      gets a record of its own. */
  method ConfigTracked(context: Context, env: Env, validate: Validator, package: string) returns (r: Option<string>)
    requires context.Valid()
    modifies context`config, context`order, context`compressed, context`originalPaths
    ensures context.Valid()
    ensures r == ChainResult(env, validate, package)
    ensures context.config == old(context.config) + Chain(env, validate, package).1
    ensures var s := Chain(env, validate, package).0;
      s.error.Some? || Track.TrackedEntries(env, s.json).None? ==>
        context.compressed == old(context.compressed) && context.order == old(context.order)
    ensures var s := Chain(env, validate, package).0;
      s.error.None? && Track.TrackedEntries(env, s.json).Some? ==>
        var paths := Track.Resolved(env, Track.TrackedEntries(env, s.json).value);
        && (forall q :: q in paths ==>
              q in context.compressed && fresh(context.compressed[q]) && context.compressed[q][..] == Track.TrackedRecord(s.json))
        && (forall q :: q in old(context.compressed) && q !in paths ==>
              q in context.compressed && context.compressed[q] == old(context.compressed[q]))
    ensures Unaliased(old(context.compressed)) ==> Unaliased(context.compressed)
  {
    var configContext := new ConfigContext(package);
    ghost var appended := RunChain(configContext, context, env, validate);
    if configContext.error.Some? {
      return Some(Log.MakeError(configContext.error.value));
    }
    r := Track.TrackFresh(context, env, configContext.json);
  }
}
