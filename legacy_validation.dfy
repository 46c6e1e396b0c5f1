// The flat-list generation of the configuration checks (validation/*.ts at
// the root of the repository): the configured items become a list of
// `ItemConfig` rather than a size table.

module LegacyCondition {
  import opened Wrappers
  import opened Condition
  import Log

  /** `ValidationResponse`: whether a check passed, and its message. */
  type ValidationResponse = (bool, Option<string>)

  /** A value of `CompressionMap`: a size and a budget, `null` until known. */
  type CompressionMapValue = (Option<nat>, Option<nat>)

  /** `OrderedCompressionMap`: one `[null, null]` entry per encoding, in
      column order. */
  function OrderedCompressionMap(): (m: seq<(Compression, CompressionMapValue)>)
    ensures |m| == |OrderedCompressionValues|
    ensures forall i :: 0 <= i < |m| ==> m[i].0 == OrderedCompressionValues[i] && m[i].1 == (None, None)
  {
    seq(|OrderedCompressionValues|, i requires 0 <= i < |OrderedCompressionValues| => (OrderedCompressionValues[i], (None, None)))
  }

  /** Every encoding has exactly one entry in the map. */
  lemma OrderedCompressionMapKeys(c: Compression)
    ensures exists i :: 0 <= i < |OrderedCompressionMap()| && OrderedCompressionMap()[i].0 == c
    ensures forall i, j :: 0 <= i < j < |OrderedCompressionMap()| ==> OrderedCompressionMap()[i].0 != OrderedCompressionMap()[j].0
  {
    EncodingTables(c);
    assert OrderedCompressionMap()[SizeMapValueIndex(c)].0 == c;
  }

  /** `CompressionDisplayLength`: the length of the first name once the
      names are sorted longest first, that is the longest name. */
  function CompressionDisplayLength(): nat
  {
    Log.MaxLength(OrderedCompressionNames)
  }

  /** 'brotli' is the longest name, six characters; it is the width `maxFormatDisplay`
      of src/log.ts pads by two. */
  lemma CompressionDisplayLengthIsBrotli()
    ensures CompressionDisplayLength() == |Name(Brotli)| == 6
    ensures CompressionDisplayLength() + 2 == Log.MaxFormatDisplay()
  {
    Log.FormatColumnWidth();
  }
}

module LegacyFile {
  import opened Wrappers
  import opened Text
  import opened Json
  import opened Condition
  import opened Host
  import File
  import Log

  /** The names of the mandatory keys of an item, in checking order. */
  const ReadableKeyNames: seq<string> := ["path", "compression", "maxSize"]

  /** What `compressionValue` returns: an encoding, and an error for an
      unknown name. */
  datatype CompressionValue = CompressionValue(compression: Compression, error: Option<string>)

  /** `compressionValue`: brotli and gzip in any letter case, `''` and
      'none' as none; anything else none with an error naming the value. */
  function CompressionValueOf(fsValue: string): CompressionValue
  {
    match LowerAscii(fsValue)
    case "brotli" => CompressionValue(Brotli, None)
    case "gzip" => CompressionValue(Gzip, None)
    case "" => CompressionValue(Identity, None)
    case "none" => CompressionValue(Identity, None)
    case _ => CompressionValue(Identity, Some("Invalid compression value '" + fsValue + "'"))
  }

  /** The names `compressionValue` accepts are those `validateCompressionName`
      of the size-table generation accepts, with the same encoding; every
      other name is none with an error. */
  lemma CompressionValueAgrees(fsValue: string)
    ensures CompressionValueOf(fsValue).error.None? <==> File.ValidateCompressionName(fsValue).Some?
    ensures CompressionValueOf(fsValue).error.None? ==>
      CompressionValueOf(fsValue).compression == File.ValidateCompressionName(fsValue).value
    ensures CompressionValueOf(fsValue).error.Some? ==>
      CompressionValueOf(fsValue) == CompressionValue(Identity, Some("Invalid compression value '" + fsValue + "'"))
  {
  }

  /** Every encoding name is accepted in any letter case. */
  lemma CompressionValueCaseInsensitive(c: Compression)
    ensures CompressionValueOf(Name(c)) == CompressionValue(c, None)
    ensures CompressionValueOf(UpperAscii(Name(c))) == CompressionValue(c, None)
  {
    File.CompressionNameCaseInsensitive(c);
    CompressionValueAgrees(Name(c));
    CompressionValueAgrees(UpperAscii(Name(c)));
  }

  /** The value of a key when it is a string. */
  predicate HasString(file: Json, key: string)
  {
    var v := Lookup(file, key);
    v.Some? && v.value.JStr?
  }

  /** What `FileConfigContainsKeys` returns. */
  datatype KeysCheck = KeysCheck(success: bool, invalid: Option<nat>)

  /** `findIndex` over the mandatory keys from the `k`-th on: the first
      whose value is not a string. */
  function FirstMissing(file: Json, k: nat): (r: Option<nat>)
    requires k <= |ReadableKeyNames|
    ensures r.None? <==> forall j :: k <= j < |ReadableKeyNames| ==> HasString(file, ReadableKeyNames[j])
    ensures r.Some? ==>
      && k <= r.value < |ReadableKeyNames|
      && !HasString(file, ReadableKeyNames[r.value])
      && forall j :: k <= j < r.value ==> HasString(file, ReadableKeyNames[j])
    decreases |ReadableKeyNames| - k
  {
    if k == |ReadableKeyNames| then None
    else if !HasString(file, ReadableKeyNames[k]) then Some(k)
    else FirstMissing(file, k + 1)
  }

  /** `FileConfigContainsKeys`: success, or the index of the first mandatory
      key whose value is not a string. Reading a key of `null` throws:
      `None`. */
  function FileConfigContainsKeys(file: Json): (r: Option<KeysCheck>)
    ensures r.None? <==> file.JNull?
    ensures r.Some? ==> (r.value.success <==> r.value.invalid.None?)
  {
    if file.JNull? then None
    else
      var missingKeyIndex := FirstMissing(file, 0);
      Some(KeysCheck(missingKeyIndex.None?, missingKeyIndex))
  }

  /** An item passes the key check iff its three keys hold strings; otherwise
      the check names the first key in the order path, compression, maxSize
      that does not. */
  lemma ContainsKeysSpec(file: Json)
    requires !file.JNull?
    ensures var r := FileConfigContainsKeys(file).value;
      && (r.success <==> HasString(file, "path") && HasString(file, "compression") && HasString(file, "maxSize"))
      && (r.invalid == Some(0) <==> !HasString(file, "path"))
      && (r.invalid == Some(1) <==> HasString(file, "path") && !HasString(file, "compression"))
      && (r.invalid == Some(2) <==> HasString(file, "path") && HasString(file, "compression") && !HasString(file, "maxSize"))
  {
    assert ReadableKeyNames[0] == "path" && ReadableKeyNames[1] == "compression" && ReadableKeyNames[2] == "maxSize";
  }

  /** An item whose three keys are strings. */
  datatype FileConfig = FileConfig(path: string, compression: string, maxSize: string)

  function StringsOf(file: Json): FileConfig
    requires forall k :: 0 <= k < |ReadableKeyNames| ==> HasString(file, ReadableKeyNames[k])
  {
    assert HasString(file, ReadableKeyNames[0]) && HasString(file, ReadableKeyNames[1]) && HasString(file, ReadableKeyNames[2]);
    FileConfig(Lookup(file, "path").value.s, Lookup(file, "compression").value.s, Lookup(file, "maxSize").value.s)
  }

  /** What `ValidateFileConfig` returns. */
  datatype FileResult = FileResult(success: bool, config: Option<ItemConfig>, error: Option<string>)

  /** How an item is named in an error: its quoted path, or `#index` when the
      path is empty. */
  function ItemName(path: string, index: nat): string
  {
    if path != "" then "'" + path + "'" else "#" + NatToString(index)
  }

  /** The parsed budget, when it is positive. */
  function PositiveBudget(env: Env, maxSize: string): Option<nat>
  {
    var b := env.bytes(JStr(maxSize));
    if b.Some? && b.value > 0 then Some(b.value) else None
  }

  /** `ValidateFileConfig`: the checks in order (is a file, known encoding,
      positive budget), only the first failure reported. */
  function ValidateFileConfig(env: Env, fileConfig: FileConfig, index: nat): FileResult
  {
    var path := env.resolveCwd(fileConfig.path);
    var cv := CompressionValueOf(fileConfig.compression);
    var maxSize := PositiveBudget(env, fileConfig.maxSize);
    var reason :=
      if !env.isFile(path) then Some("(path is not a valid file)")
      else if cv.error.Some? then Some("(" + cv.error.value + ")")
      else if maxSize.None? then Some("(maxSize is not valid)")
      else None;
    match reason
    case Some(r) =>
      FileResult(false, None, Some(Log.MakeError(ItemName(fileConfig.path, index) + " configuration is invalid. " + r)))
    case None =>
      FileResult(true, Some(ItemConfig(fileConfig.path, path, cv.compression, maxSize.value)), None)
  }

  /** An item passes iff all three checks pass, and then it carries the
      spelling, the resolved path, the encoding and the budget. When a check
      fails, the reason is that of the first failing one. */
  lemma ValidateFileConfigSpec(env: Env, fileConfig: FileConfig, index: nat)
    ensures var r := ValidateFileConfig(env, fileConfig, index);
      var path := env.resolveCwd(fileConfig.path);
      var cv := CompressionValueOf(fileConfig.compression);
      var prefix := ItemName(fileConfig.path, index) + " configuration is invalid. ";
      && (r.success <==> env.isFile(path) && cv.error.None? && PositiveBudget(env, fileConfig.maxSize).Some?)
      && (r.success <==> r.config.Some?) && (r.success <==> r.error.None?)
      && (r.success ==>
            r.config.value == ItemConfig(fileConfig.path, path, cv.compression, PositiveBudget(env, fileConfig.maxSize).value))
      && (!env.isFile(path) ==> r.error == Some(Log.MakeError(prefix + "(path is not a valid file)")))
      && (env.isFile(path) && cv.error.Some? ==> r.error == Some(Log.MakeError(prefix + ("(" + cv.error.value + ")"))))
      && (env.isFile(path) && cv.error.None? && PositiveBudget(env, fileConfig.maxSize).None? ==>
            r.error == Some(Log.MakeError(prefix + "(maxSize is not valid)")))
  {
  }
}

module LegacyConfig {
  import opened Wrappers
  import opened Text
  import opened Json
  import opened Condition
  import opened Host
  import opened LegacyCondition
  import opened LegacyFile
  import Log

  /** JavaScript truthiness of a JSON value. */
  predicate Truthy(j: Json)
  {
    match j
    case JNull => false
    case JBool(b) => b
    case JNum(n) => n != 0
    case JStr(s) => s != ""
    case _ => true
  }

  /** How an item without its keys is named: `file.path` quoted when it is
      truthy, otherwise `#index`. */
  function MissingKeyName(file: Json, index: nat): string
  {
    var p := Lookup(file, "path");
    if p.Some? && Truthy(p.value) then "'" + ToJsString(p.value) + "'" else "#" + NatToString(index)
  }

  function ParseError(package: string): string
  {
    Log.MakeError("Could not parse '" + package + "'")
  }

  /** What the loop does with one item: append its validated config, or
      stop with a message. */
  datatype Verdict = Append(config: ItemConfig) | Stop(message: string)

  /** The verdict on the item at 1-based `index`: reading keys of `null`
      throws and is reported as a parse error; a missing key names the first
      one missing; otherwise `ValidateFileConfig` decides. */
  function Judge(env: Env, package: string, file: Json, index: nat): Verdict
  {
    match FileConfigContainsKeys(file)
    case None => Stop(ParseError(package))
    case Some(keys) =>
      if keys.success then
        var validated := ValidateFileConfig(env, StringsOf(file), index);
        if validated.success then Append(validated.config.value) else Stop(validated.error.value)
      else
        Stop(Log.MakeError("Configuration for " + MissingKeyName(file, index) + " is invalid. (key: "
                           + ReadableKeyNames[keys.invalid.value] + ")"))
  }

  /** The verdicts of one configuration. */
  function Judged(env: Env, package: string): (Json, nat) -> Verdict
  {
    (file: Json, index: nat) => Judge(env, package, file, index)
  }

  /** The items from the `k`-th on: the response, and the items appended to
      `context.config` before it. `k` items precede, so the next index is
      `k + 1`. */
  function ItemsFrom(judge: (Json, nat) -> Verdict, items: seq<Json>, k: nat): (ValidationResponse, seq<ItemConfig>)
    decreases |items| - k
  {
    if k >= |items| then ((true, None), [])
    else
      match judge(items[k], k + 1)
      case Stop(message) => ((false, Some(message)), [])
      case Append(config) =>
        var rest := ItemsFrom(judge, items, k + 1);
        (rest.0, [config] + rest.1)
  }

  /** `Config`: the response and the items it appends. */
  function ConfigResult(env: Env, package: string): (ValidationResponse, seq<ItemConfig>)
  {
    match env.readFile(package)
    case None => ((false, Some(Log.MakeError("Could not read the configuration in '" + package + "'"))), [])
    case Some(contents) =>
      match env.parseJson(contents)
      case None => ((false, Some(ParseError(package))), [])
      case Some(json) =>
        if json.JNull? then ((false, Some(ParseError(package))), [])
        else
          match Lookup(json, "filesize")
          case None => ((false, Some(Log.MakeError("There is no 'filesize' configuration in '" + package + "'"))), [])
          case Some(filesize) =>
            if filesize.JArr? then ItemsFrom(Judged(env, package), filesize.items, 0) else ((true, None), [])
  }

  /** An item is appended iff its keys hold strings and it validates, and
      then what is appended is its validated config. */
  lemma JudgeSpec(env: Env, package: string, file: Json, index: nat)
    ensures Judge(env, package, file, index).Append? <==>
      var keys := FileConfigContainsKeys(file);
      keys.Some? && keys.value.success && ValidateFileConfig(env, StringsOf(file), index).success
    ensures Judge(env, package, file, index).Append? ==>
      Judge(env, package, file, index).config == ValidateFileConfig(env, StringsOf(file), index).config.value
  {
  }

  /** The loop appends the accepted items one by one, in order, up to the
      first item that is not. */
  lemma {:induction false} ItemsFromAppends(judge: (Json, nat) -> Verdict, items: seq<Json>, k: nat)
    requires k <= |items|
    ensures var r := ItemsFrom(judge, items, k);
      && |r.1| <= |items| - k
      && forall j :: 0 <= j < |r.1| ==> judge(items[k + j], k + j + 1) == Append(r.1[j])
    decreases |items| - k
  {
    if k < |items| && judge(items[k], k + 1).Append? {
      ItemsFromAppends(judge, items, k + 1);
      var rest := ItemsFrom(judge, items, k + 1).1;
      var c := judge(items[k], k + 1).config;
      assert ItemsFrom(judge, items, k).1 == [c] + rest;
      assert forall j :: 1 <= j < 1 + |rest| ==> ([c] + rest)[j] == rest[j - 1];
    }
  }

  /** The loop succeeds, with no message, exactly when every item is
      appended; otherwise the item after the appended ones is the one that
      was not, and the response carries its message. */
  lemma {:induction false} ItemsFromResponse(judge: (Json, nat) -> Verdict, items: seq<Json>, k: nat)
    requires k <= |items|
    ensures var r := ItemsFrom(judge, items, k);
      && (r.0.0 <==> |r.1| == |items| - k)
      && (r.0.0 <==> r.0.1.None?)
      && (!r.0.0 ==>
            && |r.1| < |items| - k
            && judge(items[k + |r.1|], k + |r.1| + 1).Stop?
            && r.0.1 == Some(judge(items[k + |r.1|], k + |r.1| + 1).message))
    decreases |items| - k
  {
    if k < |items| && judge(items[k], k + 1).Append? {
      ItemsFromResponse(judge, items, k + 1);
    }
  }

  /** Where the item loop is after `k` items: the configs appended so far
      are the accepted items before `k`, and what is still to come is what
      `ItemsFrom` gives from `k`. */
  ghost predicate Walked(judge: (Json, nat) -> Verdict, items: seq<Json>, k: nat, appended: seq<ItemConfig>)
  {
    && k <= |items|
    && ItemsFrom(judge, items, 0).0 == ItemsFrom(judge, items, k).0
    && ItemsFrom(judge, items, 0).1 == appended + ItemsFrom(judge, items, k).1
  }

  lemma WalkedNext(judge: (Json, nat) -> Verdict, items: seq<Json>, k: nat, appended: seq<ItemConfig>)
    requires k < |items| && Walked(judge, items, k, appended) && judge(items[k], k + 1).Append?
    ensures Walked(judge, items, k + 1, appended + [judge(items[k], k + 1).config])
  {
    var c := judge(items[k], k + 1).config;
    var rest := ItemsFrom(judge, items, k + 1).1;
    assert ItemsFrom(judge, items, k).1 == [c] + rest;
    assert appended + ([c] + rest) == (appended + [c]) + rest;
  }

  lemma WalkedStops(judge: (Json, nat) -> Verdict, items: seq<Json>, k: nat, appended: seq<ItemConfig>)
    requires k < |items| && Walked(judge, items, k, appended) && judge(items[k], k + 1).Stop?
    ensures ItemsFrom(judge, items, 0) == ((false, Some(judge(items[k], k + 1).message)), appended)
  {
    assert appended + [] == appended;
  }

  lemma WalkedEnds(judge: (Json, nat) -> Verdict, items: seq<Json>, appended: seq<ItemConfig>)
    requires Walked(judge, items, |items|, appended)
    ensures ItemsFrom(judge, items, 0) == ((true, None), appended)
  {
    assert appended + [] == appended;
  }

  /** `Config` as written: read, parse, then the item loop, each valid item
      appended to `context.config` before the next is looked at. */
  method Config(context: Context, env: Env) returns (r: ValidationResponse)
    modifies context`config
    ensures var (response, appended) := ConfigResult(env, context.packagePath);
      r == response && context.config == old(context.config) + appended
  {
    var package := context.packagePath;
    var readFileAttempt := env.readFile(package);
    if readFileAttempt.None? {
      return (false, Some(Log.MakeError("Could not read the configuration in '" + package + "'")));
    }
    var contents := readFileAttempt.value;
    var parsed := env.parseJson(contents);
    if parsed.None? || parsed.value.JNull? {
      return (false, Some(ParseError(package)));
    }
    var filesize := Lookup(parsed.value, "filesize");
    if filesize.None? {
      return (false, Some(Log.MakeError("There is no 'filesize' configuration in '" + package + "'")));
    }
    if !filesize.value.JArr? {
      return (true, None);
    }
    r := ParseItems(context, env, package, filesize.value.items);
  }

  /** The item loop of `Config`. */
  method ParseItems(context: Context, env: Env, package: string, items: seq<Json>) returns (r: ValidationResponse)
    modifies context`config
    ensures var (response, appended) := ItemsFrom(Judged(env, package), items, 0);
      r == response && context.config == old(context.config) + appended
  {
    ghost var config0 := context.config;
    ghost var judge := Judged(env, package);
    ghost var appended: seq<ItemConfig> := [];
    assert [] + ItemsFrom(judge, items, 0).1 == ItemsFrom(judge, items, 0).1;
    var index := 0;
    while index < |items|
      invariant Walked(judge, items, index, appended)
      invariant context.config == config0 + appended
      decreases |items| - index
    {
      var file := items[index];
      index := index + 1;
      var verdict := JudgeItem(env, package, file, index);
      if verdict.Stop? {
        WalkedStops(judge, items, index - 1, appended);
        return (false, Some(verdict.message));
      }
      WalkedNext(judge, items, index - 1, appended);
      context.config := context.config + [verdict.config];
      appended := appended + [verdict.config];
    }
    WalkedEnds(judge, items, appended);
    return (true, None);
  }

  /** The checks the item loop makes on one item, in order: its keys, then
      its validation. */
  method JudgeItem(env: Env, package: string, file: Json, index: nat) returns (verdict: Verdict)
    ensures verdict == Judged(env, package)(file, index)
  {
    var hasNecessaryKeys := FileConfigContainsKeys(file);
    if hasNecessaryKeys.None? {
      return Stop(ParseError(package));
    }
    if !hasNecessaryKeys.value.success {
      return Stop(Log.MakeError("Configuration for " + MissingKeyName(file, index) + " is invalid. (key: "
                                + ReadableKeyNames[hasNecessaryKeys.value.invalid.value] + ")"));
    }
    var validatedItem := ValidateFileConfig(env, StringsOf(file), index);
    if !validatedItem.success {
      return Stop(validatedItem.error.value);
    }
    return Append(validatedItem.config.value);
  }
}
