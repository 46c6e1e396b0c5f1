// The size table (src/validation/Condition.ts): the three encodings in their
// fixed order, the per-encoding slot of a size record, and the run context
// whose `compressed` map holds one three-slot record per tracked file.

module Condition {
  import opened Wrappers

  /** The encodings a file can be measured in. `Identity` is the encoding the
      configuration calls 'none'. */
  datatype Compression = Brotli | Gzip | Identity

  function Name(c: Compression): string
  {
    match c
    case Brotli => "brotli"
    case Gzip => "gzip"
    case Identity => "none"
  }

  /** `OrderedCompressionValues`: the column order of every size record. */
  const OrderedCompressionValues: seq<Compression> := [Brotli, Gzip, Identity]

  /** The same order as the source spells it, by name. */
  const OrderedCompressionNames: seq<string> := ["brotli", "gzip", "none"]

  /** `SizeMapValueIndex[c]`: the slot of a record that belongs to `c`. */
  function SizeMapValueIndex(c: Compression): (i: nat)
    ensures i < |OrderedCompressionValues|
    ensures OrderedCompressionValues[i] == c
    ensures OrderedCompressionNames[i] == Name(c)
  {
    match c
    case Brotli => 0
    case Gzip => 1
    case Identity => 2
  }

  /** `Array.prototype.indexOf` over strings. */
  function IndexOf(names: seq<string>, name: string): int
    decreases |names|
  {
    if names == [] then -1
    else if names[0] == name then 0
    else
      var k := IndexOf(names[1..], name);
      if k < 0 then -1 else k + 1
  }

  /** `OrderedCompressionValues.indexOf(item.compression)`, the slot `store`
      writes, is the slot `SizeMapValueIndex` names, and the two tables list
      exactly the three encodings, each once. */
  lemma EncodingTables(c: Compression)
    ensures IndexOf(OrderedCompressionNames, Name(c)) == SizeMapValueIndex(c)
    ensures |OrderedCompressionValues| == 3
    ensures forall i, j :: 0 <= i < j < 3 ==> OrderedCompressionValues[i] != OrderedCompressionValues[j]
    ensures forall d: Compression :: d in OrderedCompressionValues
  {
    assert OrderedCompressionNames[1..] == ["gzip", "none"];
    assert OrderedCompressionNames[2..] == ["none"];
    forall d: Compression ensures d in OrderedCompressionValues {
      assert OrderedCompressionValues[SizeMapValueIndex(d)] == d;
    }
  }

  /** A measured size: a number once calculated, `null` while awaiting
      calculation, `undefined` when the encoding is ignored for the file. */
  datatype Size = Calculated(bytes: nat) | Awaiting | Ignored

  /** A budget: `undefined` means the slot is unrestricted. */
  datatype MaxSize = Unrestricted | Limit(bytes: nat)

  /** The budget test of `store`: an unrestricted slot always passes, a
      bounded one passes when it is strictly under its budget. */
  predicate WithinBudget(size: nat, maxSize: MaxSize)
  {
    maxSize.Unrestricted? || size < maxSize.bytes
  }

  /** One `[size, maxSize]` pair of a record. */
  datatype Slot = Slot(size: Size, maxSize: MaxSize)

  type Path = string

  /** One validated file item (`ItemConfig`): the configured spelling, the
      resolved path, the encoding and the budget. */
  datatype ItemConfig = ItemConfig(originalPath: string, path: Path, compression: Compression, maxSize: int)

  /** The record `validateFileConfig` starts a new path with. */
  const UntrackedRecord: seq<Slot> :=
    [Slot(Ignored, Unrestricted), Slot(Ignored, Unrestricted), Slot(Ignored, Unrestricted)]

  /** The contents of every record object a table refers to. */
  function Contents(m: map<Path, array<Slot>>): (h: map<array<Slot>, seq<Slot>>)
    reads m.Values
    ensures h.Keys == m.Values
  {
    map a | a in m.Values :: a[..]
  }

  /** No two paths share one record object. */
  predicate Unaliased(m: map<Path, array<Slot>>)
  {
    forall p, q :: p in m && q in m && p != q ==> m[p] != m[q]
  }

  predicate Distinct<T(==)>(s: seq<T>)
  {
    forall i, j :: 0 <= i < j < |s| ==> s[i] != s[j]
  }

  /** `Map.prototype.set`'s effect on the key order: a new key goes last, an
      existing key keeps its place. */
  function SetKey(order: seq<Path>, p: Path): (r: seq<Path>)
    ensures Distinct(order) ==> Distinct(r)
    ensures forall q :: q in r <==> q in order || q == p
  {
    if p in order then order else order + [p]
  }

  /** The shared state of a run (`Context`). `order` is the insertion order of
      `compressed`, which is the order in which the reports draw rows. */
  class Context {
    const projectPath: string
    const packagePath: string
    const silent: bool
    var order: seq<Path>
    var compressed: map<Path, array<Slot>>
    var originalPaths: map<Path, string>
    var fileContents: map<Path, string>
    /** The item list the configuration chain appends validated items to. */
    var config: seq<ItemConfig>

    ghost predicate Valid()
      reads this
    {
      && Distinct(order)
      && (forall p :: p in compressed <==> p in order)
      && (forall p :: p in compressed ==> compressed[p].Length == 3)
    }

    /** The values of the table at this moment. */
    function Snapshot(): (s: map<Path, seq<Slot>>)
      reads this, compressed.Values
      ensures s.Keys == compressed.Keys
    {
      map p | p in compressed :: compressed[p][..]
    }

    constructor (projectPath: string, packagePath: string, silent: bool, fileContents: map<Path, string>)
      ensures Valid()
      ensures this.projectPath == projectPath && this.packagePath == packagePath && this.silent == silent
      ensures order == [] && compressed == map[] && originalPaths == map[] && config == []
      ensures this.fileContents == fileContents
    {
      this.projectPath := projectPath;
      this.packagePath := packagePath;
      this.silent := silent;
      order := [];
      compressed := map[];
      originalPaths := map[];
      this.fileContents := fileContents;
      config := [];
    }

    /** `context.compressed.set(p, record)`. */
    method SetRecord(p: Path, record: array<Slot>)
      requires Valid() && record.Length == 3
      modifies this`order, this`compressed
      ensures Valid()
      ensures order == SetKey(old(order), p)
      ensures compressed == old(compressed)[p := record]
    {
      order := SetKey(order, p);
      compressed := compressed[p := record];
    }

    /** `sizeMap[i][0] = size` on the record of `p`, when there is one: only
        the measured field of slot `i` changes, and no other record. */
    method SetSize(p: Path, i: nat, size: nat) returns (found: bool)
      requires Valid() && i < 3
      modifies if p in compressed then {compressed[p]} else {}
      ensures found <==> p in compressed
      ensures found ==> compressed[p][..] == old(compressed[p][..])[i := old(compressed[p][i]).(size := Calculated(size))]
    {
      if p !in compressed {
        return false;
      }
      var sizeMap := compressed[p];
      sizeMap[i] := sizeMap[i].(size := Calculated(size));
      return true;
    }
  }
}

/** Stand-ins for the file system and the libraries the core calls. */
module Host {
  import opened Wrappers
  import opened Json
  import opened Condition

  datatype Env = Env(
    /** `readFile`: the contents, or `null` when the file cannot be read. */
    readFile: string -> Option<string>,
    /** `JSON.parse`: `None` when it throws. */
    parseJson: string -> Option<Json>,
    /** `path.resolve` of a configured path: `resolve(p)` when `p` is absolute,
        `resolve(projectPath, p)` otherwise. */
    resolveIn: (string, string) -> Path,
    /** `path.resolve(p)` against the working directory. */
    resolveCwd: string -> Path,
    /** `isFile`. */
    isFile: Path -> bool,
    /** `bytes(value)`: the parsed budget, `None` for `null`. */
    bytes: Json -> Option<int>,
    /** `fast-glob` on the `track` patterns. */
    glob: seq<Json> -> seq<string>,
    /** The byte length of the brotli or gzip output, `None` on an error. */
    compress: (Compression, string) -> Option<nat>)
}
