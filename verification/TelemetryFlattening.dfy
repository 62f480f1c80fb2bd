/** Flattening of nested telemetry payloads. */
module TelemetryFlattening {
  import opened OrderedDict
  import opened Text

  /** A decoded payload value: a dict, or anything else (numbers, strings, lists, ...). */
  datatype Value<T> = Leaf(leaf: T) | Dict(entries: seq<(string, Value<T>)>)

  type Entries<T> = seq<(string, Value<T>)>
  type Flat<T> = seq<(string, T)>
  type Path = seq<string>

  function ChildKey(parentKey: string, sep: string, key: string): string {
    if parentKey != "" then parentKey + sep + key else key
  }

  /** What the method below computes: duplicates are removed at every level. */
  function Flatten<T>(data: Entries<T>, parentKey: string, sep: string): Flat<T>
    decreases data, 1
  {
    DictOf(FlattenItems(data, parentKey, sep))
  }

  function FlattenItems<T>(data: Entries<T>, parentKey: string, sep: string): Flat<T>
    decreases data, 0
  {
    if data == [] then []
    else FlattenItem(data[0], parentKey, sep) + FlattenItems(data[1..], parentKey, sep)
  }

  function FlattenItem<T>(item: (string, Value<T>), parentKey: string, sep: string): Flat<T>
    decreases item, 2
  {
    var newKey := ChildKey(parentKey, sep, item.0);
    match item.1
    case Dict(sub) => Flatten(sub, newKey, sep)
    case Leaf(v) => [(newKey, v)]
  }

  method FlattenTelemetryData<T>(data: Entries<T>, parentKey: string, sep: string) returns (flat: Flat<T>)
    ensures flat == Flatten(data, parentKey, sep)
    decreases Dict(data)
  {
    hide DictOf;
    hide FlattenItems;
    var items: Flat<T> := [];
    assert data[0..] == data;
    for i := 0 to |data|
      invariant items + FlattenItems(data[i..], parentKey, sep) == FlattenItems(data, parentKey, sep)
    {
      ItemsSnoc(items, data, i, parentKey, sep);
      var (key, value) := data[i];
      var newKey := if parentKey != "" then parentKey + sep + key else key;
      match value {
        case Dict(sub) =>
          var nested := FlattenTelemetryData(sub, newKey, sep);
          items := items + nested;
        case Leaf(v) =>
          items := items + [(newKey, v)];
      }
    }
    ItemsDone(items, data, parentKey, sep);
    flat := DictOf(items);
  }

  lemma ItemsSnoc<T>(items: Flat<T>, data: Entries<T>, i: nat, parentKey: string, sep: string)
    requires i < |data|
    ensures
      (items + FlattenItem(data[i], parentKey, sep)) + FlattenItems(data[i + 1..], parentKey, sep)
      == items + FlattenItems(data[i..], parentKey, sep)
  {
    assert data[i..][1..] == data[i + 1..];
  }

  lemma ItemsDone<T>(items: Flat<T>, data: Entries<T>, parentKey: string, sep: string)
    ensures items + FlattenItems(data[|data|..], parentKey, sep) == items
  {}

  // ----- the reference: a leaf list

  /** The leaves of a payload, depth first, each with its path of keys. */
  function LeafPaths<T>(data: Entries<T>): seq<(Path, T)>
    decreases data, 0
  {
    if data == [] then [] else ItemPaths(data[0]) + LeafPaths(data[1..])
  }

  function ItemPaths<T>(item: (string, Value<T>)): seq<(Path, T)>
    decreases item, 1
  {
    match item.1
    case Dict(sub) => Under(item.0, LeafPaths(sub))
    case Leaf(v) => [([item.0], v)]
  }

  function Under<T>(key: string, leaves: seq<(Path, T)>): seq<(Path, T)> {
    seq(|leaves|, i requires 0 <= i < |leaves| => ([key] + leaves[i].0, leaves[i].1))
  }

  /** The flat key of a path below `parentKey`. */
  function PathKey(path: Path, parentKey: string, sep: string): string {
    if path == [] then parentKey
    else PathKey(path[1..], ChildKey(parentKey, sep, path[0]), sep)
  }

  function Keyed<T>(leaves: seq<(Path, T)>, parentKey: string, sep: string): Flat<T> {
    seq(|leaves|, i requires 0 <= i < |leaves| => (PathKey(leaves[i].0, parentKey, sep), leaves[i].1))
  }

  lemma KeyedUnder<T>(key: string, leaves: seq<(Path, T)>, parentKey: string, sep: string)
    ensures Keyed(Under(key, leaves), parentKey, sep) == Keyed(leaves, ChildKey(parentKey, sep, key), sep)
  {}

  lemma KeyedConcat<T>(a: seq<(Path, T)>, b: seq<(Path, T)>, parentKey: string, sep: string)
    ensures Keyed(a + b, parentKey, sep) == Keyed(a, parentKey, sep) + Keyed(b, parentKey, sep)
  {}

  /** Removing duplicates at every level is one pass over the joined leaf list. */
  lemma FlattenIsOnePass<T>(data: Entries<T>, parentKey: string, sep: string)
    ensures Flatten(data, parentKey, sep) == DictOf(Keyed(LeafPaths(data), parentKey, sep))
  {
    ItemsOnePass(data, parentKey, sep, []);
    assert [] + FlattenItems(data, parentKey, sep) == FlattenItems(data, parentKey, sep);
    assert [] + Keyed(LeafPaths(data), parentKey, sep) == Keyed(LeafPaths(data), parentKey, sep);
  }

  lemma {:induction false} ItemsOnePass<T>(data: Entries<T>, parentKey: string, sep: string, before: Flat<T>)
    ensures DictOf(before + FlattenItems(data, parentKey, sep)) == DictOf(before + Keyed(LeafPaths(data), parentKey, sep))
    decreases data, 0
  {
    if data != [] {
      var first, tail := ItemPaths(data[0]), LeafPaths(data[1..]);
      var item, rest := FlattenItem(data[0], parentKey, sep), FlattenItems(data[1..], parentKey, sep);
      var keyed, keyedTail := Keyed(first, parentKey, sep), Keyed(tail, parentKey, sep);
      ItemOnePass(data[0], parentKey, sep, before, rest);
      ItemsOnePass(data[1..], parentKey, sep, before + keyed);
      KeyedConcat(first, tail, parentKey, sep);
      Associate(before, keyed, keyedTail);
      Associate(before, item, rest);
    }
  }

  lemma Associate<T>(a: seq<T>, b: seq<T>, c: seq<T>)
    ensures a + (b + c) == a + b + c
  {}

  lemma {:induction false} ItemOnePass<T>(item: (string, Value<T>), parentKey: string, sep: string, before: Flat<T>, rest: Flat<T>)
    ensures DictOf(before + FlattenItem(item, parentKey, sep) + rest) == DictOf(before + Keyed(ItemPaths(item), parentKey, sep) + rest)
    decreases item, 1
  {
    var newKey := ChildKey(parentKey, sep, item.0);
    match item.1 {
      case Dict(sub) =>
        ItemsOnePass(sub, newKey, sep, []);
        assert [] + FlattenItems(sub, newKey, sep) == FlattenItems(sub, newKey, sep);
        assert [] + Keyed(LeafPaths(sub), newKey, sep) == Keyed(LeafPaths(sub), newKey, sep);
        DictOfAbsorbs(before, Keyed(LeafPaths(sub), newKey, sep), rest);
        KeyedUnder(item.0, LeafPaths(sub), parentKey, sep);
      case Leaf(v) =>
        assert [item.0][1..] == [];
        assert PathKey([item.0], parentKey, sep) == newKey;
        assert Keyed(ItemPaths(item), parentKey, sep) == [(newKey, v)];
    }
  }

  /**
   * The flat dict lists each flat key at the place of its first leaf in depth-first order,
   * with the value of its last one.
   */
  lemma FlattenMeaning<T>(data: Entries<T>, parentKey: string, sep: string, key: string)
    ensures
      var flat := Flatten(data, parentKey, sep);
      var leaves := Keyed(LeafPaths(data), parentKey, sep);
      && DistinctKeys(flat) && KeyOrder(flat) == FirstKeys(leaves)
      && (Has(flat, key) <==> Has(leaves, key))
      && (Has(leaves, key) ==> Get(flat, key) == LastValue(leaves, key))
  {
    FlattenIsOnePass(data, parentKey, sep);
    DictOfMeaning(Keyed(LeafPaths(data), parentKey, sep), key);
  }

  /** With no parent key the result is flat, and flattening it again changes nothing. */
  lemma FlattenIdempotent<T>(data: Entries<T>, sep: string)
    ensures Flatten(Lift(Flatten(data, "", sep)), "", sep) == Flatten(data, "", sep)
  {
    var flat := Flatten(data, "", sep);
    UpdateDistinct([], FlattenItems(data, "", sep));
    FlattenItemsLift(flat, sep);
    DictOfDict(flat);
  }

  /** A flat dict read as a payload. */
  function Lift<T>(flat: Flat<T>): Entries<T> {
    seq(|flat|, i requires 0 <= i < |flat| => (flat[i].0, Leaf(flat[i].1)))
  }

  lemma {:induction false} FlattenItemsLift<T>(flat: Flat<T>, sep: string)
    ensures FlattenItems(Lift(flat), "", sep) == flat
    decreases |flat|
  {
    if flat != [] {
      assert Lift(flat)[1..] == Lift(flat[1..]);
      FlattenItemsLift(flat[1..], sep);
    }
  }
}
