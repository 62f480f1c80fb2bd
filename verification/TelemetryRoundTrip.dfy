/** When flattening can be undone by splitting the keys. */
module TelemetryRoundTrip {
  import opened OrderedDict
  import opened Text
  import opened TelemetryFlattening

  /** Every dict in the payload has distinct keys, as every Python dict does. */
  predicate WellFormed<T>(data: Entries<T>)
    decreases data, 0
  {
    DistinctKeys(data) && forall i :: 0 <= i < |data| ==> WellFormedItem(data[i])
  }

  predicate WellFormedItem<T>(item: (string, Value<T>))
    decreases item, 1
  {
    item.1.Dict? ==> WellFormed(item.1.entries)
  }

  // ----- putting leaves back into nested dicts

  function SubEntries<T>(d: Entries<T>, key: string): Entries<T> {
    if Has(d, key) && Get(d, key).Dict? then Get(d, key).entries else []
  }

  function Insert<T>(d: Entries<T>, path: Path, leaf: T): Entries<T>
    requires path != []
    decreases |path|
  {
    if |path| == 1 then SetItem(d, path[0], Leaf(leaf))
    else SetItem(d, path[0], Dict(Insert(SubEntries(d, path[0]), path[1..], leaf)))
  }

  predicate NonEmptyPaths<T>(leaves: seq<(Path, T)>) {
    forall i :: 0 <= i < |leaves| ==> leaves[i].0 != []
  }

  function InsertAll<T>(d: Entries<T>, leaves: seq<(Path, T)>): Entries<T>
    requires NonEmptyPaths(leaves)
    decreases |leaves|
  {
    if leaves == [] then d else InsertAll(Insert(d, leaves[0].0, leaves[0].1), leaves[1..])
  }

  function SplitKeys<T>(flat: Flat<T>, c: char): (leaves: seq<(Path, T)>)
    ensures NonEmptyPaths(leaves)
  {
    seq(|flat|, i requires 0 <= i < |flat| => (Split(flat[i].0, c), flat[i].1))
  }

  /** Rebuild a payload from flat keys. */
  function Unflatten<T>(flat: Flat<T>, c: char): Entries<T> {
    InsertAll([], SplitKeys(flat, c))
  }

  /** The payload without sub-dicts that hold no leaf. */
  function Prune<T>(data: Entries<T>): Entries<T>
    decreases data, 0
  {
    if data == [] then [] else PruneItem(data[0]) + Prune(data[1..])
  }

  function PruneItem<T>(item: (string, Value<T>)): Entries<T>
    decreases item, 1
  {
    match item.1
    case Leaf(_) => [item]
    case Dict(sub) =>
      var kept := Prune(sub);
      if kept == [] then [] else [(item.0, Dict(kept))]
  }

  // ----- inserting the leaf list of a payload gives the pruned payload

  lemma {:induction false} PathsNonEmpty<T>(data: Entries<T>)
    ensures NonEmptyPaths(LeafPaths(data))
    decreases |data|
  {
    if data != [] { PathsNonEmpty(data[1..]); }
  }

  lemma {:induction false} InsertAllConcat<T>(d: Entries<T>, a: seq<(Path, T)>, b: seq<(Path, T)>)
    requires NonEmptyPaths(a) && NonEmptyPaths(b)
    ensures NonEmptyPaths(a + b) && InsertAll(d, a + b) == InsertAll(InsertAll(d, a), b)
    decreases |a|
  {
    if a == [] {
      assert a + b == b;
    } else {
      assert (a + b)[1..] == a[1..] + b;
      InsertAllConcat(Insert(d, a[0].0, a[0].1), a[1..], b);
    }
  }

  lemma {:induction false} GetLast<T>(base: Entries<T>, key: string, value: Value<T>)
    requires !Has(base, key)
    ensures Has(base + [(key, value)], key) && Get(base + [(key, value)], key) == value
  {
    if base != [] {
      assert (base + [(key, value)])[1..] == base[1..] + [(key, value)];
      GetLast(base[1..], key, value);
    }
  }

  lemma {:induction false} SetLast<T>(base: Entries<T>, key: string, earlier: Value<T>, value: Value<T>)
    requires !Has(base, key)
    ensures SetItem(base + [(key, earlier)], key, value) == base + [(key, value)]
  {
    if base != [] {
      assert (base + [(key, earlier)])[1..] == base[1..] + [(key, earlier)];
      SetLast(base[1..], key, earlier, value);
      assert base == [base[0]] + base[1..];
    }
  }

  /** Leaves under one last key go into that key's dict. */
  lemma {:induction false} InsertUnder<T>(base: Entries<T>, key: string, sub: Entries<T>, leaves: seq<(Path, T)>)
    requires !Has(base, key) && NonEmptyPaths(leaves)
    ensures NonEmptyPaths(Under(key, leaves))
    ensures InsertAll(base + [(key, Dict(sub))], Under(key, leaves)) == base + [(key, Dict(InsertAll(sub, leaves)))]
    decreases |leaves|
  {
    if leaves != [] {
      var (path, leaf) := leaves[0];
      assert ([key] + path)[1..] == path;
      GetLast(base, key, Dict(sub));
      SetLast(base, key, Dict(sub), Dict(Insert(sub, path, leaf)));
      assert Under(key, leaves)[1..] == Under(key, leaves[1..]);
      InsertUnder(base, key, Insert(sub, path, leaf), leaves[1..]);
    }
  }

  lemma {:induction false} InsertUnderFresh<T>(base: Entries<T>, key: string, leaves: seq<(Path, T)>)
    requires !Has(base, key) && NonEmptyPaths(leaves) && leaves != []
    ensures NonEmptyPaths(Under(key, leaves))
    ensures InsertAll(base, Under(key, leaves)) == base + [(key, Dict(InsertAll([], leaves)))]
  {
    var (path, leaf) := leaves[0];
    assert ([key] + path)[1..] == path;
    SetItemNew(base, key, Dict(Insert([], path, leaf)));
    assert Under(key, leaves)[1..] == Under(key, leaves[1..]);
    InsertUnder(base, key, Insert([], path, leaf), leaves[1..]);
  }

  lemma LeafPathsConcat<T>(a: Entries<T>, b: Entries<T>)
    ensures LeafPaths(a + b) == LeafPaths(a) + LeafPaths(b)
    decreases |a|
  {
    if a == [] {
      assert a + b == b;
    } else {
      assert (a + b)[1..] == a[1..] + b;
      LeafPathsConcat(a[1..], b);
    }
  }

  /** Pruning keeps every leaf in its place. */
  lemma {:induction false} PruneKeepsLeaves<T>(data: Entries<T>)
    ensures LeafPaths(Prune(data)) == LeafPaths(data)
    decreases data, 0
  {
    if data != [] {
      PruneItemKeepsLeaves(data[0]);
      PruneKeepsLeaves(data[1..]);
      LeafPathsConcat(PruneItem(data[0]), Prune(data[1..]));
    }
  }

  lemma {:induction false} PruneItemKeepsLeaves<T>(item: (string, Value<T>))
    ensures LeafPaths(PruneItem(item)) == ItemPaths(item)
    decreases item, 1
  {
    match item.1
    case Leaf(_) =>
    case Dict(sub) => PruneKeepsLeaves(sub);
  }

  lemma WellFormedTail<T>(data: Entries<T>)
    requires data != [] && WellFormed(data)
    ensures WellFormedItem(data[0]) && WellFormed(data[1..])
    ensures forall i :: 0 <= i < |data[1..]| ==> data[1..][i].0 != data[0].0
  {
    forall i | 0 <= i < |data[1..]|
      ensures WellFormedItem(data[1..][i]) && data[1..][i].0 != data[0].0
    {
      assert data[1..][i] == data[i + 1];
      HasAt(data[1..], i);
    }
  }

  predicate Apart<T>(base: Entries<T>, data: Entries<T>) {
    forall i :: 0 <= i < |data| ==> !Has(base, data[i].0)
  }

  lemma {:induction false} InsertLeaves<T>(base: Entries<T>, data: Entries<T>)
    requires WellFormed(data) && Apart(base, data)
    ensures NonEmptyPaths(LeafPaths(data))
    ensures InsertAll(base, LeafPaths(data)) == base + Prune(data)
    decreases data, 0
  {
    PathsNonEmpty(data);
    if data == [] {
      assert base + Prune(data) == base;
    } else {
      WellFormedTail(data);
      PathsNonEmpty(data[1..]);
      var item, rest := data[0], data[1..];
      assert !Has(base, data[0].0);
      InsertItemLeaves(base, item);
      InsertAllConcat(base, ItemPaths(item), LeafPaths(rest));
      var base' := base + PruneItem(item);
      forall i | 0 <= i < |rest| ensures !Has(base', rest[i].0) {
        HasConcat(base, PruneItem(item), rest[i].0);
        assert rest[i] == data[i + 1];
      }
      InsertLeaves(base', rest);
      Associate(base, PruneItem(item), Prune(rest));
    }
  }

  lemma {:induction false} InsertItemLeaves<T>(base: Entries<T>, item: (string, Value<T>))
    requires WellFormedItem(item) && !Has(base, item.0)
    ensures NonEmptyPaths(ItemPaths(item))
    ensures InsertAll(base, ItemPaths(item)) == base + PruneItem(item)
    decreases item, 1
  {
    match item.1
    case Leaf(v) =>
      SetItemNew(base, item.0, Leaf(v));
    case Dict(sub) =>
      PathsNonEmpty(sub);
      InsertLeaves([], sub);
      PruneKeepsLeaves(sub);
      assert [] + Prune(sub) == Prune(sub);
      if LeafPaths(sub) != [] {
        InsertUnderFresh(base, item.0, LeafPaths(sub));
      } else {
        PrunedHasLeaf(sub);
        assert base + PruneItem(item) == base;
      }
  }

  lemma {:induction false} PrunedHasLeaf<T>(data: Entries<T>)
    requires LeafPaths(data) == []
    ensures Prune(data) == []
    decreases data, 0
  {
    if data != [] {
      PrunedHasLeaf(data[1..]);
      PrunedItemHasLeaf(data[0]);
    }
  }

  lemma {:induction false} PrunedItemHasLeaf<T>(item: (string, Value<T>))
    requires ItemPaths(item) == []
    ensures PruneItem(item) == []
    decreases item, 1
  {
    match item.1
    case Leaf(_) =>
    case Dict(sub) =>
      assert |Under(item.0, LeafPaths(sub))| == |LeafPaths(sub)|;
      PrunedHasLeaf(sub);
  }

  // ----- when the flat keys can be told apart and split

  /** No key holds the separator, and an empty first key has nothing below it. */
  predicate GoodPath(path: Path, c: char) {
    && (forall k :: k in path ==> c !in k)
    && (|path| >= 2 ==> path[0] != "")
  }

  ghost predicate GoodKeys<T>(data: Entries<T>, c: char) {
    forall leaf :: leaf in LeafPaths(data) ==> GoodPath(leaf.0, c)
  }

  lemma {:induction false} PathKeyJoins(path: Path, parentKey: string, sep: string)
    requires parentKey != ""
    ensures PathKey(path, parentKey, sep) == JoinWith([parentKey] + path, sep)
    decreases |path|
  {
    if path != [] {
      var child := parentKey + sep + path[0];
      PathKeyJoins(path[1..], child, sep);
      assert ([parentKey] + path)[1..] == path;
      assert ([child] + path[1..])[1..] == path[1..];
      if |path| > 1 {
        Associate(parentKey + sep, path[0], sep + JoinWith(path[1..], sep));
        Associate(parentKey, sep, path[0] + sep + JoinWith(path[1..], sep));
        Associate(path[0], sep, JoinWith(path[1..], sep));
        Associate(child, sep, JoinWith(path[1..], sep));
      }
    }
  }

  /** A good path is read back from its flat key. */
  lemma SplitPathKey(path: Path, c: char)
    requires path != [] && GoodPath(path, c)
    ensures Split(PathKey(path, "", [c]), c) == path
  {
    assert path == [path[0]] + path[1..];
    if |path| == 1 {
      assert PathKey(path, "", [c]) == PathKey(path[1..], path[0], [c]) == path[0];
    } else {
      PathKeyJoins(path[1..], path[0], [c]);
    }
    SplitJoin(path, c);
  }

  ghost predicate DistinctPaths<T>(leaves: seq<(Path, T)>) {
    forall i, j :: 0 <= i < j < |leaves| ==> leaves[i].0 != leaves[j].0
  }

  lemma {:induction false} PathStart<T>(data: Entries<T>, i: nat)
    requires i < |LeafPaths(data)|
    ensures LeafPaths(data)[i].0 != [] && Has(data, LeafPaths(data)[i].0[0])
    decreases |data|
  {
    var first := ItemPaths(data[0]);
    if i >= |first| { PathStart(data[1..], i - |first|); }
  }

  /** Distinct leaves have distinct paths. */
  lemma {:induction false} PathsDistinct<T>(data: Entries<T>)
    requires WellFormed(data)
    ensures DistinctPaths(LeafPaths(data))
    decreases data, 0
  {
    if data != [] {
      WellFormedTail(data);
      ItemPathsDistinct(data[0]);
      PathsDistinct(data[1..]);
      var first, rest := ItemPaths(data[0]), LeafPaths(data[1..]);
      forall i, j | 0 <= i < |first| && 0 <= j < |rest| ensures first[i].0 != rest[j].0 {
        PathStart(data[1..], j);
        assert first[i].0[0] == data[0].0;
      }
    }
  }

  lemma {:induction false} ItemPathsDistinct<T>(item: (string, Value<T>))
    requires WellFormedItem(item)
    ensures DistinctPaths(ItemPaths(item))
    decreases item, 1
  {
    match item.1
    case Leaf(_) =>
    case Dict(sub) =>
      PathsDistinct(sub);
      var leaves := LeafPaths(sub);
      forall i, j | 0 <= i < j < |leaves| ensures Under(item.0, leaves)[i].0 != Under(item.0, leaves)[j].0 {
        assert ([item.0] + leaves[i].0)[1..] == leaves[i].0;
        assert ([item.0] + leaves[j].0)[1..] == leaves[j].0;
      }
  }

  lemma {:induction false} HasIndex<T>(d: seq<(string, T)>, key: string) returns (i: nat)
    requires Has(d, key)
    ensures i < |d| && d[i].0 == key
  {
    if d[0].0 == key {
      i := 0;
    } else {
      var j := HasIndex(d[1..], key);
      i := j + 1;
    }
  }

  lemma {:induction false} KeyedDistinct<T>(leaves: seq<(Path, T)>, c: char)
    requires DistinctPaths(leaves) && forall leaf :: leaf in leaves ==> leaf.0 != [] && GoodPath(leaf.0, c)
    ensures DistinctKeys(Keyed(leaves, "", [c]))
    decreases |leaves|
  {
    if leaves != [] {
      var keyed := Keyed(leaves, "", [c]);
      assert keyed[1..] == Keyed(leaves[1..], "", [c]);
      KeyedDistinct(leaves[1..], c);
      if Has(keyed[1..], keyed[0].0) {
        var j := HasIndex(keyed[1..], keyed[0].0);
        assert leaves[j + 1] in leaves;
        SplitPathKey(leaves[0].0, c);
        SplitPathKey(leaves[j + 1].0, c);
        assert false;
      }
    }
  }

  /** Flattening loses no leaf: the flat items are the leaves, key by key. */
  lemma FlattenKeepsLeaves<T>(data: Entries<T>, c: char)
    requires WellFormed(data) && GoodKeys(data, c)
    ensures Flatten(data, "", [c]) == Keyed(LeafPaths(data), "", [c])
    ensures SplitKeys(Flatten(data, "", [c]), c) == LeafPaths(data)
  {
    var leaves := LeafPaths(data);
    FlattenIsOnePass(data, "", [c]);
    PathsDistinct(data);
    PathsNonEmpty(data);
    KeyedDistinct(leaves, c);
    DictOfDict(Keyed(leaves, "", [c]));
    forall i | 0 <= i < |leaves| ensures SplitKeys(Keyed(leaves, "", [c]), c)[i] == leaves[i] {
      assert leaves[i] in leaves;
      SplitPathKey(leaves[i].0, c);
    }
  }

  // ----- and only then

  ghost predicate PathIn<T>(path: Path, leaves: seq<(Path, T)>) {
    exists i :: 0 <= i < |leaves| && leaves[i].0 == path
  }

  lemma PathInConcat<T>(path: Path, a: seq<(Path, T)>, b: seq<(Path, T)>)
    ensures PathIn(path, a + b) <==> PathIn(path, a) || PathIn(path, b)
  {
    if i :| 0 <= i < |a| && a[i].0 == path { assert (a + b)[i].0 == path; }
    if i :| 0 <= i < |b| && b[i].0 == path { assert (a + b)[|a| + i].0 == path; }
  }

  lemma {:induction false} SetItemPaths<T>(d: Entries<T>, key: string, value: Value<T>, path: Path)
    requires PathIn(path, LeafPaths(SetItem(d, key, value)))
    ensures PathIn(path, ItemPaths((key, value))) || PathIn(path, LeafPaths(d))
    decreases |d|
  {
    var s := SetItem(d, key, value);
    PathInConcat(path, ItemPaths(s[0]), LeafPaths(s[1..]));
    if d != [] {
      PathInConcat(path, ItemPaths(d[0]), LeafPaths(d[1..]));
      if d[0].0 == key {
        assert s[1..] == d[1..];
      } else {
        assert s[1..] == SetItem(d[1..], key, value);
        if PathIn(path, LeafPaths(s[1..])) { SetItemPaths(d[1..], key, value, path); }
      }
    }
  }

  lemma {:induction false} GetPaths<T>(d: Entries<T>, key: string, path: Path)
    requires Has(d, key) && PathIn(path, ItemPaths((key, Get(d, key))))
    ensures PathIn(path, LeafPaths(d))
    decreases |d|
  {
    PathInConcat(path, ItemPaths(d[0]), LeafPaths(d[1..]));
    if d[0].0 != key { GetPaths(d[1..], key, path); }
  }

  lemma UnderPaths<T>(key: string, leaves: seq<(Path, T)>, path: Path)
    ensures PathIn(path, Under(key, leaves)) <==> path != [] && path[0] == key && PathIn(path[1..], leaves)
  {
    if i :| 0 <= i < |leaves| && Under(key, leaves)[i].0 == path {
      assert path[1..] == leaves[i].0;
    }
    if path != [] && path[0] == key && PathIn(path[1..], leaves) {
      var i :| 0 <= i < |leaves| && leaves[i].0 == path[1..];
      assert Under(key, leaves)[i].0 == path;
    }
  }

  /** Inserting a leaf adds no path but its own. */
  lemma {:induction false} InsertPaths<T>(d: Entries<T>, at: Path, leaf: T, path: Path)
    requires at != [] && PathIn(path, LeafPaths(Insert(d, at, leaf)))
    ensures path == at || PathIn(path, LeafPaths(d))
    decreases |at|
  {
    var key := at[0];
    if |at| == 1 {
      SetItemPaths(d, key, Leaf(leaf), path);
      assert at == [key];
    } else {
      var sub := SubEntries(d, key);
      var sub' := Insert(sub, at[1..], leaf);
      SetItemPaths(d, key, Dict(sub'), path);
      if PathIn(path, ItemPaths((key, Dict(sub')))) {
        UnderPaths(key, LeafPaths(sub'), path);
        InsertPaths(sub, at[1..], leaf, path[1..]);
        assert path == [path[0]] + path[1..] && at == [key] + at[1..];
        if PathIn(path[1..], LeafPaths(sub)) {
          UnderPaths(key, LeafPaths(sub), path);
          GetPaths(d, key, path);
        }
      }
    }
  }

  lemma {:induction false} InsertAllPaths<T>(d: Entries<T>, leaves: seq<(Path, T)>, path: Path)
    requires NonEmptyPaths(leaves) && PathIn(path, LeafPaths(InsertAll(d, leaves)))
    ensures PathIn(path, leaves) || PathIn(path, LeafPaths(d))
    decreases |leaves|
  {
    if leaves != [] {
      var d' := Insert(d, leaves[0].0, leaves[0].1);
      InsertAllPaths(d', leaves[1..], path);
      if PathIn(path, leaves[1..]) {
        var i :| 0 <= i < |leaves[1..]| && leaves[1..][i].0 == path;
        assert leaves[i + 1].0 == path;
      } else {
        InsertPaths(d, leaves[0].0, leaves[0].1, path);
      }
    }
  }

  lemma {:induction false} KeyedHas<T>(leaves: seq<(Path, T)>, sep: string, key: string) returns (i: nat)
    requires Has(Keyed(leaves, "", sep), key)
    ensures i < |leaves| && PathKey(leaves[i].0, "", sep) == key
  {
    i := HasIndex(Keyed(leaves, "", sep), key);
  }

  lemma {:induction false} NoLeadingSeparator(path: Path, parentKey: string, c: char)
    requires (forall k :: k in path ==> c !in k) && (parentKey != "" ==> parentKey[0] != c)
    ensures var key := PathKey(path, parentKey, [c]); key != "" ==> key[0] != c
    decreases |path|
  {
    if path != [] {
      assert path[0] in path && (path[0] != "" ==> path[0][0] in path[0]);
      NoLeadingSeparator(path[1..], ChildKey(parentKey, [c], path[0]), c);
    }
  }

  /** What a leaf path must look like when the rebuilt payload has it. */
  lemma RebuiltPath<T>(data: Entries<T>, c: char, path: Path) returns (i: nat)
    requires PathIn(path, LeafPaths(Unflatten(Flatten(data, "", [c]), c)))
    ensures i < |LeafPaths(data)| && path == Split(PathKey(LeafPaths(data)[i].0, "", [c]), c)
  {
    var flat := Flatten(data, "", [c]);
    InsertAllPaths([], SplitKeys(flat, c), path);
    var j :| 0 <= j < |flat| && SplitKeys(flat, c)[j].0 == path;
    HasAt(flat, j);
    FlattenIsOnePass(data, "", [c]);
    DictOfMeaning(Keyed(LeafPaths(data), "", [c]), flat[j].0);
    i := KeyedHas(LeafPaths(data), [c], flat[j].0);
  }

  lemma RebuiltPathsGood<T>(data: Entries<T>, c: char, path: Path)
    requires WellFormed(data)
    requires Unflatten(Flatten(data, "", [c]), c) == Prune(data)
    requires PathIn(path, LeafPaths(data))
    ensures GoodPath(path, c)
  {
    PruneKeepsLeaves(data);
    var leaves := LeafPaths(data);
    var i := RebuiltPath(data, c, path);
    if |path| >= 2 && path[0] == "" {
      var key := PathKey(leaves[i].0, "", [c]);
      assert PathIn(leaves[i].0, leaves);
      var _ := RebuiltPath(data, c, leaves[i].0);
      NoLeadingSeparator(leaves[i].0, "", c);
      assert false;
    }
  }

  /**
   * The round trip: splitting the flat keys gives back the payload, without its
   * leafless sub-dicts, exactly when its keys are good.
   */
  lemma UnflattenFlatten<T>(data: Entries<T>, c: char)
    requires WellFormed(data)
    ensures Unflatten(Flatten(data, "", [c]), c) == Prune(data) <==> GoodKeys(data, c)
  {
    if GoodKeys(data, c) {
      FlattenKeepsLeaves(data, c);
      InsertLeaves([], data);
      assert [] + Prune(data) == Prune(data);
    }
    if Unflatten(Flatten(data, "", [c]), c) == Prune(data) {
      forall leaf | leaf in LeafPaths(data) ensures GoodPath(leaf.0, c) {
        RebuiltPathsGood(data, c, leaf.0);
      }
    }
  }

  // ----- separators of any length

  predicate OccursAt(s: string, sep: string, i: nat) {
    i + |sep| <= |s| && s[i..i + |sep|] == sep
  }

  predicate FreeOf(s: string, sep: string) {
    forall i: nat :: i <= |s| ==> !OccursAt(s, sep, i)
  }

  /** Non-empty keys, none of which holds the separator. */
  predicate FreePath(path: Path, sep: string) {
    path != [] && forall k :: k in path ==> k != "" && FreeOf(k, sep)
  }

  /** The separator ends in `k` characters that it also begins with. */
  predicate Border(sep: string, k: nat) {
    0 < k < |sep| && sep[..k] == sep[|sep| - k..]
  }

  ghost predicate TellsApart(sep: string) {
    forall p, q :: FreePath(p, sep) && FreePath(q, sep) && PathKey(p, "", sep) == PathKey(q, "", sep) ==> p == q
  }

  lemma FreePathJoins(path: Path, sep: string)
    requires FreePath(path, sep)
    ensures PathKey(path, "", sep) == JoinWith(path, sep)
  {
    assert path[0] in path && path == [path[0]] + path[1..];
    PathKeyJoins(path[1..], path[0], sep);
  }

  lemma Overlap(s: string, sep: string, i: nat, j: nat)
    requires OccursAt(s, sep, i) && OccursAt(s, sep, j) && i < j < i + |sep|
    ensures Border(sep, i + |sep| - j)
  {
    var k := i + |sep| - j;
    assert sep[..k] == s[j..j + |sep|][..k] == s[j..i + |sep|];
    assert sep[j - i..] == s[i..i + |sep|][j - i..] == s[j..i + |sep|];
  }

  lemma JoinStarts(path: Path, sep: string)
    requires path != []
    ensures path[0] <= JoinWith(path, sep)
    ensures |path| == 1 ==> JoinWith(path, sep) == path[0]
    ensures |path| > 1 ==>
      OccursAt(JoinWith(path, sep), sep, |path[0]|)
      && JoinWith(path, sep)[|path[0]| + |sep|..] == JoinWith(path[1..], sep)
  {}

  /** The first keys of equal joins: a shorter one would put the separator across the end of the longer one. */
  lemma FirstNotShorter(p: Path, q: Path, sep: string)
    requires FreePath(p, sep) && FreePath(q, sep) && JoinWith(p, sep) == JoinWith(q, sep)
    requires forall k: nat :: !Border(sep, k)
    ensures |p[0]| >= |q[0]|
  {
    var s, a, b := JoinWith(p, sep), p[0], q[0];
    JoinStarts(p, sep);
    JoinStarts(q, sep);
    assert b in q && FreeOf(b, sep) && b == s[..|b|];
    if |a| < |b| {
      assert |p| > 1;
      if |a| + |sep| <= |b| {
        assert b[|a|..|a| + |sep|] == s[|a|..|a| + |sep|];
        assert OccursAt(b, sep, |a|);
      } else if |q| > 1 {
        Overlap(s, sep, |a|, |b|);
      }
    }
  }

  lemma {:induction false} JoinInjective(p: Path, q: Path, sep: string)
    requires sep != "" && FreePath(p, sep) && FreePath(q, sep) && JoinWith(p, sep) == JoinWith(q, sep)
    requires forall k: nat :: !Border(sep, k)
    ensures p == q
    decreases |p|
  {
    FirstNotShorter(p, q, sep);
    FirstNotShorter(q, p, sep);
    JoinStarts(p, sep);
    JoinStarts(q, sep);
    assert p[0] == JoinWith(p, sep)[..|p[0]|] == q[0];
    assert p == [p[0]] + p[1..] && q == [q[0]] + q[1..];
    assert forall k :: k in p[1..] ==> k in p;
    assert forall k :: k in q[1..] ==> k in q;
    if |p| > 1 && |q| > 1 { JoinInjective(p[1..], q[1..], sep); }
  }

  lemma ShortFree(s: string, sep: string)
    requires |s| <= |sep| && s != sep && sep != ""
    ensures FreeOf(s, sep)
  {
    assert s[0..|s|] == s;
  }

  lemma PairKey(a: string, b: string, sep: string)
    requires sep != "" && a != "" && b != "" && FreeOf(a, sep) && FreeOf(b, sep)
    ensures FreePath([a, b], sep) && PathKey([a, b], "", sep) == a + (sep + b)
  {
    FreePathJoins([a, b], sep);
    assert [a, b][1..] == [b];
    Associate(a, sep, b);
  }

  lemma Shift(sep: string, k: nat)
    requires Border(sep, k)
    ensures sep[..|sep| - k] + sep == sep + sep[k..]
  {
    assert sep == sep[..k] + sep[k..] && sep == sep[..|sep| - k] + sep[|sep| - k..];
    Associate(sep[..|sep| - k], sep[..k], sep[k..]);
  }

  /** With a border, the key `x` above `sep[k..] + y` collides with `x + sep[..|sep| - k]` above `y`. */
  lemma BorderCollides(sep: string, k: nat) returns (p: Path, q: Path)
    requires Border(sep, k)
    ensures FreePath(p, sep) && FreePath(q, sep) && p != q && PathKey(p, "", sep) == PathKey(q, "", sep)
  {
    hide FreeOf;
    var x := if sep[0] == 'x' then "y" else "x";
    var y := if sep[|sep| - 1] == 'x' then "y" else "x";
    var left, right := sep[..|sep| - k], sep[k..];
    p, q := [x + left, y], [x, right + y];
    assert (x + left)[0] != sep[0] && (right + y)[|right|] != sep[|sep| - 1];
    ShortFree(x, sep);
    ShortFree(y, sep);
    ShortFree(x + left, sep);
    ShortFree(right + y, sep);
    PairKey(x + left, y, sep);
    PairKey(x, right + y, sep);
    Shift(sep, k);
    Associate(x, left, sep + y);
    Associate(left, sep, y);
    Associate(sep, right, y);
  }

  /**
   * Distinct paths of non-empty keys without the separator have distinct flat keys exactly when the
   * separator has no border; a separator of one character has none.
   */
  lemma SeparatorTellsApart(sep: string)
    requires sep != ""
    ensures TellsApart(sep) <==> forall k: nat :: !Border(sep, k)
    ensures |sep| == 1 ==> TellsApart(sep)
  {
    if k: nat :| Border(sep, k) {
      var p, q := BorderCollides(sep, k);
      assert !TellsApart(sep);
    } else {
      forall p, q | FreePath(p, sep) && FreePath(q, sep) && PathKey(p, "", sep) == PathKey(q, "", sep) ensures p == q {
        FreePathJoins(p, sep);
        FreePathJoins(q, sep);
        JoinInjective(p, q, sep);
      }
    }
  }

  /** A payload whose two leaves share a flat key, although no key holds the separator of two characters. */
  lemma LongSeparatorCollides()
    ensures
      var data: Entries<int> := [("a_", Dict([("b", Leaf(1))])), ("a", Dict([("_b", Leaf(2))]))];
      WellFormed(data) && |LeafPaths(data)| == 2 && Flatten(data, "", "__") == [("a___b", 2)]
  {
    var data: Entries<int> := [("a_", Dict([("b", Leaf(1))])), ("a", Dict([("_b", Leaf(2))]))];
    var d0, d1: Entries<int> := [("b", Leaf(1))], [("_b", Leaf(2))];
    assert data[1..] == [("a", Dict(d1))] && data[1..][1..] == [];
    assert WellFormed(d0) && WellFormed(d1);
    assert LeafPaths(d0) == [(["b"], 1)] && LeafPaths(d1) == [(["_b"], 2)];
    assert d0[1..] == [] && d1[1..] == [];
    assert "a_" + "__" + "b" == "a___b" && "a" + "__" + "_b" == "a___b";
    assert FlattenItems(d0, "a_", "__") == [("a___b", 1)];
    assert FlattenItems(d1, "a", "__") == [("a___b", 2)];
    assert FlattenItem(data[0], "", "__") == [("a___b", 1)];
    assert FlattenItem(data[1], "", "__") == [("a___b", 2)];
    assert FlattenItems(data[1..], "", "__") == [("a___b", 2)];
    var items := FlattenItems(data, "", "__");
    assert items == [("a___b", 1), ("a___b", 2)] && items[1..] == [("a___b", 2)];
  }
}
