/** Python's insertion-ordered `dict`, as a sequence of pairs. */
module OrderedDict {

  predicate Has<T>(d: seq<(string, T)>, key: string) {
    d != [] && (d[0].0 == key || Has(d[1..], key))
  }

  predicate DistinctKeys<T>(d: seq<(string, T)>) {
    d == [] || (!Has(d[1..], d[0].0) && DistinctKeys(d[1..]))
  }

  /** `d[key] = value`: a present key keeps its place, a new key goes last. */
  function SetItem<T>(d: seq<(string, T)>, key: string, value: T): seq<(string, T)> {
    if d == [] then [(key, value)]
    else if d[0].0 == key then [(key, value)] + d[1..]
    else [d[0]] + SetItem(d[1..], key, value)
  }

  /** Setting every item in turn, from the left. */
  function Update<T>(d: seq<(string, T)>, items: seq<(string, T)>): seq<(string, T)>
    decreases |items|
  {
    if items == [] then d
    else Update(SetItem(d, items[0].0, items[0].1), items[1..])
  }

  /** `dict(items)` */
  function DictOf<T>(items: seq<(string, T)>): seq<(string, T)> {
    Update([], items)
  }

  // ----- what setting one item does

  lemma {:induction false} SetItemHas<T>(d: seq<(string, T)>, key: string, value: T, k: string)
    ensures Has(SetItem(d, key, value), k) <==> k == key || Has(d, k)
  {
    if d != [] && d[0].0 != key {
      SetItemHas(d[1..], key, value, k);
      assert SetItem(d, key, value)[1..] == SetItem(d[1..], key, value);
    }
  }

  lemma {:induction false} SetItemNew<T>(d: seq<(string, T)>, key: string, value: T)
    requires !Has(d, key)
    ensures SetItem(d, key, value) == d + [(key, value)]
  {
    if d != [] {
      SetItemNew(d[1..], key, value);
      assert d == [d[0]] + d[1..];
    }
  }

  lemma {:induction false} SetItemDistinct<T>(d: seq<(string, T)>, key: string, value: T)
    requires DistinctKeys(d)
    ensures DistinctKeys(SetItem(d, key, value))
  {
    if d != [] && d[0].0 != key {
      SetItemDistinct(d[1..], key, value);
      SetItemHas(d[1..], key, value, d[0].0);
      assert SetItem(d, key, value)[1..] == SetItem(d[1..], key, value);
    }
  }

  lemma {:induction false} SetItemTwice<T>(d: seq<(string, T)>, key: string, v: T, w: T)
    ensures SetItem(SetItem(d, key, v), key, w) == SetItem(d, key, w)
  {
    if d != [] && d[0].0 != key {
      SetItemTwice(d[1..], key, v, w);
      assert SetItem(d, key, v)[1..] == SetItem(d[1..], key, v);
    }
  }

  lemma {:induction false} SetItemCommutes<T>(d: seq<(string, T)>, k: string, v: T, l: string, w: T)
    requires Has(d, k) && k != l
    ensures SetItem(SetItem(d, l, w), k, v) == SetItem(SetItem(d, k, v), l, w)
  {
    var dk, dl := SetItem(d, k, v), SetItem(d, l, w);
    if d[0].0 == k {
      assert dk[1..] == d[1..] && dl[1..] == SetItem(d[1..], l, w);
    } else if d[0].0 == l {
      assert dl[1..] == d[1..] && dk[1..] == SetItem(d[1..], k, v);
    } else {
      SetItemCommutes(d[1..], k, v, l, w);
      assert dk[1..] == SetItem(d[1..], k, v) && dl[1..] == SetItem(d[1..], l, w);
    }
  }

  // ----- what updating does

  lemma {:induction false} UpdateDistinct<T>(d: seq<(string, T)>, items: seq<(string, T)>)
    requires DistinctKeys(d)
    ensures DistinctKeys(Update(d, items))
    decreases |items|
  {
    if items != [] {
      SetItemDistinct(d, items[0].0, items[0].1);
      UpdateDistinct(SetItem(d, items[0].0, items[0].1), items[1..]);
    }
  }

  lemma {:induction false} UpdateConcat<T>(d: seq<(string, T)>, a: seq<(string, T)>, b: seq<(string, T)>)
    ensures Update(d, a + b) == Update(Update(d, a), b)
    decreases |a|
  {
    if a == [] {
      assert a + b == b;
    } else {
      assert (a + b)[1..] == a[1..] + b;
      UpdateConcat(SetItem(d, a[0].0, a[0].1), a[1..], b);
    }
  }

  /** A key that is already there can be set before or after items with other keys. */
  lemma {:induction false} SetThenUpdate<T>(d: seq<(string, T)>, items: seq<(string, T)>, k: string, v: T)
    requires Has(d, k) && !Has(items, k)
    ensures SetItem(Update(d, items), k, v) == Update(SetItem(d, k, v), items)
    decreases |items|
  {
    if items != [] {
      var (l, w) := items[0];
      SetItemHas(d, l, w, k);
      SetItemCommutes(d, k, v, l, w);
      SetThenUpdate(SetItem(d, l, w), items[1..], k, v);
    }
  }

  lemma {:induction false} UpdateSetItem<T>(d: seq<(string, T)>, e: seq<(string, T)>, k: string, v: T)
    requires DistinctKeys(e)
    ensures Update(d, SetItem(e, k, v)) == SetItem(Update(d, e), k, v)
    decreases |e|
  {
    if e == [] {
    } else if e[0].0 == k {
      var d' := SetItem(d, k, e[0].1);
      SetItemHas(d, k, e[0].1, k);
      SetThenUpdate(d', e[1..], k, v);
      SetItemTwice(d, k, e[0].1, v);
      assert SetItem(e, k, v)[1..] == e[1..];
    } else {
      UpdateSetItem(SetItem(d, e[0].0, e[0].1), e[1..], k, v);
      assert SetItem(e, k, v)[1..] == SetItem(e[1..], k, v);
    }
  }

  /** Removing duplicates from the items first changes nothing. */
  lemma {:induction false} UpdateUpdate<T>(d: seq<(string, T)>, e: seq<(string, T)>, items: seq<(string, T)>)
    requires DistinctKeys(e)
    ensures Update(d, Update(e, items)) == Update(Update(d, e), items)
    decreases |items|
  {
    if items != [] {
      SetItemDistinct(e, items[0].0, items[0].1);
      UpdateUpdate(d, SetItem(e, items[0].0, items[0].1), items[1..]);
      UpdateSetItem(d, e, items[0].0, items[0].1);
    }
  }

  /** An inner `dict()` is absorbed by the outer one. */
  lemma DictOfAbsorbs<T>(a: seq<(string, T)>, b: seq<(string, T)>, c: seq<(string, T)>)
    ensures DictOf(a + DictOf(b) + c) == DictOf(a + b + c)
  {
    UpdateConcat([], a + DictOf(b), c);
    UpdateConcat([], a, DictOf(b));
    UpdateUpdate(DictOf(a), [], b);
    UpdateConcat([], a, b);
    UpdateConcat([], a + b, c);
  }

  lemma {:induction false} UpdateFresh<T>(d: seq<(string, T)>, items: seq<(string, T)>)
    requires DistinctKeys(items) && forall i :: 0 <= i < |items| ==> !Has(d, items[i].0)
    ensures Update(d, items) == d + items
    decreases |items|
  {
    if items != [] {
      var (k, v) := items[0];
      assert !Has(d, items[0].0);
      SetItemNew(d, k, v);
      forall i | 0 <= i < |items[1..]| ensures !Has(SetItem(d, k, v), items[1..][i].0) {
        SetItemHas(d, k, v, items[1..][i].0);
        HasAt(items[1..], i);
        assert items[1..][i] == items[i + 1];
      }
      UpdateFresh(SetItem(d, k, v), items[1..]);
      assert d + [(k, v)] + items[1..] == d + items;
    } else {
      assert d + items == d;
    }
  }

  lemma {:induction false} HasAt<T>(d: seq<(string, T)>, i: nat)
    requires i < |d|
    ensures Has(d, d[i].0)
  {
    if i > 0 { HasAt(d[1..], i - 1); }
  }

  /** A dict is rebuilt unchanged from its own items. */
  lemma DictOfDict<T>(items: seq<(string, T)>)
    requires DistinctKeys(items)
    ensures DictOf(items) == items
  {
    UpdateFresh([], items);
  }

  // ----- the reference: first position, last value

  /** The keys in the order in which they first occur. */
  function FirstKeys<T>(items: seq<(string, T)>): seq<string> {
    if items == [] then []
    else
      var keys, k := FirstKeys(items[..|items| - 1]), items[|items| - 1].0;
      if k in keys then keys else keys + [k]
  }

  /** The value next to the last occurrence of `key`. */
  function LastValue<T>(items: seq<(string, T)>, key: string): T
    requires Has(items, key)
  {
    if Has(items[1..], key) then LastValue(items[1..], key) else items[0].1
  }

  function Get<T>(d: seq<(string, T)>, key: string): T
    requires Has(d, key)
  {
    if d[0].0 == key then d[0].1 else Get(d[1..], key)
  }

  function KeyOrder<T>(d: seq<(string, T)>): seq<string> {
    if d == [] then [] else [d[0].0] + KeyOrder(d[1..])
  }

  lemma {:induction false} KeyOrderHas<T>(d: seq<(string, T)>, k: string)
    ensures k in KeyOrder(d) <==> Has(d, k)
  {
    if d != [] { KeyOrderHas(d[1..], k); }
  }

  lemma {:induction false} KeyOrderSetItem<T>(d: seq<(string, T)>, k: string, v: T)
    ensures KeyOrder(SetItem(d, k, v)) == if Has(d, k) then KeyOrder(d) else KeyOrder(d) + [k]
  {
    if d != [] {
      var s := SetItem(d, k, v);
      if d[0].0 == k {
        assert s[1..] == d[1..];
      } else {
        KeyOrderSetItem(d[1..], k, v);
        assert s[1..] == SetItem(d[1..], k, v);
      }
    }
  }

  lemma {:induction false} GetSetItem<T>(d: seq<(string, T)>, k: string, v: T, l: string)
    requires l == k || Has(d, l)
    ensures Has(SetItem(d, k, v), l) && Get(SetItem(d, k, v), l) == if l == k then v else Get(d, l)
  {
    SetItemHas(d, k, v, l);
    if d != [] && d[0].0 != k {
      var s := SetItem(d, k, v);
      assert s[1..] == SetItem(d[1..], k, v);
      if d[0].0 != l { GetSetItem(d[1..], k, v, l); }
    }
  }

  lemma {:induction false} UpdateGet<T>(d: seq<(string, T)>, items: seq<(string, T)>, k: string)
    requires Has(d, k) || Has(items, k)
    ensures Has(Update(d, items), k)
    ensures Get(Update(d, items), k) == if Has(items, k) then LastValue(items, k) else Get(d, k)
    decreases |items|
  {
    if items != [] {
      var (l, w) := items[0];
      SetItemHas(d, l, w, k);
      UpdateGet(SetItem(d, l, w), items[1..], k);
      if !Has(items[1..], k) { GetSetItem(d, l, w, k); }
    }
  }

  lemma {:induction false} DictOfOrder<T>(items: seq<(string, T)>)
    ensures KeyOrder(DictOf(items)) == FirstKeys(items)
  {
    if items != [] {
      var n := |items| - 1;
      var front, last := items[..n], items[n];
      DictOfOrder(front);
      assert items == front + [last];
      UpdateConcat([], front, [last]);
      assert Update(DictOf(front), [last]) == SetItem(DictOf(front), last.0, last.1);
      KeyOrderSetItem(DictOf(front), last.0, last.1);
      KeyOrderHas(DictOf(front), last.0);
    }
  }

  /** `dict(items)` lists each key once, at its first place and with its last value. */
  lemma DictOfMeaning<T>(items: seq<(string, T)>, k: string)
    ensures DistinctKeys(DictOf(items)) && KeyOrder(DictOf(items)) == FirstKeys(items)
    ensures Has(DictOf(items), k) <==> Has(items, k)
    ensures Has(items, k) ==> Get(DictOf(items), k) == LastValue(items, k)
  {
    UpdateDistinct([], items);
    DictOfOrder(items);
    if Has(items, k) {
      UpdateGet([], items, k);
    } else if Has(DictOf(items), k) {
      KeyOrderHas(DictOf(items), k);
      FirstKeysHas(items, k);
    }
  }

  lemma {:induction false} FirstKeysHas<T>(items: seq<(string, T)>, k: string)
    requires k in FirstKeys(items)
    ensures Has(items, k)
  {
    var n := |items| - 1;
    if items[n].0 == k {
      HasAt(items, n);
    } else {
      FirstKeysHas(items[..n], k);
      HasConcat(items[..n], [items[n]], k);
      assert items == items[..n] + [items[n]];
    }
  }

  lemma {:induction false} HasConcat<T>(a: seq<(string, T)>, b: seq<(string, T)>, k: string)
    ensures Has(a + b, k) <==> Has(a, k) || Has(b, k)
  {
    if a == [] {
      assert a + b == b;
    } else {
      assert (a + b)[1..] == a[1..] + b;
      HasConcat(a[1..], b, k);
    }
  }
}
