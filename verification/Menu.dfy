/** Which menu entry a path name makes active: searches over the menu tree. */
module Menu {
  import opened Options

  /** An entry; a missing list of children is the empty list, which every search treats alike. */
  datatype MenuItem = MenuItem(title: string, path: Option<string>, children: seq<MenuItem>)

  predicate IsActive(path: Option<string>, pathname: string) {
    if path == Some("/") then pathname == "/"
    else path.Some? && path.value != "" && path.value <= pathname
  }

  /**
   * An entry without a path is never active, the entry of "/" only on "/" itself, and any other entry
   * on every path name that begins with its path.
   */
  lemma ActiveWhen(path: Option<string>, pathname: string)
    ensures path == None || path == Some("") ==> !IsActive(path, pathname)
    ensures path == Some("/") ==> (IsActive(path, pathname) <==> pathname == "/")
    ensures path.Some? && path.value != "" && path.value != "/" ==>
      (IsActive(path, pathname) <==> exists rest :: pathname == path.value + rest)
  {
    if path.Some? && path.value <= pathname { assert pathname == path.value + pathname[|path.value|..]; }
  }

  predicate HasActiveChild(children: seq<MenuItem>, pathname: string)
    decreases children, 0
  {
    children != [] && (IsItemActive(children[0], pathname) || HasActiveChild(children[1..], pathname))
  }

  predicate IsItemActive(item: MenuItem, pathname: string)
    decreases item, 1
  {
    IsActive(item.path, pathname) || HasActiveChild(item.children, pathname)
  }

  function GetCurrentItem(items: seq<MenuItem>, pathname: string): Option<MenuItem>
    decreases items, 0
  {
    if items == [] then None
    else
      var found := CurrentIn(items[0], pathname);
      if found.Some? then found else GetCurrentItem(items[1..], pathname)
  }

  /** The body of the loop of `getCurrentItem`. */
  function CurrentIn(item: MenuItem, pathname: string): Option<MenuItem>
    decreases item, 1
  {
    var childMatch :=
      if |item.children| > 0 then GetCurrentItem(item.children, pathname) else None;
    if IsActive(item.path, pathname) then (if childMatch.Some? then childMatch else Some(item)) else childMatch
  }

  function FindBreadcrumb(nodes: seq<MenuItem>, breadcrumb: seq<MenuItem>, pathname: string): seq<MenuItem>
    decreases nodes, 0
  {
    if nodes == [] then breadcrumb
    else
      var found := BreadcrumbIn(nodes[0], breadcrumb, pathname);
      if found.Some? then found.value else FindBreadcrumb(nodes[1..], breadcrumb, pathname)
  }

  /** The body of the loop of `findBreadcrumb`. */
  function BreadcrumbIn(item: MenuItem, breadcrumb: seq<MenuItem>, pathname: string): Option<seq<MenuItem>>
    decreases item, 1
  {
    var current := breadcrumb + [item];
    if IsActive(item.path, pathname) then Some(current)
    else if |item.children| > 0 then
      var child := FindBreadcrumb(item.children, current, pathname);
      if |child| > |current| then Some(child) else None
    else None
  }

  function GetBreadcrumb(items: seq<MenuItem>, pathname: string): seq<MenuItem> {
    FindBreadcrumb(items, [], pathname)
  }

  // ----- positions in the tree

  /** A position: the index in the root list, then the indices in the lists of children. */
  type Position = seq<nat>

  predicate IsPosition(items: seq<MenuItem>, p: Position)
    decreases |p|
  {
    p != [] && p[0] < |items| && (|p| == 1 || IsPosition(items[p[0]].children, p[1..]))
  }

  /** The items from the root list down to position `p`, each a child of the one before. */
  function Chain(items: seq<MenuItem>, p: Position): (r: seq<MenuItem>)
    requires IsPosition(items, p)
    ensures |r| == |p|
    decreases |p|
  {
    [items[p[0]]] + if |p| == 1 then [] else Chain(items[p[0]].children, p[1..])
  }

  function At(items: seq<MenuItem>, p: Position): MenuItem
    requires IsPosition(items, p)
  {
    Chain(items, p)[|p| - 1]
  }

  predicate ActiveAt(items: seq<MenuItem>, p: Position, pathname: string) {
    IsPosition(items, p) && IsActive(At(items, p).path, pathname)
  }

  /** Preorder: an ancestor comes before its descendants, an earlier sibling before a later one. */
  predicate Before(p: Position, q: Position)
    decreases |p|
  {
    q != [] && (p == [] || p[0] < q[0] || (p[0] == q[0] && Before(p[1..], q[1..])))
  }

  /** `p` is the first active position in preorder. */
  ghost predicate FirstActive(items: seq<MenuItem>, p: Position, pathname: string) {
    ActiveAt(items, p, pathname) && forall q :: ActiveAt(items, q, pathname) ==> q == p || Before(p, q)
  }

  /** `p` is active with nothing active below it, and of such positions the first in preorder. */
  ghost predicate FirstDeepest(items: seq<MenuItem>, p: Position, pathname: string) {
    && ActiveAt(items, p, pathname)
    && !HasActiveChild(At(items, p).children, pathname)
    && forall q :: ActiveAt(items, q, pathname) ==> q <= p || Before(p, q)
  }

  // ----- positions in a list and in its tail

  lemma InTail(items: seq<MenuItem>, q: Position)
    requires items != [] && q != [] && q[0] > 0
    ensures IsPosition(items, q) <==> IsPosition(items[1..], [q[0] - 1] + q[1..])
    ensures IsPosition(items, q) ==> Chain(items, q) == Chain(items[1..], [q[0] - 1] + q[1..])
  {}

  function Shift(p: Position): Position
    requires p != []
  {
    [p[0] + 1] + p[1..]
  }

  lemma ShiftInTail(items: seq<MenuItem>, p: Position)
    requires items != [] && IsPosition(items[1..], p)
    ensures IsPosition(items, Shift(p)) && Chain(items, Shift(p)) == Chain(items[1..], p)
  {}

  lemma InFirst(items: seq<MenuItem>, q: Position)
    requires items != [] && |q| > 1 && q[0] == 0
    ensures IsPosition(items, q) <==> IsPosition(items[0].children, q[1..])
    ensures IsPosition(items, q) ==> Chain(items, q) == [items[0]] + Chain(items[0].children, q[1..])
  {}

  lemma Down(items: seq<MenuItem>, p: Position)
    requires items != [] && IsPosition(items[0].children, p)
    ensures IsPosition(items, [0] + p) && Chain(items, [0] + p) == [items[0]] + Chain(items[0].children, p)
    ensures At(items, [0] + p) == At(items[0].children, p)
  {}

  // ----- the searches agree

  lemma {:induction false} SomethingActive(items: seq<MenuItem>, p: Position, pathname: string)
    requires ActiveAt(items, p, pathname)
    ensures HasActiveChild(items, pathname)
    decreases |p|, |items|
  {
    if p[0] > 0 {
      InTail(items, p);
      SomethingActive(items[1..], [p[0] - 1] + p[1..], pathname);
    } else if |p| > 1 {
      InFirst(items, p);
      SomethingActive(items[0].children, p[1..], pathname);
    }
  }

  /** The breadcrumb search finds the chain to the first active position, and extends nothing otherwise. */
  lemma {:induction false} BreadcrumbFinds(items: seq<MenuItem>, breadcrumb: seq<MenuItem>, pathname: string) returns (p: Position)
    ensures !HasActiveChild(items, pathname) ==> FindBreadcrumb(items, breadcrumb, pathname) == breadcrumb
    ensures HasActiveChild(items, pathname) ==>
      FirstActive(items, p, pathname) && FindBreadcrumb(items, breadcrumb, pathname) == breadcrumb + Chain(items, p)
    decreases items, 0
  {
    p := [];
    if items != [] {
      var first := BreadcrumbInFinds(items, breadcrumb, pathname);
      if IsItemActive(items[0], pathname) {
        p := first;
      } else {
        var r := BreadcrumbFinds(items[1..], breadcrumb, pathname);
        if HasActiveChild(items[1..], pathname) {
          p := Shift(r);
          ShiftInTail(items, r);
          forall q | ActiveAt(items, q, pathname) ensures q == p || Before(p, q) {
            var q' := ActiveInTail(items, q, pathname);
            ShiftBefore(r, q');
          }
        }
      }
    }
  }

  lemma NotInFirst(items: seq<MenuItem>, q: Position, pathname: string)
    requires items != [] && !IsItemActive(items[0], pathname) && ActiveAt(items, q, pathname)
    ensures q[0] > 0
  {
    if q[0] == 0 && |q| > 1 {
      InFirst(items, q);
      SomethingActive(items[0].children, q[1..], pathname);
    }
  }

  lemma ActiveInTail(items: seq<MenuItem>, q: Position, pathname: string) returns (q': Position)
    requires items != [] && !IsItemActive(items[0], pathname) && ActiveAt(items, q, pathname)
    ensures ActiveAt(items[1..], q', pathname) && q == Shift(q')
  {
    NotInFirst(items, q, pathname);
    InTail(items, q);
    q' := [q[0] - 1] + q[1..];
    assert q'[1..] == q[1..];
  }

  lemma ShiftBefore(p: Position, q: Position)
    requires p != [] && q != []
    ensures Before(p, q) ==> Before(Shift(p), Shift(q))
    ensures p <= q ==> Shift(p) <= Shift(q)
  {}

  lemma {:induction false} BreadcrumbInFinds(items: seq<MenuItem>, breadcrumb: seq<MenuItem>, pathname: string) returns (p: Position)
    requires items != []
    ensures BreadcrumbIn(items[0], breadcrumb, pathname).Some? <==> IsItemActive(items[0], pathname)
    ensures IsItemActive(items[0], pathname) ==>
      FirstActive(items, p, pathname) && BreadcrumbIn(items[0], breadcrumb, pathname) == Some(breadcrumb + Chain(items, p))
    decreases items[0], 1
  {
    var item := items[0];
    var current := breadcrumb + [item];
    p := [0];
    assert Chain(items, [0]) == [item];
    if !IsActive(item.path, pathname) {
      var r := BreadcrumbFinds(item.children, current, pathname);
      if HasActiveChild(item.children, pathname) {
        p := [0] + r;
        Down(items, r);
        assert current + Chain(item.children, r) == breadcrumb + Chain(items, p);
        forall q | ActiveAt(items, q, pathname) ensures q == p || Before(p, q) {
          if q[0] == 0 {
            InFirst(items, q);
            assert ActiveAt(item.children, q[1..], pathname);
            assert q == [0] + q[1..];
          }
        }
      }
    }
  }

  lemma {:induction false} CurrentFinds(items: seq<MenuItem>, pathname: string) returns (p: Position)
    ensures !HasActiveChild(items, pathname) ==> GetCurrentItem(items, pathname) == None
    ensures HasActiveChild(items, pathname) ==>
      FirstDeepest(items, p, pathname) && GetCurrentItem(items, pathname) == Some(At(items, p))
    decreases items, 0
  {
    p := [];
    if items != [] {
      var first := CurrentInFinds(items, pathname);
      if IsItemActive(items[0], pathname) {
        p := first;
      } else {
        var r := CurrentFinds(items[1..], pathname);
        if HasActiveChild(items[1..], pathname) {
          p := Shift(r);
          ShiftInTail(items, r);
          forall q | ActiveAt(items, q, pathname) ensures q <= p || Before(p, q) {
            var q' := ActiveInTail(items, q, pathname);
            ShiftBefore(r, q');
            ShiftBefore(q', r);
          }
        }
      }
    }
  }

  lemma {:induction false} CurrentInFinds(items: seq<MenuItem>, pathname: string) returns (p: Position)
    requires items != []
    ensures CurrentIn(items[0], pathname).Some? <==> IsItemActive(items[0], pathname)
    ensures IsItemActive(items[0], pathname) ==>
      FirstDeepest(items, p, pathname) && CurrentIn(items[0], pathname) == Some(At(items, p))
    decreases items[0], 1
  {
    var item := items[0];
    p := [0];
    assert Chain(items, [0]) == [item];
    var r := CurrentFinds(item.children, pathname);
    if HasActiveChild(item.children, pathname) {
      p := [0] + r;
      Down(items, r);
    }
    if IsItemActive(item, pathname) {
      forall q | ActiveAt(items, q, pathname) ensures q <= p || Before(p, q) {
        if q[0] == 0 {
          assert q == [0] + q[1..];
          if |q| > 1 {
            InFirst(items, q);
            assert ActiveAt(item.children, q[1..], pathname);
            SomethingActive(item.children, q[1..], pathname);
            FirstBefore(r, q[1..]);
          }
        }
      }
    }
  }

  lemma FirstBefore(p: Position, q: Position)
    ensures Before(p, q) ==> Before([0] + p, [0] + q)
    ensures q <= p ==> [0] + q <= [0] + p
  {}

  lemma {:induction false} BeforeOneWay(p: Position, q: Position)
    ensures !(Before(p, q) && Before(q, p)) && !Before(p, p)
    decreases |p|
  {
    if p != [] {
      BeforeOneWay(p[1..], if q == [] then [] else q[1..]);
    }
  }

  /**
   * The three searches agree on whether anything is active. The breadcrumb is the chain from the root
   * list to the first active position; the current item is the first active one with nothing active
   * below it, and the breadcrumb ends at it or at one of its ancestors.
   */
  lemma SearchesAgree(items: seq<MenuItem>, pathname: string) returns (first: Position, current: Position)
    ensures HasActiveChild(items, pathname) <==> GetCurrentItem(items, pathname).Some?
    ensures HasActiveChild(items, pathname) <==> GetBreadcrumb(items, pathname) != []
    ensures HasActiveChild(items, pathname) ==>
      && FirstActive(items, first, pathname) && GetBreadcrumb(items, pathname) == Chain(items, first)
      && FirstDeepest(items, current, pathname) && GetCurrentItem(items, pathname) == Some(At(items, current))
      && first <= current
  {
    first := BreadcrumbFinds(items, [], pathname);
    current := CurrentFinds(items, pathname);
    if HasActiveChild(items, pathname) {
      assert [] + Chain(items, first) == Chain(items, first);
      BeforeOneWay(first, current);
    }
  }

  /** Something is active exactly when some position of the tree is. */
  lemma ActiveSomewhere(items: seq<MenuItem>, pathname: string)
    ensures HasActiveChild(items, pathname) <==> exists p :: ActiveAt(items, p, pathname)
  {
    if p :| ActiveAt(items, p, pathname) { SomethingActive(items, p, pathname); }
    if HasActiveChild(items, pathname) { var first, current := SearchesAgree(items, pathname); }
  }

  /** There is only one first active position, and only one first deepest one. */
  lemma FirstIsUnique(items: seq<MenuItem>, p: Position, q: Position, pathname: string)
    ensures FirstActive(items, p, pathname) && FirstActive(items, q, pathname) ==> p == q
    ensures FirstDeepest(items, p, pathname) && FirstDeepest(items, q, pathname) ==> p == q
  {
    BeforeOneWay(p, q);
    if FirstDeepest(items, p, pathname) && FirstDeepest(items, q, pathname) && p != q {
      if q <= p && |q| < |p| { BelowIsActive(items, q, p, pathname); }
      if p <= q && |p| < |q| { BelowIsActive(items, p, q, pathname); }
    }
  }

  lemma {:induction false} BelowIsActive(items: seq<MenuItem>, q: Position, p: Position, pathname: string)
    requires IsPosition(items, q) && ActiveAt(items, p, pathname) && q <= p && |q| < |p|
    ensures HasActiveChild(At(items, q).children, pathname)
    decreases |q|
  {
    var children := items[q[0]].children;
    assert p[0] == q[0] && Chain(items, p) == [items[p[0]]] + Chain(children, p[1..]);
    assert ActiveAt(children, p[1..], pathname);
    if |q| == 1 {
      SomethingActive(children, p[1..], pathname);
    } else {
      BelowIsActive(children, q[1..], p[1..], pathname);
    }
  }
}
