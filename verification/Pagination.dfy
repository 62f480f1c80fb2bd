/** Page numbers with ellipses, page slices, and the pagination state. */
module Pagination {

  const MAX_VISIBLE_PAGES := 5

  // ----- page numbers

  /** The ellipsis at `i` (-1 on the left, -2 on the right) stands between two pages and hides at least one. */
  predicate HidesPages(pages: seq<int>, i: int)
    requires 0 <= i < |pages|
  {
    && 0 < i < |pages| - 1
    && ((pages[i] == -1 && i == 1) || (pages[i] == -2 && i == |pages| - 2))
    && 0 < pages[i - 1] && pages[i - 1] + 1 < pages[i + 1]
  }

  /** What a page list promises, whatever the current page is. */
  ghost predicate GoodPages(pages: seq<int>, current: int, total: int) {
    && 1 <= |pages| <= MAX_VISIBLE_PAGES + 4
    && pages[0] == 1 && pages[|pages| - 1] == total
    && (forall i :: 0 <= i < |pages| ==> 1 <= pages[i] <= total || HidesPages(pages, i))
    && (forall i :: 0 < i < |pages| && pages[i - 1] > 0 && pages[i] > 0 ==> pages[i] == pages[i - 1] + 1)
    && (forall p :: 1 <= p <= total && current - 2 <= p <= current + 2 ==> p in pages)
  }

  /** `from`, ..., `to` */
  function Range(from: int, to: int): (r: seq<int>)
    ensures |r| == if from > to then 0 else to - from + 1
    ensures forall i :: 0 <= i < |r| ==> r[i] == from + i
  {
    if from > to then [] else seq(to - from + 1, i requires i >= 0 => from + i)
  }

  lemma RangeHas(from: int, to: int, p: int)
    ensures p in Range(from, to) <==> from <= p <= to
  {
    if from <= p <= to { assert Range(from, to)[p - from] == p; }
  }

  function Head(start: int): seq<int> {
    if start <= 1 then [] else if start == 2 then [1] else [1, -1]
  }

  function Tail(end: int, total: int): seq<int> {
    if end >= total then [] else if end == total - 1 then [total] else [-2, total]
  }

  function Window(start: int, end: int, total: int): seq<int> {
    Head(start) + Range(start, end) + Tail(end, total)
  }

  predicate WindowBounds(start: int, end: int, total: int) {
    1 <= start <= end <= total && end - start < MAX_VISIBLE_PAGES
  }

  lemma WindowMiddle(start: int, end: int, total: int)
    requires WindowBounds(start, end, total)
    ensures
      var pages, h := Window(start, end, total), |Head(start)|;
      && |pages| == h + (end - start + 1) + |Tail(end, total)|
      && (forall i :: 0 <= i < h ==> pages[i] == Head(start)[i])
      && (forall i :: h <= i <= h + (end - start) ==> pages[i] == start + (i - h))
      && forall i :: h + (end - start) < i < |pages| ==> pages[i] == Tail(end, total)[i - h - (end - start + 1)]
  {}

  lemma WindowHides(start: int, end: int, total: int)
    requires WindowBounds(start, end, total)
    ensures
      var pages := Window(start, end, total);
      forall i :: 0 <= i < |pages| ==> 1 <= pages[i] <= total || HidesPages(pages, i)
  {
    hide Window;
    WindowMiddle(start, end, total);
  }

  lemma WindowSteps(start: int, end: int, total: int)
    requires WindowBounds(start, end, total)
    ensures
      var pages := Window(start, end, total);
      && pages[0] == 1 && pages[|pages| - 1] == total
      && forall i :: 0 < i < |pages| && pages[i - 1] > 0 && pages[i] > 0 ==> pages[i] == pages[i - 1] + 1
  {
    hide Window;
    WindowMiddle(start, end, total);
  }

  /** A window of neighbouring pages between its two ends is a good list. */
  lemma WindowIsGood(start: int, end: int, current: int, total: int)
    requires WindowBounds(start, end, total)
    requires (start == 1 || start <= current - 2) && (end == total || end >= current + 2)
    ensures GoodPages(Window(start, end, total), current, total)
  {
    hide Window;
    hide HidesPages;
    var pages, h := Window(start, end, total), |Head(start)|;
    WindowMiddle(start, end, total);
    WindowHides(start, end, total);
    WindowSteps(start, end, total);
    forall p | 1 <= p <= total && current - 2 <= p <= current + 2 ensures p in pages {
      assert pages[h + (p - start)] == p;
    }
  }

  lemma WindowHas(start: int, end: int, total: int)
    requires WindowBounds(start, end, total)
    ensures forall p :: start <= p <= end ==> p in Window(start, end, total)
  {
    hide Window;
    WindowMiddle(start, end, total);
    var pages, h := Window(start, end, total), |Head(start)|;
    forall p | start <= p <= end ensures p in pages {
      assert pages[h + (p - start)] == p;
    }
  }

  /** With more than five pages, the first of the five neighbouring ones that are shown. */
  function FirstShown(current: int, total: int): int {
    if current <= 2 then 1 else if current > total - 2 then total - 4 else current - 2
  }

  predicate ShowsFive(pages: seq<int>, current: int, total: int) {
    var first := FirstShown(current, total);
    first in pages && first + 1 in pages && first + 2 in pages && first + 3 in pages && first + 4 in pages
  }

  /** The pages pushed once the loop has passed page `last`. */
  function PushedTo(start: int, last: int): seq<int>
    decreases last - start + 1
  {
    if last < start then Head(start) else PushedTo(start, last - 1) + [last]
  }

  lemma {:induction false} PushedIsRange(start: int, last: int)
    requires last >= start - 1
    ensures PushedTo(start, last) == Head(start) + Range(start, last)
    decreases last - start + 1
  {
    if last >= start {
      PushedIsRange(start, last - 1);
      assert Range(start, last - 1) + [last] == Range(start, last);
    }
  }

  lemma NotYetPushed(start: int, i: int)
    requires 1 <= start <= i
    ensures i !in PushedTo(start, i - 1)
  {
    PushedIsRange(start, i - 1);
    RangeHas(start, i - 1, i);
  }

  lemma WindowParts(start: int, end: int, total: int)
    ensures Window(start, end, total) == Head(start) + Range(start, end) + Tail(end, total)
  {}

  lemma PushedIsGood(start: int, end: int, current: int, total: int)
    requires 1 <= start <= end <= total && end - start < MAX_VISIBLE_PAGES
    requires (start == 1 || start <= current - 2) && (end == total || end >= current + 2)
    ensures GoodPages(PushedTo(start, end) + Tail(end, total), current, total)
    ensures total > 5 && start == FirstShown(current, total) && end == start + 4 ==>
      ShowsFive(PushedTo(start, end) + Tail(end, total), current, total)
  {
    hide Window;
    hide GoodPages;
    PushedIsRange(start, end);
    WindowHas(start, end, total);
    assert PushedTo(start, end) + Tail(end, total) == Window(start, end, total) by { WindowParts(start, end, total); }
    WindowIsGood(start, end, current, total);
  }

  lemma AllPagesAreGood(current: int, total: int)
    requires 1 <= total <= MAX_VISIBLE_PAGES
    ensures GoodPages(Range(1, total), current, total)
    ensures forall p :: 1 <= p <= total ==> p in Range(1, total)
  {
    forall p | 1 <= p <= total ensures p in Range(1, total) { RangeHas(1, total, p); }
    WindowIsGood(1, total, current, total);
    assert [] + Range(1, total) + [] == Range(1, total);
  }

  method CalculatePageNumbers(currentPage: int, totalPages: int) returns (pages: seq<int>)
    ensures totalPages >= 1 ==> GoodPages(pages, currentPage, totalPages)
    ensures totalPages < 1 ==> pages == []
    ensures 1 <= totalPages <= 5 ==> forall p :: 1 <= p <= totalPages ==> p in pages
    ensures totalPages > 5 ==> ShowsFive(pages, currentPage, totalPages)
  {
    hide GoodPages;
    hide ShowsFive;
    if totalPages <= MAX_VISIBLE_PAGES {
      if totalPages >= 1 { AllPagesAreGood(currentPage, totalPages); }
      return Range(1, totalPages);
    }
    pages := [];
    var halfVisible := MAX_VISIBLE_PAGES / 2;
    var startPage := if 1 > currentPage - halfVisible then 1 else currentPage - halfVisible;
    var endPage := if totalPages < currentPage + halfVisible then totalPages else currentPage + halfVisible;
    if currentPage <= halfVisible {
      endPage := MAX_VISIBLE_PAGES;
    }
    if currentPage > totalPages - halfVisible {
      startPage := totalPages - MAX_VISIBLE_PAGES + 1;
    }
    if startPage > 1 {
      pages := pages + [1];
      if startPage > 2 {
        pages := pages + [-1];
      }
    }
    for i := startPage to endPage + 1
      invariant pages == PushedTo(startPage, i - 1)
    {
      NotYetPushed(startPage, i);
      if i > 0 && i <= totalPages && i !in pages {
        pages := pages + [i];
      }
    }
    ghost var window := pages;
    if endPage < totalPages {
      if endPage < totalPages - 1 {
        pages := pages + [-2];
      }
      pages := pages + [totalPages];
    }
    assert pages == window + Tail(endPage, totalPages);
    PushedIsGood(startPage, endPage, currentPage, totalPages);
  }

  // ----- pages and slices

  function CeilDiv(n: nat, d: nat): nat
    requires d >= 1
  {
    (n + d - 1) / d
  }

  function TotalPages(totalItems: nat, pageSize: nat): nat
    requires pageSize >= 1
  {
    if CeilDiv(totalItems, pageSize) > 1 then CeilDiv(totalItems, pageSize) else 1
  }

  function StartIndex(page: int, pageSize: int): int {
    (page - 1) * pageSize
  }

  function EndIndex(page: int, pageSize: int, totalItems: nat): int {
    if StartIndex(page, pageSize) + pageSize < totalItems then StartIndex(page, pageSize) + pageSize else totalItems
  }

  /** `data.slice(startIndex, endIndex)` for a page from 1 on. */
  function Slice<T>(data: seq<T>, page: nat, pageSize: nat): seq<T>
    requires page >= 1
  {
    var start, end := StartIndex(page, pageSize), EndIndex(page, pageSize, |data|);
    if 0 <= start <= end then data[start..end] else []
  }

  function Joined<T>(data: seq<T>, pageSize: nat, pages: nat): seq<T> {
    if pages == 0 then [] else Joined(data, pageSize, pages - 1) + Slice(data, pages, pageSize)
  }

  function Min(a: int, b: int): int {
    if a < b then a else b
  }

  lemma Cut<T>(data: seq<T>, a: nat, b: nat)
    requires a <= b <= |data|
    ensures data[..a] + data[a..b] == data[..b]
  {}

  lemma {:induction false} JoinedIsPrefix<T>(data: seq<T>, pageSize: nat, pages: nat)
    ensures 0 <= pages * pageSize
    ensures Joined(data, pageSize, pages) == data[..Min(pages * pageSize, |data|)]
  {
    if pages > 0 {
      JoinedIsPrefix(data, pageSize, pages - 1);
      assert pages * pageSize == (pages - 1) * pageSize + pageSize;
      Cut(data, Min((pages - 1) * pageSize, |data|), Min(pages * pageSize, |data|));
    }
  }

  lemma Times(a: nat, b: int, d: nat)
    requires a <= b
    ensures a * d <= b * d
  {}

  lemma CeilDivBounds(n: nat, d: nat)
    requires d >= 1
    ensures (CeilDiv(n, d) - 1) * d < n || n == 0
    ensures n <= CeilDiv(n, d) * d
  {}

  /** The number of pages is the least number, at least 1, whose pages can hold all items. */
  lemma TotalPagesSuffice(totalItems: nat, pageSize: nat, k: nat)
    requires pageSize >= 1
    ensures TotalPages(totalItems, pageSize) * pageSize >= totalItems
    ensures k >= 1 && k * pageSize >= totalItems ==> k >= TotalPages(totalItems, pageSize)
  {
    CeilDivBounds(totalItems, pageSize);
    var q := CeilDiv(totalItems, pageSize);
    if k < q { Times(k, q - 1, pageSize); }
    if q < 1 { assert q * pageSize == 0; }
  }

  /** The slices of all pages, joined, are the data: no gap, no overlap, nothing missing. */
  lemma SlicesCoverData<T>(data: seq<T>, pageSize: nat)
    requires pageSize >= 1
    ensures Joined(data, pageSize, TotalPages(|data|, pageSize)) == data
  {
    JoinedIsPrefix(data, pageSize, TotalPages(|data|, pageSize));
    TotalPagesSuffice(|data|, pageSize, 1);
    assert data[..|data|] == data;
  }

  /** No page is longer than the page size, and every page before the last is full. */
  lemma SliceLength<T>(data: seq<T>, page: nat, pageSize: nat)
    requires pageSize >= 1 && 1 <= page <= TotalPages(|data|, pageSize)
    ensures |Slice(data, page, pageSize)| <= pageSize
    ensures page < TotalPages(|data|, pageSize) ==> |Slice(data, page, pageSize)| == pageSize
  {
    TotalPagesSuffice(|data|, pageSize, page);
    assert page * pageSize == (page - 1) * pageSize + pageSize;
    assert (page - 1) * pageSize >= 0;
  }

  // ----- the state

  datatype Config = Config(initialPage: int, initialPageSize: nat, pageSizeOptions: seq<nat>)

  datatype State = State(currentPage: int, pageSize: nat, totalItems: nat)

  predicate ValidConfig(c: Config) {
    c.initialPageSize >= 1 && forall i :: 0 <= i < |c.pageSizeOptions| ==> c.pageSizeOptions[i] >= 1
  }

  datatype Action = SetPage(page: int) | SetPageSize(size: nat) | NextPage | PrevPage | Reset | DataChanges(totalItems: nat) | Clamp

  function Pages(s: State): nat
    requires s.pageSize >= 1
  {
    TotalPages(s.totalItems, s.pageSize)
  }

  function GoTo(s: State, page: int): State
    requires s.pageSize >= 1
  {
    var low := Min(page, Pages(s));
    s.(currentPage := if low > 1 then low else 1)
  }

  function ClampPage(s: State): State
    requires s.pageSize >= 1
  {
    if s.currentPage > Pages(s) then s.(currentPage := Pages(s)) else s
  }

  function Step(s: State, a: Action, c: Config): (r: State)
    requires ValidConfig(c) && s.pageSize >= 1
    ensures r.pageSize >= 1
  {
    match a
    case SetPage(page) => GoTo(s, page)
    case SetPageSize(size) => if size != s.pageSize && size in c.pageSizeOptions then s.(pageSize := size, currentPage := 1) else s
    case NextPage => if s.currentPage < Pages(s) then GoTo(s, s.currentPage + 1) else s
    case PrevPage => if s.currentPage > 1 then GoTo(s, s.currentPage - 1) else s
    case Reset => s.(currentPage := c.initialPage, pageSize := c.initialPageSize)
    case DataChanges(n) => s.(totalItems := n)
    case Clamp => ClampPage(s)
  }

  function Run(totalItems: nat, actions: seq<Action>, c: Config): (r: State)
    requires ValidConfig(c)
    ensures r.pageSize >= 1
    decreases |actions|
  {
    if actions == [] then State(c.initialPage, c.initialPageSize, totalItems)
    else Step(Run(totalItems, actions[..|actions| - 1], c), actions[|actions| - 1], c)
  }

  predicate InRange(s: State)
    requires s.pageSize >= 1
  {
    1 <= s.currentPage <= Pages(s)
  }

  lemma {:induction false} RunFromOne(totalItems: nat, actions: seq<Action>, c: Config)
    requires ValidConfig(c) && c.initialPage >= 1
    ensures Run(totalItems, actions, c).currentPage >= 1
    decreases |actions|
  {
    if actions != [] { RunFromOne(totalItems, actions[..|actions| - 1], c); }
  }

  ghost predicate AlwaysBack(totalItems: nat, c: Config)
    requires ValidConfig(c)
  {
    forall actions :: InRange(ClampPage(Run(totalItems, actions, c)))
  }

  /** Every run is back in range once the clamp effect has run exactly when the initial page is at least 1. */
  lemma ClampBringsBack(totalItems: nat, c: Config)
    requires ValidConfig(c)
    ensures AlwaysBack(totalItems, c) <==> c.initialPage >= 1
  {
    if c.initialPage >= 1 {
      forall actions ensures InRange(ClampPage(Run(totalItems, actions, c))) {
        RunFromOne(totalItems, actions, c);
      }
    } else {
      assert !InRange(ClampPage(Run(totalItems, [], c)));
    }
  }

  /**
   * From a page in range: `setPage` goes to the page asked for, or to the nearest one there is; next and
   * previous move by one and stop at the ends; an offered page size starts over at page 1.
   */
  lemma PageMoves(s: State, c: Config, page: int, size: nat, n: nat)
    requires ValidConfig(c) && s.pageSize >= 1 && InRange(s)
    ensures
      var last := TotalPages(s.totalItems, s.pageSize);
      && Step(s, SetPage(page), c) == s.(currentPage := if page < 1 then 1 else if page > last then last else page)
      && Step(s, NextPage, c) == s.(currentPage := if s.currentPage == last then last else s.currentPage + 1)
      && Step(s, PrevPage, c) == s.(currentPage := if s.currentPage == 1 then 1 else s.currentPage - 1)
      && Step(s, Clamp, c) == s
    ensures size in c.pageSizeOptions && size != s.pageSize ==> Step(s, SetPageSize(size), c) == s.(pageSize := size, currentPage := 1)
    ensures size !in c.pageSizeOptions || size == s.pageSize ==> Step(s, SetPageSize(size), c) == s
    ensures Step(s, Reset, c) == s.(currentPage := c.initialPage, pageSize := c.initialPageSize)
    ensures Step(s, DataChanges(n), c) == s.(totalItems := n)
  {}

  /** Only a change of the data and a reset can leave the range. */
  lemma StepInRange(s: State, a: Action, c: Config)
    requires ValidConfig(c) && s.pageSize >= 1 && (c.initialPage >= 1 ==> s.currentPage >= 1)
    ensures c.initialPage >= 1 ==> Step(s, a, c).currentPage >= 1
    ensures InRange(s) && !a.DataChanges? && !a.Reset? ==> InRange(Step(s, a, c))
    ensures a.SetPage? || (a.Clamp? && c.initialPage >= 1) ==> InRange(Step(s, a, c))
  {}

  /** The hook's state; with an initial page of at least 1 the page never falls below 1. */
  class UsePagination {
    var currentPage: int
    var pageSize: nat
    var totalItems: nat
    const config: Config

    constructor (config: Config, totalItems: nat)
      requires ValidConfig(config)
      ensures Valid() && this.config == config && Contents() == Run(totalItems, [], config)
    {
      this.config := config;
      currentPage, pageSize, this.totalItems := config.initialPage, config.initialPageSize, totalItems;
    }

    ghost predicate Valid()
      reads this
    {
      ValidConfig(config) && pageSize >= 1 && (config.initialPage >= 1 ==> currentPage >= 1)
    }

    ghost function Contents(): State
      reads this
    {
      State(currentPage, pageSize, totalItems)
    }

    method SetCurrentPage(page: int)
      requires Valid()
      modifies this`currentPage
      ensures Valid() && InRange(Contents()) && Contents() == GoTo(old(Contents()), page)
    {
      var totalPages := TotalPages(totalItems, pageSize);
      var capped := if page < totalPages then page else totalPages;
      var validPage := if 1 > capped then 1 else capped;
      if validPage != currentPage {
        currentPage := validPage;
      }
    }

    method Dispatch(a: Action)
      requires Valid()
      modifies this
      ensures Valid() && Contents() == Step(old(Contents()), a, config)
      ensures old(InRange(Contents())) && !a.DataChanges? && !a.Reset? ==> InRange(Contents())
      ensures a.SetPage? || (a.Clamp? && config.initialPage >= 1) ==> InRange(Contents())
    {
      StepInRange(Contents(), a, config);
      var totalPages := TotalPages(totalItems, pageSize);
      match a
      case SetPage(page) => SetCurrentPage(page);
      case SetPageSize(size) =>
        if size != pageSize && size in config.pageSizeOptions {
          pageSize := size;
          currentPage := 1;
        }
      case NextPage => if currentPage < totalPages { SetCurrentPage(currentPage + 1); }
      case PrevPage => if currentPage > 1 { SetCurrentPage(currentPage - 1); }
      case Reset =>
        currentPage := config.initialPage;
        pageSize := config.initialPageSize;
      case DataChanges(n) => totalItems := n;
      case Clamp => if currentPage > totalPages && totalPages > 0 { currentPage := totalPages; }
    }
  }
}
