/** A table of beans (`UITable`) over pages of a list (`PageList`); without a filter the list of the
    pages is the very array of the table. */
module Table {
  import opened Wrappers
  import opened Lists

  /** An object `{bean: ...}` made by the table. */
  type Item = nat

  type Bean = int

  // ----- pages of a list -----

  /** `Math.ceil(available / size)`, and one page when there is nothing. */
  function Pages(available: nat, size: nat): nat
    requires size > 0
  {
    if available == 0 then 1 else (available + size - 1) / size
  }

  /** As many pages as it takes, and no more. */
  lemma PagesRoundUp(available: nat, size: nat)
    requires size > 0 && available > 0
    ensures (Pages(available, size) - 1) * size < available <= Pages(available, size) * size
  {
    var p := Pages(available, size);
    assert available + size - 1 == p * size + (available + size - 1) % size;
    assert (p - 1) * size == p * size - size;
  }

  function From(page: nat, size: nat): int { (page - 1) * size }

  function To(page: nat, size: nat, available: nat): int {
    if page * size > available then available else page * size
  }

  function Min(a: nat, b: nat): nat { if a <= b then a else b }

  /** What a page shows. */
  function Page(list: seq<Item>, page: nat, size: nat): seq<Item>
    requires size > 0 && 1 <= page <= Pages(|list|, size)
  {
    PageBounds(page, size, |list|);
    list[From(page, size)..To(page, size, |list|)]
  }

  lemma PageBounds(page: nat, size: nat, available: nat)
    requires size > 0 && 1 <= page <= Pages(available, size)
    ensures 0 <= From(page, size) <= To(page, size, available) <= available
    ensures available > 0 ==> From(page, size) < available
    ensures page < Pages(available, size) ==> To(page, size, available) == page * size == From(page + 1, size)
    ensures page == Pages(available, size) ==> To(page, size, available) == available
  {
    if available > 0 {
      var p := Pages(available, size);
      assert available + size - 1 == p * size + (available + size - 1) % size;
      assert (p - 1) * size == p * size - size;
      Times(page, p, size);
      if page < p { Times(page, p - 1, size); }
      assert (page - 1) * size == page * size - size;
    }
  }

  lemma Times(a: nat, b: nat, k: nat)
    requires a <= b
    ensures a * k <= b * k
  {
    assert b * k - a * k == (b - a) * k;
  }

  /** The pages 1 to n, one after the other. */
  function FirstPages(list: seq<Item>, n: nat, size: nat): seq<Item>
    requires size > 0 && n <= Pages(|list|, size)
  {
    if n == 0 then [] else FirstPages(list, n - 1, size) + Page(list, n, size)
  }

  /** Every item is on exactly one page: the pages in order are the list. */
  lemma PagesCover(list: seq<Item>, size: nat)
    requires size > 0
    ensures FirstPages(list, Pages(|list|, size), size) == list
  {
    FirstPagesAre(list, Pages(|list|, size), size);
    PageBounds(Pages(|list|, size), size, |list|);
  }

  lemma {:induction false} FirstPagesAre(list: seq<Item>, n: nat, size: nat)
    requires size > 0 && n <= Pages(|list|, size)
    ensures n > 0 ==> 0 <= To(n, size, |list|) <= |list|
    ensures FirstPages(list, n, size) == if n == 0 then [] else list[..To(n, size, |list|)]
  {
    if n > 0 {
      FirstPagesAre(list, n - 1, size);
      PageBounds(n, size, |list|);
      if n > 1 { PageBounds(n - 1, size, |list|); }
    }
  }

  // ----- arrays -----

  class JsArray {
    var items: seq<Item>

    constructor (items: seq<Item>)
      ensures this.items == items
    {
      this.items := items;
    }

    /** `splice(i, 1)`. */
    method Splice(i: int)
      modifies this
      ensures items == Spliced(old(items), i)
    {
      items := Spliced(items, i);
    }

    /** `indexOf`, -1 when there is no such item. */
    method IndexOf(item: Item) returns (index: int)
      ensures index >= 0 <==> item in items
      ensures index >= 0 ==> index < |items| && items[index] == item
    {
      index := 0;
      while index < |items|
        invariant 0 <= index <= |items| && item !in items[..index]
      {
        if items[index] == item { return; }
        index := index + 1;
      }
      index := -1;
    }
  }

  /** Where `splice` starts in an array of n items: a negative index counts from the end. */
  function Hit(n: nat, i: int): nat {
    if i >= 0 then i else if n + i >= 0 then n + i else 0
  }

  /** Past the end nothing is removed. */
  function Spliced(s: seq<Item>, i: int): seq<Item> {
    var k := Hit(|s|, i);
    if k < |s| then s[..k] + s[k + 1..] else s
  }

  // ----- PageList -----

  class PageList {
    var list: JsArray
    var available: nat
    var pageSize: nat
    var availablePage: nat
    var currentPage: nat
    // None is null
    var currentListPage: Option<seq<Item>>

    ghost predicate Valid()
      reads this, list
    {
      && pageSize > 0 && available == |list.items| && availablePage == Pages(available, pageSize)
      && 1 <= currentPage <= availablePage
      && (currentListPage.Some? ==> currentListPage.value == Page(list.items, currentPage, pageSize))
    }

    constructor (pageSize: nat, list: JsArray)
      requires pageSize > 0
      ensures Valid() && this.list == list && this.pageSize == pageSize && currentPage == 1 && currentListPage == None
    {
      this.list := list;
      this.pageSize := pageSize;
      available, availablePage, currentPage, currentListPage := |list.items|, 1, 1, None;
      new;
      SetAvailablePage(|list.items|);
    }

    method SetAvailablePage(n: nat)
      requires pageSize > 0
      modifies this`available, this`availablePage, this`currentPage, this`currentListPage
      ensures available == n && availablePage == Pages(n, pageSize) >= 1 && currentPage == 1 && currentListPage == None
      ensures if n == 0 then availablePage == 1
              else (availablePage - 1) * pageSize < n <= availablePage * pageSize
    {
      if n > 0 { PagesRoundUp(n, pageSize); }
      available := n;
      if n == 0 {
        availablePage := 1;
        currentPage := 1;
      } else {
        availablePage := (n + pageSize - 1) / pageSize;
        AtLeastOnePage(n, pageSize);
        currentPage := 1;
      }
      currentListPage := None;
    }

    method SetPageSize(size: nat)
      requires Valid() && size > 0
      modifies this`pageSize, this`available, this`availablePage, this`currentPage, this`currentListPage
      ensures Valid() && pageSize == size && currentPage == 1 && currentListPage == None
    {
      pageSize := size;
      SetAvailablePage(available);
    }

    /** `getPage`; not ok when the source throws. */
    method GetPage(page: int) returns (ok: bool)
      requires Valid()
      modifies this`currentPage, this`currentListPage
      ensures Valid() && ok == (1 <= page <= availablePage)
      ensures ok ==> currentPage == page && currentListPage == Some(Page(list.items, page, pageSize))
      ensures !ok ==> currentPage == old(currentPage) && currentListPage == old(currentListPage)
    {
      if page < 1 || page > availablePage { return false; }
      currentPage := page;
      PopulateCurrentPage();
      ok := true;
    }

    /** `slice(getFrom(), getTo())`. */
    method PopulateCurrentPage()
      requires pageSize > 0 && available == |list.items| && 1 <= currentPage <= Pages(available, pageSize)
      modifies this`currentListPage
      ensures currentListPage == Some(Page(list.items, currentPage, pageSize))
    {
      PageBounds(currentPage, pageSize, available);
      currentListPage := Some(list.items[From(currentPage, pageSize)..To(currentPage, pageSize, available)]);
    }

    method CurrentPageItems() returns (page: seq<Item>)
      requires Valid()
      modifies this`currentListPage
      ensures Valid() && page == Page(list.items, currentPage, pageSize) && currentListPage == Some(page)
    {
      if currentListPage.None? { PopulateCurrentPage(); }
      page := currentListPage.value;
    }

    /** `getItemOnCurrentPage`; None is undefined. */
    method GetItem(idx: int) returns (item: Option<Item>)
      requires currentListPage.Some?
      ensures item == if 0 <= idx < |currentListPage.value| then Some(currentListPage.value[idx]) else None
    {
      item := if 0 <= idx < |currentListPage.value| then Some(currentListPage.value[idx]) else None;
    }

    /** One item goes from the list, and the page shown is the same or, if that is gone, the last. */
    method RemoveItemOnCurrentPage(idx: int)
      requires Valid()
      modifies this`available, this`availablePage, this`currentPage, this`currentListPage, list
      ensures Valid() && list.items == Spliced(old(list.items), From(old(currentPage), pageSize) + idx)
      ensures currentPage == Min(old(currentPage), availablePage)
      ensures currentListPage == Some(Page(list.items, currentPage, pageSize))
    {
      var realIdx := From(currentPage, pageSize) + idx;
      var cpage := currentPage;
      list.Splice(realIdx);
      SetAvailablePage(|list.items|);
      if availablePage < cpage { cpage := availablePage; }
      var ok := GetPage(cpage);
    }
  }

  lemma AtLeastOnePage(n: nat, size: nat)
    requires size > 0
    ensures Pages(n, size) >= 1
  {
    if n > 0 {
      var p := (n + size - 1) / size;
      assert n + size - 1 == p * size + (n + size - 1) % size;
      assert p <= 0 ==> p * size <= 0;
    }
  }

  // ----- UITable -----

  /** The items whose bean does not pass the filter. */
  function Rejected(beanOf: map<Item, Bean>, test: Bean -> bool): set<Item> {
    set c | c in beanOf && !test(beanOf[c])
  }

  /** The list that the pages show: the items of the table that pass its filter, in the same order. */
  lemma ShowsFiltered(t: UITable)
    requires t.Valid()
    ensures var list, items := t.pageList.list.items, t.stateBeans.items;
            && NoDup(list)
            && (forall c :: c in list <==>
                  c in items && (t.filter.None? || (c in t.beanOf && t.filter.value(t.beanOf[c]))))
            && forall c, d :: c in list && d in list ==> (Before(list, c, d) <==> Before(items, c, d))
  {
    if t.filter.Some? {
      WithoutMembers(t.stateBeans.items, Rejected(t.beanOf, t.filter.value));
      WithoutOrder(t.stateBeans.items, Rejected(t.beanOf, t.filter.value));
    }
    hide Without, Before;
  }

  class UITable {
    var stateBeans: JsArray
    var pageSize: nat
    var pageList: PageList
    var beanOf: map<Item, Bean>
    var nextItem: Item
    // the filter of the list that the pages show
    ghost var filter: Option<Bean -> bool>

    ghost predicate Valid()
      reads this, stateBeans, pageList, pageList.list
    {
      && pageSize > 0 && NoDup(stateBeans.items) && (forall c :: c in stateBeans.items ==> c in beanOf)
      && (forall c :: c in beanOf ==> c < nextItem)
      && pageList.Valid()
      && match filter
         case None => pageList.list == stateBeans
         case Some(test) =>
           && pageList.list != stateBeans
           && pageList.list.items == Without(stateBeans.items, Rejected(beanOf, test))
    }

    /** `setBeans` on a new table. */
    constructor (beans: seq<Bean>, pageSize: nat, test: Option<Bean -> bool>)
      requires pageSize > 0
      ensures Valid() && fresh(stateBeans) && fresh(pageList) && fresh(pageList.list)
      ensures |stateBeans.items| == |beans| && filter == test && this.pageSize == pageSize
      ensures pageList.pageSize == pageSize && pageList.currentPage == 1
      ensures forall i :: 0 <= i < |beans| ==> beanOf[stateBeans.items[i]] == beans[i]
    {
      var empty := new JsArray([]);
      var pages := new PageList(pageSize, empty);
      stateBeans, pageList, this.pageSize, beanOf, nextItem, filter := empty, pages, pageSize, map[], 0, None;
      new;
      for i := 0 to |beans|
        invariant fresh(stateBeans) && fresh(this) && pageList == pages && this.pageSize == pageSize
        invariant stateBeans == empty && |stateBeans.items| == i && NoDup(stateBeans.items)
        invariant nextItem == i && (forall c: Item :: c in beanOf <==> c < i)
        invariant forall k :: 0 <= k < i ==> stateBeans.items[k] == k && beanOf[k] == beans[k]
      {
        Push(beans[i]);
      }
      Filter(test);
    }

    /** `state.beans.push({bean: bean})`. */
    method Push(bean: Bean)
      requires nextItem !in beanOf
      modifies this`beanOf, this`nextItem, stateBeans
      ensures stateBeans.items == old(stateBeans.items) + [old(nextItem)]
      ensures beanOf == old(beanOf)[old(nextItem) := bean] && nextItem == old(nextItem) + 1
    {
      stateBeans.items := stateBeans.items + [nextItem];
      beanOf := beanOf[nextItem := bean];
      nextItem := nextItem + 1;
    }

    /** `_filter`: the pages show the array of the table itself, or a new one. */
    method Filter(test: Option<Bean -> bool>)
      requires pageSize > 0 && NoDup(stateBeans.items) && (forall c :: c in stateBeans.items ==> c in beanOf)
      requires forall c :: c in beanOf ==> c < nextItem
      modifies this`pageList, this`filter
      ensures Valid() && filter == test && fresh(pageList) && (test.Some? ==> fresh(pageList.list))
      ensures forall c :: c in pageList.list.items <==>
                c in stateBeans.items && (test.None? || test.value(beanOf[c]))
      ensures pageList.currentPage == 1 && pageList.pageSize == pageSize
    {
      filter := test;
      match test
      case Some(passes) =>
        var holder := [];
        ghost var rejected := Rejected(beanOf, passes);
        for i := 0 to |stateBeans.items|
          invariant holder == Without(stateBeans.items[..i], rejected)
        {
          assert stateBeans.items[..i + 1][..i] == stateBeans.items[..i];
          if passes(beanOf[stateBeans.items[i]]) { holder := holder + [stateBeans.items[i]]; }
        }
        assert stateBeans.items[..|stateBeans.items|] == stateBeans.items;
        WithoutMembers(stateBeans.items, rejected);
        var list := new JsArray(holder);
        pageList := new PageList(pageSize, list);
      case None =>
        pageList := new PageList(pageSize, stateBeans);
    }

    /** `addBean`. */
    method AddBean(bean: Bean, test: Option<Bean -> bool>)
      requires Valid()
      modifies this, stateBeans
      ensures Valid() && filter == test && fresh(pageList)
      ensures exists item :: item !in old(beanOf) && stateBeans.items == old(stateBeans.items) + [item]
                             && beanOf == old(beanOf)[item := bean]
    {
      Push(bean);
      assert stateBeans.items[..|stateBeans.items| - 1] == old(stateBeans.items);
      Filter(test);
    }

    /** `onSelectPage`. */
    method SelectPage(page: int)
      requires Valid()
      modifies pageList`currentPage, pageList`currentListPage
      ensures Valid()
      ensures pageList.currentPage == if 1 <= page <= pageList.availablePage then page else old(pageList.currentPage)
    {
      if page < 1 { return; }
      if page > pageList.availablePage { return; }
      var ok := pageList.GetPage(page);
    }

    /** `onSelectDisplayRow`: only the pages shown now get the new size; `_filter` uses that of the table. */
    method SelectDisplayRow(size: nat)
      requires Valid() && size > 0
      modifies pageList
      ensures Valid() && pageList.pageSize == size && pageList.currentPage == 1
    {
      pageList.SetPageSize(size);
    }

    /** `removeItemOnCurrentPage`; not ok when the source throws because no page has been populated. */
    method RemoveItemOnCurrentPage(idx: int) returns (ok: bool)
      requires Valid()
      modifies stateBeans, pageList, pageList.list
      ensures ok == old(pageList.currentListPage.Some?)
      ensures !ok ==> unchanged(stateBeans) && unchanged(pageList) && unchanged(pageList.list)
      // a row that is shown: exactly its item goes
      ensures ok && 0 <= idx < |old(pageList.currentListPage.value)| ==>
                && Valid()
                && stateBeans.items == Without(old(stateBeans.items), {old(pageList.currentListPage.value)[idx]})
      // any other row: an item of another page goes, if there is one, and with a filter it stays in the table
      ensures ok && !(0 <= idx < |old(pageList.currentListPage.value)|) ==>
                var at := From(old(pageList.currentPage), pageList.pageSize) + idx;
                && pageList.list.items == Spliced(old(pageList.list.items), at)
                && (filter.Some? ==> stateBeans.items == old(stateBeans.items))
                && (Valid() <==> filter.None? || Hit(|old(pageList.list.items)|, at) >= |old(pageList.list.items)|)
      // the page shown is the same or, if that is gone, the last
      ensures ok ==> pageList.Valid() && pageList.currentListPage.Some?
                     && pageList.currentPage == Min(old(pageList.currentPage), pageList.availablePage)
    {
      hide *;
      ok := pageList.currentListPage.Some?;
      if ok { RemoveRow(idx); }
    }

    method RemoveRow(idx: int)
      requires Valid() && pageList.currentListPage.Some?
      modifies stateBeans, pageList, pageList.list
      ensures 0 <= idx < |old(pageList.currentListPage.value)| ==>
                && Valid()
                && stateBeans.items == Without(old(stateBeans.items), {old(pageList.currentListPage.value)[idx]})
      ensures !(0 <= idx < |old(pageList.currentListPage.value)|) ==>
                var at := From(old(pageList.currentPage), pageList.pageSize) + idx;
                && pageList.list.items == Spliced(old(pageList.list.items), at)
                && (filter.Some? ==> stateBeans.items == old(stateBeans.items))
                && (Valid() <==> filter.None? || Hit(|old(pageList.list.items)|, at) >= |old(pageList.list.items)|)
      ensures pageList.Valid() && pageList.currentListPage.Some?
              && pageList.currentPage == Min(old(pageList.currentPage), pageList.availablePage)
    {
      hide Without, NoDup, Spliced, Hit, Rejected, PageList.Valid, From, Min, Page, Pages;
      ghost var beans, list := stateBeans.items, pageList.list.items;
      ghost var rejected := if filter.Some? then Rejected(beanOf, filter.value) else {};
      ghost var at := From(pageList.currentPage, pageList.pageSize) + idx;
      Shown(pageList, idx);
      if filter.Some? { RemovedFromList(beans, rejected, at); } else { RemovedFromArray(beans, at); }
      var item := pageList.GetItem(idx);
      pageList.RemoveItemOnCurrentPage(idx);
      if item.Some? {
        RemoveFromState(item.value);
        assert Valid();
      } else {
        assert Valid() <==> filter.None? || Hit(|list|, at) >= |list|;
      }
    }

    /** Removes an item from the array, if it is still there. */
    method RemoveFromState(item: Item)
      requires NoDup(stateBeans.items)
      modifies stateBeans
      ensures stateBeans.items == Without(old(stateBeans.items), {item}) && NoDup(stateBeans.items)
      ensures forall c :: c in stateBeans.items ==> c in old(stateBeans.items)
      ensures item !in old(stateBeans.items) ==> unchanged(stateBeans)
    {
      ghost var beans := stateBeans.items;
      WithoutMembers(beans, {item});
      var index := stateBeans.IndexOf(item);
      if index >= 0 {
        RemovedFromArray(beans, index);
        stateBeans.Splice(index);
      } else {
        WithoutOthers(beans, {item});
      }
    }
  }

  /** Removing an item from the list of a filter is filtering the array without it. */
  lemma RemovedFromList(beans: seq<Item>, rejected: set<Item>, at: int)
    requires NoDup(beans)
    ensures var list := Without(beans, rejected);
            var k := Hit(|list|, at);
            if k < |list|
            then && list[k] in beans && Spliced(list, at) != list
                 && Spliced(list, at) == Without(Without(beans, {list[k]}), rejected)
            else Spliced(list, at) == list
  {
    hide Without, NoDup;
    var list := Without(beans, rejected);
    var k := Hit(|list|, at);
    WithoutMembers(beans, rejected);
    if k < |list| {
      var gone := {list[k]};
      RemovedFromArray(list, at);
      WithoutTwice(beans, rejected, gone);
      WithoutTwice(beans, gone, rejected);
      assert rejected + gone == gone + rejected;
      hide Spliced, Hit;
      assert list[k] in list && list[k] !in Spliced(list, at);
    }
  }

  /** Removing an item from the array. */
  lemma RemovedFromArray(beans: seq<Item>, i: int)
    requires NoDup(beans)
    ensures NoDup(Spliced(beans, i)) && forall c :: c in Spliced(beans, i) ==> c in beans
    ensures var k := Hit(|beans|, i);
            k < |beans| ==> Spliced(beans, i) == Without(beans, {beans[k]}) && beans[k] !in Spliced(beans, i)
  {
    hide Without, NoDup;
    var k := Hit(|beans|, i);
    if k < |beans| {
      SpliceIsWithout(beans, k);
      WithoutMembers(beans, {beans[k]});
      assert Spliced(beans, i) == Without(beans, {beans[k]});
    }
  }

  /** The item in a row of the page shown. */
  lemma Shown(pages: PageList, idx: int)
    requires pages.Valid() && pages.currentListPage.Some?
    ensures var at := From(pages.currentPage, pages.pageSize) + idx;
            var n := |pages.list.items|;
            && pages.pageSize > 0
            && (0 <= idx < |pages.currentListPage.value| ==>
                  0 <= at == Hit(n, at) < n && pages.currentListPage.value[idx] == pages.list.items[at])
  {
    PageBounds(pages.currentPage, pages.pageSize, |pages.list.items|);
  }

  /** With a filter and one row to a page, removing the row below the one shown takes its item from the
      list, but not from the table. */
  method RowBelow() returns (t: UITable)
    ensures |t.stateBeans.items| == 2 && |t.pageList.list.items| == 1 && !t.Valid()
  {
    t := new UITable([10, 20], 1, Some(b => true));
    AllPass(t.stateBeans.items, t.beanOf);
    var page := t.pageList.CurrentPageItems();
    hide NoDup, Without, Rejected;
    var ok := t.RemoveItemOnCurrentPage(1);
  }

  lemma AllPass(items: seq<Item>, beanOf: map<Item, Bean>)
    ensures Without(items, Rejected(beanOf, b => true)) == items
  {
    WithoutOthers(items, Rejected(beanOf, b => true));
  }

  /** The size of the pages that was chosen is forgotten when the filter is used. */
  method PageSizeForgotten() returns (t: UITable)
    ensures t.Valid() && t.pageList.pageSize == 10
  {
    t := new UITable([], 10, None);
    t.SelectDisplayRow(50);
    assert t.pageList.pageSize == 50;
    t.Filter(None);
  }
}
