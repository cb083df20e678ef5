/** The product list: active products, newest first, in pages that look one row ahead. */
module Catalog {
  import opened Ordering
  import opened Arithmetic

  datatype Status = Active | Hidden | Deleted

  datatype Product = Product(id: nat, category: nat, name: string, price: int, status: Status, updatedAt: nat)

  /** ORDER BY updated_at DESC, id DESC. */
  predicate Newer(a: Product, b: Product) {
    a.updatedAt > b.updatedAt || (a.updatedAt == b.updatedAt && a.id > b.id)
  }

  /** The products table, keyed by id. */
  predicate TableOk(table: map<nat, Product>) {
    forall k | k in table :: table[k].id == k
  }

  function ActiveSet(table: map<nat, Product>): set<Product> {
    set k | k in table && table[k].status == Active :: table[k]
  }

  lemma ActiveTotal(table: map<nat, Product>)
    requires TableOk(table)
    ensures TotalOn(ActiveSet(table), Newer)
  {
  }

  /** The whole list a visitor pages through. */
  function ActiveList(table: map<nat, Product>): seq<Product>
    requires TableOk(table)
  {
    ActiveTotal(table);
    SortBy(ActiveSet(table), Newer)
  }

  /** LIMIT limit OFFSET offset */
  function Window(all: seq<Product>, limit: nat, offset: nat): seq<Product> {
    if offset >= |all| then [] else if offset + limit >= |all| then all[offset..] else all[offset..offset + limit]
  }

  const DEFAULT_PER_PAGE := 20

  function PageNumber(page: int): nat { if page <= 0 then 1 else page }

  function PerPage(perPage: int): (n: nat)
    ensures n >= 1
  {
    if perPage <= 0 then DEFAULT_PER_PAGE else perPage
  }

  function Offset(page: nat, perPage: nat): nat
    requires page >= 1
  {
    (page - 1) * perPage
  }

  datatype Page = Page(products: seq<Product>, hasNext: bool)

  /** What a page holds: at most `perPage` rows from its offset on, and whether rows remain after them. */
  function PageOf(all: seq<Product>, page: int, perPage: int): Page {
    var n, offset := PerPage(perPage), Offset(PageNumber(page), PerPage(perPage));
    Page(Window(all, n, offset), offset + n < |all|)
  }

  /** One row more than a page tells whether rows remain, and without that row it is the page. */
  lemma ExtraRow(all: seq<Product>, n: nat, offset: nat)
    ensures |Window(all, n + 1, offset)| > n <==> offset + n < |all|
    ensures Window(all, n, offset) ==
      if |Window(all, n + 1, offset)| > n then Window(all, n + 1, offset)[..n] else Window(all, n + 1, offset)
  {
  }

  /** The query asks for one row more than a page and the extra row is cut off again. */
  method ListProducts(all: seq<Product>, page: int, perPage: int) returns (r: Page)
    ensures r == PageOf(all, page, perPage)
  {
    var number := if page <= 0 then 1 else page;
    var n := if perPage <= 0 then DEFAULT_PER_PAGE else perPage;
    var offset := (number - 1) * n;
    assert offset == Offset(PageNumber(page), PerPage(perPage));
    ExtraRow(all, n, offset);
    var rows := Window(all, n + 1, offset);
    var products: seq<Product> := [];
    for i := 0 to |rows|
      invariant products == rows[..i]
    {
      products := products + [rows[i]];
    }
    assert rows[..|rows|] == rows;
    var hasNext := |products| > n;
    if hasNext {
      products := products[..n];
    }
    r := Page(products, hasNext);
  }

  /** The pages a visitor sees who follows the next link from page `page` on. */
  function Follow(all: seq<Product>, page: nat, perPage: int): seq<seq<Product>>
    requires page >= 1
    decreases |all| - Offset(page, PerPage(perPage))
  {
    var r := PageOf(all, page, perPage);
    OneMore(page - 1, PerPage(perPage));
    if r.hasNext then [r.products] + Follow(all, page + 1, perPage) else [r.products]
  }

  function Flat(pages: seq<seq<Product>>): seq<Product> {
    if pages == [] then [] else pages[0] + Flat(pages[1..])
  }

  function CeilDiv(n: nat, d: nat): nat
    requires d > 0
  {
    (n + d - 1) / d
  }

  lemma NextOffset(page: nat, n: nat)
    requires page >= 1
    ensures Offset(page + 1, n) == Offset(page, n) + n && (page == 1 ==> Offset(page, n) == 0)
  {
    OneMore(page - 1, n);
  }

  lemma CeilDivLess(m: nat, n: nat)
    requires n > 0 && m > n
    ensures CeilDiv(m, n) == 1 + CeilDiv(m - n, n)
  {
    QuotientPlusOne(m - 1, n);
  }

  lemma CeilDivOne(m: nat, n: nat)
    requires 0 < m <= n
    ensures CeilDiv(m, n) == 1
  {
    QuotientOf(m + n - 1, n, 1, m - 1);
  }

  lemma FlatCons(first: seq<Product>, rest: seq<seq<Product>>)
    ensures Flat([first] + rest) == first + Flat(rest)
  {
    assert ([first] + rest)[1..] == rest;
  }

  lemma PageThenRest(all: seq<Product>, from: nat, to: nat, more: seq<seq<Product>>)
    requires from <= to <= |all| && Flat(more) == all[to..]
    ensures Flat([all[from..to]] + more) == all[from..]
  {
    FlatCons(all[from..to], more);
    assert all[from..] == all[from..to] + all[to..];
  }

  /** A page is the rows from its offset up to the next page's, or up to the end. */
  lemma PageAt(all: seq<Product>, page: nat, perPage: int, offset: nat)
    requires page >= 1 && offset == Offset(page, PerPage(perPage)) && offset <= |all|
    ensures var r, n := PageOf(all, page, perPage), PerPage(perPage);
      && r.hasNext == (offset + n < |all|)
      && r.products == if r.hasNext then all[offset..offset + n] else all[offset..]
  {
  }

  lemma FollowOne(all: seq<Product>, page: nat, perPage: int)
    requires page >= 1
    ensures var r := PageOf(all, page, perPage);
      Follow(all, page, perPage) == [r.products] + if r.hasNext then Follow(all, page + 1, perPage) else []
  {
  }

  /** A page and the pages after it hold everything from its offset on. */
  lemma {:induction false} FollowRest(all: seq<Product>, page: nat, perPage: int, offset: nat)
    requires page >= 1 && offset == Offset(page, PerPage(perPage)) && (page == 1 || offset < |all|)
    ensures offset <= |all| && Flat(Follow(all, page, perPage)) == all[offset..]
    decreases |all| - offset
  {
    var n, r := PerPage(perPage), PageOf(all, page, perPage);
    NextOffset(page, n);
    PageAt(all, page, perPage, offset);
    FollowOne(all, page, perPage);
    if r.hasNext {
      FollowRest(all, page + 1, perPage, offset + n);
      PageThenRest(all, offset, offset + n, Follow(all, page + 1, perPage));
    } else {
      FlatCons(r.products, []);
    }
  }

  lemma {:induction false} FollowCount(all: seq<Product>, page: nat, perPage: int, offset: nat)
    requires page >= 1 && offset == Offset(page, PerPage(perPage)) && (page == 1 || offset < |all|) && offset <= |all|
    ensures |Follow(all, page, perPage)| == (if |all| == offset then 1 else CeilDiv(|all| - offset, PerPage(perPage)))
    decreases |all| - offset
  {
    var n := PerPage(perPage);
    NextOffset(page, n);
    if PageOf(all, page, perPage).hasNext {
      FollowCount(all, page + 1, perPage, offset + n);
      CeilDivLess(|all| - offset, n);
    } else if |all| > offset {
      CeilDivOne(|all| - offset, n);
    }
  }

  /** Every page but the last is full, and the last is not over-full. */
  lemma {:induction false} FollowSizes(all: seq<Product>, page: nat, perPage: int, offset: nat)
    requires page >= 1 && offset == Offset(page, PerPage(perPage)) && (page == 1 || offset < |all|) && offset <= |all|
    ensures var pages, n := Follow(all, page, perPage), PerPage(perPage);
      && pages != [] && |pages[|pages| - 1]| <= n && forall k | 0 <= k < |pages| - 1 :: |pages[k]| == n
    decreases |all| - offset
  {
    var n, r := PerPage(perPage), PageOf(all, page, perPage);
    NextOffset(page, n);
    PageAt(all, page, perPage, offset);
    FollowOne(all, page, perPage);
    if r.hasNext {
      FollowSizes(all, page + 1, perPage, offset + n);
    }
  }

  lemma ActiveListed(table: map<nat, Product>)
    requires TableOk(table)
    ensures var all := ActiveList(table);
      && (forall p :: p in all <==> p.id in table && table[p.id] == p && p.status == Active)
      && (forall i, j | 0 <= i < j < |all| ::
            all[i].updatedAt > all[j].updatedAt || (all[i].updatedAt == all[j].updatedAt && all[i].id > all[j].id))
  {
    ActiveTotal(table);
    var all := ActiveList(table);
    forall i, j | 0 <= i < j < |all|
      ensures all[i].updatedAt > all[j].updatedAt || (all[i].updatedAt == all[j].updatedAt && all[i].id > all[j].id)
    {
      assert Newer(all[i], all[j]);
    }
  }

  /**
   Paging partitions the list: following the next link from page 1 over a fixed table ends after
   max(1, ceil(n / perPage)) pages, all full but the last, and the pages put together are the active products, newest
   first and by descending id within one update time, and so each exactly once.
   */
  lemma {:induction false} PagesPartition(table: map<nat, Product>, perPage: int)
    requires TableOk(table)
    ensures var pages := Follow(ActiveList(table), 1, perPage);
      var shown, n := Flat(pages), if perPage <= 0 then 20 else perPage;
      && (forall p :: p in shown <==> p.id in table && table[p.id] == p && p.status == Active)
      && (forall i, j | 0 <= i < j < |shown| ::
            shown[i].updatedAt > shown[j].updatedAt
            || (shown[i].updatedAt == shown[j].updatedAt && shown[i].id > shown[j].id))
      && |pages| == (if |shown| == 0 then 1 else (|shown| + n - 1) / n)
      && |pages[|pages| - 1]| <= n && (forall k | 0 <= k < |pages| - 1 :: |pages[k]| == n)
  {
    var all := ActiveList(table);
    ActiveListed(table);
    NextOffset(1, PerPage(perPage));
    FollowRest(all, 1, perPage, 0);
    FollowCount(all, 1, perPage, 0);
    FollowSizes(all, 1, perPage, 0);
    assert all[0..] == all;
  }
}
