/** The paging of PIIResultsTable
 *  (src/Features/AutoAnonymize/Components/PIIResultsTable.tsx): the found PII
 *  tags are shown four to a page, with Previous and Next buttons that clamp
 *  the page number to the pages there are. */
module PiiResultsTable {
  import opened Wrappers
  import opened JsBytes

  const ItemsPerPage: nat := 4

  /** `Math.ceil(PII.length / itemsPerPage)`. */
  function TotalPages(count: nat): (pages: nat)
    ensures pages * ItemsPerPage >= count
    ensures count > 0 ==> (pages - 1) * ItemsPerPage < count
    ensures count == 0 ==> pages == 0
  {
    (count + ItemsPerPage - 1) / ItemsPerPage
  }

  /** The items of a page: `PII.slice(startIndex, endIndex)`. */
  function PageItems<T>(pii: seq<T>, page: int): (items: seq<T>)
    ensures |items| <= ItemsPerPage
    ensures 1 <= page <= TotalPages(|pii|) ==>
      var start := (page - 1) * ItemsPerPage;
      start < |pii| && items == pii[start..if start + ItemsPerPage < |pii| then start + ItemsPerPage else |pii|]
    ensures page > TotalPages(|pii|) ==> items == []
  {
    var startIndex := (page - 1) * ItemsPerPage;
    var endIndex := startIndex + ItemsPerPage;
    Slice(pii, startIndex, endIndex)
  }

  /** What the table shows: the page's rows, whether the pager is there, and
   *  whether each button is disabled. */
  datatype PageView<T> = PageView(
    items: seq<T>,
    firstIndex: int,
    pager: bool,
    prevDisabled: bool,
    nextDisabled: bool,
    totalPages: nat)

  /** The component's output; None is the `null` of an empty PII list. */
  function Render<T>(pii: seq<T>, currentPage: int): (view: Option<PageView<T>>)
    ensures view.None? <==> pii == []
    ensures view.Some? ==> (view.value.pager <==> |pii| > ItemsPerPage)
    ensures view.Some? ==> view.value.items == PageItems(pii, currentPage)
    ensures view.Some? ==> view.value.firstIndex == (currentPage - 1) * ItemsPerPage
    ensures view.Some? ==> (view.value.prevDisabled <==> currentPage == 1)
    ensures view.Some? ==> (view.value.nextDisabled <==> currentPage == TotalPages(|pii|))
  {
    var totalPages := TotalPages(|pii|);
    if |pii| == 0 then None
    else
      var startIndex := (currentPage - 1) * ItemsPerPage;
      Some(PageView(PageItems(pii, currentPage), startIndex, |pii| > ItemsPerPage,
                    currentPage == 1, currentPage == totalPages, totalPages))
  }

  /** A row shown at position i of the page is the PII item at the index the
   *  row is keyed with. */
  lemma RowIndexIsItemIndex<T>(pii: seq<T>, page: int, i: nat)
    requires 1 <= page <= TotalPages(|pii|)
    requires i < |PageItems(pii, page)|
    ensures (page - 1) * ItemsPerPage + i < |pii|
    ensures PageItems(pii, page)[i] == pii[(page - 1) * ItemsPerPage + i]
  {
  }

  /** The pages before the given one, joined. */
  function PagesUpTo<T>(pii: seq<T>, pages: nat): (r: seq<T>)
  {
    if pages == 0 then [] else PagesUpTo(pii, pages - 1) + PageItems(pii, pages)
  }

  /** The number of items on the first pages. */
  function Shown(pages: nat, count: nat): (r: nat)
  {
    if pages * ItemsPerPage < count then pages * ItemsPerPage else count
  }

  /** Leafing through the first pages shows their items once each, in order. */
  lemma {:induction false} PagesCoverPrefix<T>(pii: seq<T>, pages: nat)
    requires pages <= TotalPages(|pii|)
    ensures PagesUpTo(pii, pages) == pii[..Shown(pages, |pii|)]
  {
    if pages > 0 {
      PagesCoverPrefix(pii, pages - 1);
      var start := (pages - 1) * ItemsPerPage;
      var end := Shown(pages, |pii|);
      assert PageItems(pii, pages) == pii[start..end];
      assert pii[..start] + pii[start..end] == pii[..end];
    }
  }

  /** Leafing through all pages shows every item once, in order. */
  lemma PagesShowEverything<T>(pii: seq<T>)
    ensures PagesUpTo(pii, TotalPages(|pii|)) == pii
  {
    PagesCoverPrefix(pii, TotalPages(|pii|));
    assert pii[..|pii|] == pii;
  }

  /** Previous: `Math.max(prev - 1, 1)`. */
  function PrevPage(page: int): (r: int)
    ensures r >= 1
    ensures page > 1 ==> r == page - 1
    ensures page <= 1 ==> r == 1
  {
    if page - 1 > 1 then page - 1 else 1
  }

  /** Next: `Math.min(prev + 1, totalPages)`. */
  function NextPage(page: int, totalPages: nat): (r: int)
    ensures r <= totalPages
    ensures page < totalPages ==> r == page + 1
    ensures page >= totalPages ==> r == totalPages
  {
    if page + 1 < totalPages then page + 1 else totalPages
  }

  /** Both buttons keep the page between 1 and the number of pages. */
  lemma PagerKeepsRange(page: int, totalPages: nat)
    requires 1 <= page <= totalPages
    ensures 1 <= PrevPage(page) <= totalPages
    ensures 1 <= NextPage(page, totalPages) <= totalPages
    ensures PrevPage(NextPage(page, totalPages)) <= page
  {
  }

  /** The component with its `currentPage` state; `pii` is the prop of the
   *  latest render. */
  class Pager<T> {
    var pii: seq<T>
    var currentPage: int

    /** The page is one that exists. */
    predicate InRange()
      reads this
    {
      1 <= currentPage <= TotalPages(|pii|)
    }

    constructor(pii: seq<T>)
      ensures this.pii == pii && currentPage == 1
      ensures pii != [] ==> InRange()
    {
      this.pii := pii;
      currentPage := 1;
    }

    method HandlePrevPage()
      modifies this
      ensures pii == old(pii) && currentPage == PrevPage(old(currentPage))
      ensures old(InRange()) ==> InRange()
    {
      currentPage := PrevPage(currentPage);
    }

    method HandleNextPage()
      modifies this
      ensures pii == old(pii) && currentPage == NextPage(old(currentPage), TotalPages(|pii|))
      ensures old(InRange()) ==> InRange()
    {
      var totalPages := TotalPages(|pii|);
      currentPage := NextPage(currentPage, totalPages);
    }

    /** A new render with other props keeps the page number. */
    method Rerender(pii: seq<T>)
      modifies this
      ensures this.pii == pii && currentPage == old(currentPage)
    {
      this.pii := pii;
    }
  }

  /** When the list shrinks under a page, that page shows no rows. */
  lemma ShrunkListShowsNothing<T>(pii: seq<T>, page: int)
    requires pii != [] && page > TotalPages(|pii|)
    ensures Render(pii, page).Some? && Render(pii, page).value.items == []
  {
  }
}
