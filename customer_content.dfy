/** The URL-state customer page: it shows one server page of customers, and its
    handlers navigate to `/pages/customer` with freshly built parameters. */
module CustomerContent {
  import opened Common
  import opened Records
  import opened ListEngine
  import opened QueryParams
  import opened Effects

  const CustomerPath := "/pages/customer"

  /** The first row number shown: 0 for an empty table, otherwise one past the rows of the earlier pages. */
  function From(count: nat, currentPage: nat, itemsPerPage: nat): (r: int)
    requires currentPage >= 1
    ensures r == 0 <==> count == 0
    ensures count > 0 ==> r == (currentPage - 1) * itemsPerPage + 1
  {
    var startIndex := (currentPage - 1) * itemsPerPage;
    if count == 0 then 0 else startIndex + 1
  }

  /** The last row number shown: the rows before this page plus the rows received, capped at the count. */
  function To(count: nat, currentPage: nat, itemsPerPage: nat, shown: nat): (r: int)
    requires currentPage >= 1
    ensures r <= count
    ensures r == Min((currentPage - 1) * itemsPerPage + shown, count)
  {
    var startIndex := (currentPage - 1) * itemsPerPage;
    Min(startIndex + shown, count)
  }

  /** When the page holds the rows `count` implies, the two numbers bracket exactly those rows. */
  lemma FromToCountRows(count: nat, currentPage: nat, itemsPerPage: nat)
    requires currentPage >= 1 && itemsPerPage > 0
    requires (currentPage - 1) * itemsPerPage < count
    ensures var shown := Min(itemsPerPage, count - (currentPage - 1) * itemsPerPage);
      To(count, currentPage, itemsPerPage, shown) - From(count, currentPage, itemsPerPage) + 1 == shown
  {
  }

  /** `editId ? customers.find(c => c.id === editId) : null`. */
  function EditingCustomer(customers: seq<Customer>, editId: Option<string>): (r: Option<Customer>)
    ensures editId.None? || editId.value == "" ==> r.None?
    ensures r.Some? ==> r.value in customers && r.value.id == editId.value
    ensures editId.Some? && editId.value != "" && r.None? ==> forall c :: c in customers ==> c.id != editId.value
    ensures r.Some? ==> exists i :: 0 <= i < |customers| && customers[i] == r.value && forall j :: 0 <= j < i ==> customers[j].id != editId.value
  {
    if editId.Some? && editId.value != "" then FindFirst(customers, (c: Customer) => c.id == editId.value) else None
  }

  // ---- how the handlers build parameters ----

  /** `...(searchFilter && { search: searchFilter })`: the pair only for a non-empty filter. */
  function SearchPart(search: string): (ps: ParamList)
    ensures search == "" ==> ps == []
    ensures search != "" ==> ps == [("search", search)]
  {
    if search != "" then [("search", search)] else []
  }

  /** `handleEdit`: page, search, `showForm=true` and the row's id, in that order. */
  function EditParams(currentPage: nat, search: string, rowId: string): ParamList {
    [("page", NatToString(currentPage))] + SearchPart(search) + [("showForm", "true"), ("editId", rowId)]
  }

  /** `handlePageChange`: the requested page and the search. */
  function PageParams(page: nat, search: string): ParamList {
    [("page", NatToString(page))] + SearchPart(search)
  }

  /** The "Add Customer" link: the search, the page, then `showForm=true`. */
  function AddParams(currentPage: nat, search: string): ParamList {
    SearchPart(search) + [("page", NatToString(currentPage)), ("showForm", "true")]
  }

  /** The search form, submitted by GET: the typed text and page 1. */
  function SearchParamsOf(text: string): ParamList {
    [("search", text), ("page", "1")]
  }

  /** A search always lands on page 1 with exactly the typed text, an empty one included. */
  lemma SearchFormQuery(text: string)
    ensures Lookup(SearchParamsOf(text), "search") == Some(text)
    ensures Lookup(SearchParamsOf(text), "page") == Some("1")
    ensures ParseInt(Lookup(SearchParamsOf(text), "page").value) == Some(1)
  {
    assert "search" != "page";
    assert SearchParamsOf(text)[1..] == [("page", "1")];
    ParseIntOfNatToString(1);
    assert NatToString(1) == "1";
  }

  lemma LookupSearchPart(search: string, rest: ParamList, k: string)
    requires k != "search"
    ensures Lookup(SearchPart(search) + rest, k) == Lookup(rest, k)
  {
    if search != "" {
      assert (SearchPart(search) + rest)[0].0 == "search";
      assert (SearchPart(search) + rest)[1..] == rest;
    } else {
      assert SearchPart(search) + rest == rest;
    }
  }

  lemma SearchPartAtEnd(pre: ParamList, search: string)
    requires !Has(pre, "search")
    ensures Lookup(pre + SearchPart(search), "search") == if search == "" then None else Some(search)
  {
    LookupAppend(pre, "search", search, "search");
    if search == "" {
      assert pre + SearchPart(search) == pre;
    }
  }

  /** Every navigation carries the page it names, and carries `search` exactly
      when the filter is not empty. */
  lemma NavigationCarriesPageAndSearch(currentPage: nat, search: string, rowId: string)
    ensures Lookup(EditParams(currentPage, search, rowId), "page") == Some(NatToString(currentPage))
    ensures Lookup(PageParams(currentPage, search), "page") == Some(NatToString(currentPage))
    ensures Lookup(AddParams(currentPage, search), "page") == Some(NatToString(currentPage))
    ensures Lookup(EditParams(currentPage, search, rowId), "search") == if search == "" then None else Some(search)
    ensures Lookup(PageParams(currentPage, search), "search") == if search == "" then None else Some(search)
    ensures Lookup(AddParams(currentPage, search), "search") == if search == "" then None else Some(search)
    ensures Lookup(EditParams(currentPage, search, rowId), "showForm") == Some("true")
    ensures Lookup(EditParams(currentPage, search, rowId), "editId") == Some(rowId)
    ensures ParseInt(Lookup(PageParams(currentPage, search), "page").value) == Some(currentPage)
  {
    var page := [("page", NatToString(currentPage))];
    var tail := [("showForm", "true"), ("editId", rowId)];
    assert page[1..] == [];
    assert "page" != "search" && "page" != "showForm" && "page" != "editId";
    assert Lookup(page, "search") == None && Lookup(page, "showForm") == None && Lookup(page, "editId") == None;
    SearchPartAtEnd(page, search);
    if search != "" {
      LookupAppend(page, "search", search, "showForm");
      LookupAppend(page, "search", search, "editId");
    } else {
      assert page + SearchPart(search) == page;
    }
    assert EditParams(currentPage, search, rowId) == (page + SearchPart(search)) + tail;
    LookupAppend(page + SearchPart(search), "showForm", "true", "search");
    assert (page + SearchPart(search)) + tail == ((page + SearchPart(search)) + [tail[0]]) + [tail[1]];
    LookupAppend((page + SearchPart(search)) + [tail[0]], "editId", rowId, "search");
    LookupAppend(page + SearchPart(search), "showForm", "true", "showForm");
    LookupAppend((page + SearchPart(search)) + [tail[0]], "editId", rowId, "showForm");
    LookupAppend(page + SearchPart(search), "showForm", "true", "editId");
    LookupAppend((page + SearchPart(search)) + [tail[0]], "editId", rowId, "editId");
    LookupSearchPart(search, [("page", NatToString(currentPage)), ("showForm", "true")], "page");
    if search != "" {
      assert AddParams(currentPage, search)[0] == ("search", search);
    } else {
      assert AddParams(currentPage, search) == [("page", NatToString(currentPage)), ("showForm", "true")];
    }
    ParseIntOfNatToString(currentPage);
  }

  // ---- delete ----

  /** The page to show after a delete: the current one, unless it no longer
      exists, in which case the last remaining page (page 1 when none remains). */
  function DeleteTarget(count: nat, itemsPerPage: nat, currentPage: nat): nat
    requires itemsPerPage > 0
  {
    var remainingItems := count - 1;
    var maxPage := CeilDiv(remainingItems, itemsPerPage);
    if currentPage > maxPage then Max(1, maxPage) else currentPage
  }

  /** The target is a page, it is page 1 once the last customer is gone, it is the
      current page while that page still holds rows, and otherwise the last page. */
  lemma DeleteTargetIsAPage(count: nat, itemsPerPage: nat, currentPage: nat)
    requires itemsPerPage > 0 && currentPage >= 1
    ensures DeleteTarget(count, itemsPerPage, currentPage) >= 1
    ensures count <= 1 ==> DeleteTarget(count, itemsPerPage, currentPage) == 1
    ensures count >= 1 && (currentPage - 1) * itemsPerPage < count - 1 ==>
      DeleteTarget(count, itemsPerPage, currentPage) == currentPage
    ensures count >= 2 ==> (DeleteTarget(count, itemsPerPage, currentPage) - 1) * itemsPerPage < count - 1
  {
    var remaining := count - 1;
    var maxPage := CeilDiv(remaining, itemsPerPage);
    if count <= 1 {
      SignOfProduct(maxPage - 1, itemsPerPage);
    }
    if count >= 1 && (currentPage - 1) * itemsPerPage < remaining {
      assert (currentPage - 1 - maxPage) * itemsPerPage == (currentPage - 1) * itemsPerPage - maxPage * itemsPerPage;
      SignOfProduct(currentPage - 1 - maxPage, itemsPerPage);
    }
    if count >= 2 {
      SignOfProduct(maxPage, itemsPerPage);
      if currentPage <= maxPage {
        ListEngine.LeMulMonotone(currentPage - 1, maxPage - 1, itemsPerPage);
      }
    }
  }

  /** `handleDelete`, after the call `DeleteRequest` makes: only a confirmed delete that
      answers with success navigates, to the target page with the search kept, and refreshes. */
  function DeleteEffects(confirmed: bool, result: SaveResult, count: nat, itemsPerPage: nat, currentPage: nat, search: string): (es: seq<Effect>)
    requires itemsPerPage > 0
    ensures !confirmed || !result.success ==> es == [] && !Navigates(es)
    ensures confirmed && result.success ==>
      es == [NavigateTo(CustomerPath, PageParams(DeleteTarget(count, itemsPerPage, currentPage), search)), Refresh]
  {
    if confirmed && result.success then
      [NavigateTo(CustomerPath, PageParams(DeleteTarget(count, itemsPerPage, currentPage), search)), Refresh]
    else []
  }
}
