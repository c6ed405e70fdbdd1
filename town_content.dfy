/** The URL-state town page: the page number, the filter and the form state are
    read from the query string, and every handler navigates to a new one. */
module TownContent {
  import opened Common
  import opened Records
  import opened ListEngine
  import opened QueryParams
  import opened Effects
  import TownPage

  /** The query parameters the page is rendered with; a missing one is `None`. */
  datatype TownSearchParams = TownSearchParams(
    page: Option<string>, filter: Option<string>, showForm: Option<string>,
    editId: Option<string>, editName: Option<string>)

  /** JavaScript truthiness of an optional string: present and not empty. */
  predicate Truthy(o: Option<string>) {
    o.Some? && o.value != ""
  }

  /** The view state the page derives from its parameters. */
  datatype TownState = TownState(
    currentPage: Option<nat>, filterText: string, showForm: bool, editingTown: Option<NamedRef>)

  /** `parseInt(page || "1")` (`None` for NaN), `filter || ""`, `showForm === "true"`,
      and an editing target only when both `editId` and `editName` are given. */
  function Derive(sp: TownSearchParams): (st: TownState)
    ensures !Truthy(sp.page) ==> st.currentPage == Some(1)
    ensures Truthy(sp.page) ==> st.currentPage == ParseInt(sp.page.value)
    ensures st.filterText == sp.filter.GetOr("")
    ensures st.showForm <==> sp.showForm == Some("true")
    ensures st.editingTown.Some? <==> Truthy(sp.editId) && Truthy(sp.editName)
    ensures st.editingTown.Some? ==> st.editingTown.value == NamedRef(sp.editId.value, sp.editName.value)
  {
    ParseIntOfNatToString(1);
    assert NatToString(1) == "1";
    TownState(
      ParseInt(if Truthy(sp.page) then sp.page.value else "1"),
      if Truthy(sp.filter) then sp.filter.value else "",
      sp.showForm == Some("true"),
      if Truthy(sp.editId) && Truthy(sp.editName) then Some(NamedRef(sp.editId.value, sp.editName.value)) else None)
  }

  /** The rows, page count and "Showing" numbers for the loaded towns and their count. */
  function TownListing(sp: TownSearchParams, towns: seq<Town>, townsCount: nat): (l: Listing<Town>)
    requires Derive(sp).currentPage.Some? && Derive(sp).currentPage.value >= 1
    ensures var st := Derive(sp);
      && l.rows == PageSlice(FilterTowns(towns, st.filterText), st.currentPage.value, PageSize)
      && l.totalPages == TotalPages(|FilterTowns(towns, st.filterText)|, PageSize)
      && l.from == ShowingFrom(townsCount, st.currentPage.value, PageSize)
      && l.to == ShowingTo(townsCount, st.currentPage.value, PageSize)
  {
    var st := Derive(sp);
    ListPage(FilterTowns(towns, st.filterText), st.currentPage.value, townsCount)
  }

  /** An empty filter parameter lists the towns unfiltered, on every page. */
  lemma NoFilterKeepsAllTowns(sp: TownSearchParams, towns: seq<Town>, townsCount: nat)
    requires !Truthy(sp.filter)
    requires Derive(sp).currentPage.Some? && Derive(sp).currentPage.value >= 1
    ensures var l := TownListing(sp, towns, townsCount);
      && l.rows == PageSlice(towns, Derive(sp).currentPage.value, PageSize)
      && l.totalPages == TotalPages(|towns|, PageSize)
  {
    EmptyFilterKeepsAll(towns, [], []);
  }

  // ---- createQueryString ----

  /** The updates object: keys with a new value, or `None` for `null`. */
  type Updates = seq<(string, Option<string>)>

  /** `updates[k]`: the value of the last entry for `k`, `None` when `k` is not a key. */
  function UpdateFor(us: Updates, k: string): Option<Option<string>> {
    if us == [] then None
    else if us[|us| - 1].0 == k then Some(us[|us| - 1].1)
    else UpdateFor(us[..|us| - 1], k)
  }

  /** `UpdateFor` on an updates object of up to three entries. */
  lemma UpdateForLiteral(a: (string, Option<string>), b: (string, Option<string>), c: (string, Option<string>), k: string)
    ensures UpdateFor([a], k) == if a.0 == k then Some(a.1) else None
    ensures UpdateFor([a, b], k) == if b.0 == k then Some(b.1) else UpdateFor([a], k)
    ensures UpdateFor([a, b, c], k) == if c.0 == k then Some(c.1) else UpdateFor([a, b], k)
  {
    assert [a][..0] == [];
    assert [a, b][..1] == [a];
    assert [a, b, c][..2] == [a, b];
  }

  /** `!updates[k]`: not a key, `null`, or the empty string. */
  predicate UpdateFalsy(us: Updates, k: string) {
    match UpdateFor(us, k)
    case None => true
    case Some(v) => v.None? || v.value == ""
  }

  /** The parameter the page knows under the name `k`. */
  function Known(sp: TownSearchParams, k: string): Option<string> {
    if k == "page" then sp.page
    else if k == "filter" then sp.filter
    else if k == "showForm" then sp.showForm
    else if k == "editId" then sp.editId
    else if k == "editName" then sp.editName
    else None
  }

  /** One of the copy steps: keep a current value the updates do not replace. */
  function CopyKnown(ps: ParamList, sp: TownSearchParams, us: Updates, k: string): ParamList {
    if Truthy(Known(sp, k)) && UpdateFalsy(us, k) then SetParam(ps, k, Known(sp, k).value) else ps
  }

  /** The parameters copied from the current ones, in the order the page copies them. */
  function BaseParams(sp: TownSearchParams, us: Updates): ParamList {
    CopyKnown(CopyKnown(CopyKnown(CopyKnown(CopyKnown([], sp, us, "page"),
      sp, us, "filter"), sp, us, "showForm"), sp, us, "editId"), sp, us, "editName")
  }

  /** One update: `delete` for `null`, `set` otherwise. */
  function ApplyOne(ps: ParamList, u: (string, Option<string>)): ParamList {
    if u.1.None? then DeleteParam(ps, u.0) else SetParam(ps, u.0, u.1.value)
  }

  /** The updates applied in order. */
  function ApplyUpdates(ps: ParamList, us: Updates): ParamList {
    if us == [] then ps else ApplyOne(ApplyUpdates(ps, us[..|us| - 1]), us[|us| - 1])
  }

  /** The query string `createQueryString(updates)` builds. */
  function TownQuery(sp: TownSearchParams, us: Updates): ParamList {
    ApplyUpdates(BaseParams(sp, us), us)
  }

  /** The first half of `createQueryString`: a fresh `URLSearchParams` holding
      the current values the updates do not replace. */
  method CopyCurrent(sp: TownSearchParams, us: Updates) returns (params: SearchParams)
    ensures fresh(params)
    ensures params.pairs == BaseParams(sp, us)
  {
    params := new SearchParams([]);
    ghost var p0 := params.pairs;
    if Truthy(sp.page) && UpdateFalsy(us, "page") { params.Set("page", sp.page.value); }
    assert params.pairs == CopyKnown(p0, sp, us, "page");
    ghost var p1 := params.pairs;
    if Truthy(sp.filter) && UpdateFalsy(us, "filter") { params.Set("filter", sp.filter.value); }
    assert params.pairs == CopyKnown(p1, sp, us, "filter");
    ghost var p2 := params.pairs;
    if Truthy(sp.showForm) && UpdateFalsy(us, "showForm") { params.Set("showForm", sp.showForm.value); }
    assert params.pairs == CopyKnown(p2, sp, us, "showForm");
    ghost var p3 := params.pairs;
    if Truthy(sp.editId) && UpdateFalsy(us, "editId") { params.Set("editId", sp.editId.value); }
    assert params.pairs == CopyKnown(p3, sp, us, "editId");
    ghost var p4 := params.pairs;
    if Truthy(sp.editName) && UpdateFalsy(us, "editName") { params.Set("editName", sp.editName.value); }
    assert params.pairs == CopyKnown(p4, sp, us, "editName");
  }

  /** `createQueryString`: the five copy steps, then one `set` or `delete` per update. */
  method CreateQueryString(sp: TownSearchParams, us: Updates) returns (r: ParamList)
    ensures r == TownQuery(sp, us)
  {
    var params := CopyCurrent(sp, us);
    ghost var base := params.pairs;
    var i := 0;
    while i < |us|
      invariant 0 <= i <= |us|
      invariant params.pairs == ApplyUpdates(base, us[..i])
    {
      var (key, value) := us[i];
      if value.None? {
        params.Delete(key);
      } else {
        params.Set(key, value.value);
      }
      assert us[..i + 1][..i] == us[..i];
      i := i + 1;
    }
    assert us[..i] == us;
    r := params.pairs;
  }

  lemma {:induction false} LookupApplyUpdates(ps: ParamList, us: Updates, j: string)
    ensures Lookup(ApplyUpdates(ps, us), j) ==
      match UpdateFor(us, j)
      case None => Lookup(ps, j)
      case Some(v) => v
  {
    if us != [] {
      var u := us[|us| - 1];
      var before := ApplyUpdates(ps, us[..|us| - 1]);
      LookupApplyUpdates(ps, us[..|us| - 1], j);
      if u.1.None? {
        LookupDelete(before, u.0, j);
      } else {
        LookupSet(before, u.0, u.1.value, j);
      }
    }
  }

  lemma LookupCopyKnown(ps: ParamList, sp: TownSearchParams, us: Updates, k: string, j: string)
    ensures Lookup(CopyKnown(ps, sp, us, k), j) ==
      if j == k && Truthy(Known(sp, k)) && UpdateFalsy(us, k) then Known(sp, k) else Lookup(ps, j)
  {
    if Truthy(Known(sp, k)) && UpdateFalsy(us, k) {
      LookupSet(ps, k, Known(sp, k).value, j);
    }
  }

  /** The copy steps yield exactly the current values the updates do not replace. */
  lemma LookupBaseParams(sp: TownSearchParams, us: Updates, j: string)
    ensures Lookup(BaseParams(sp, us), j) ==
      if Truthy(Known(sp, j)) && UpdateFalsy(us, j) then Known(sp, j) else None
  {
    var p1 := CopyKnown([], sp, us, "page");
    var p2 := CopyKnown(p1, sp, us, "filter");
    var p3 := CopyKnown(p2, sp, us, "showForm");
    var p4 := CopyKnown(p3, sp, us, "editId");
    LookupCopyKnown([], sp, us, "page", j);
    LookupCopyKnown(p1, sp, us, "filter", j);
    LookupCopyKnown(p2, sp, us, "showForm", j);
    LookupCopyKnown(p3, sp, us, "editId", j);
    LookupCopyKnown(p4, sp, us, "editName", j);
  }

  /** What `createQueryString(updates)` reads under each name: a `null` update
      removes the name, any other update gives exactly its value, a current value
      the updates do not mention is kept when it is not empty, and nothing else appears. */
  lemma LookupTownQuery(sp: TownSearchParams, us: Updates, j: string)
    ensures UpdateFor(us, j) == Some(None) ==> Lookup(TownQuery(sp, us), j) == None
    ensures forall v :: UpdateFor(us, j) == Some(Some(v)) ==> Lookup(TownQuery(sp, us), j) == Some(v)
    ensures UpdateFor(us, j) == None && Truthy(Known(sp, j)) ==> Lookup(TownQuery(sp, us), j) == Known(sp, j)
    ensures UpdateFor(us, j) == None && !Truthy(Known(sp, j)) ==> Lookup(TownQuery(sp, us), j) == None
  {
    LookupApplyUpdates(BaseParams(sp, us), us, j);
    LookupBaseParams(sp, us, j);
  }

  /** The parameters a page rendered from the query string `ps` receives. */
  function ParamsOf(ps: ParamList): (sp: TownSearchParams)
    ensures forall k :: Known(sp, k) == (if k in KnownKeys then Lookup(ps, k) else None)
  {
    TownSearchParams(Lookup(ps, "page"), Lookup(ps, "filter"), Lookup(ps, "showForm"),
                     Lookup(ps, "editId"), Lookup(ps, "editName"))
  }

  const KnownKeys: set<string> := {"page", "filter", "showForm", "editId", "editName"}

  /** Navigating twice with the same updates reads the same as navigating once. */
  lemma TownQueryIdempotent(sp: TownSearchParams, us: Updates, j: string)
    ensures Lookup(TownQuery(ParamsOf(TownQuery(sp, us)), us), j) == Lookup(TownQuery(sp, us), j)
  {
    var r := TownQuery(sp, us);
    LookupTownQuery(sp, us, j);
    LookupTownQuery(ParamsOf(r), us, j);
    if UpdateFor(us, j).Some? {
      var v := UpdateFor(us, j).value;
      if v.Some? {
        assert Lookup(TownQuery(ParamsOf(r), us), j) == v;
        assert Lookup(r, j) == v;
      }
    }
  }

  // ---- handlers ----

  const CloseForm: Updates := [("showForm", None), ("editId", None), ("editName", None)]

  /** `handleSave`: the call, chosen by the editing target derived from the parameters. */
  function SaveCall(sp: TownSearchParams, name: string): (c: TownPage.TownCall)
    ensures c.EditTown? <==> Truthy(sp.editId) && Truthy(sp.editName)
    ensures c.EditTown? ==> c.id == sp.editId.value
    ensures c.name == name
  {
    TownPage.SaveCall(Derive(sp).editingTown, name)
  }

  /** After the call: a success closes the form in the URL and refreshes; a failure does nothing. */
  function SaveEffects(sp: TownSearchParams, result: SaveResult): (es: seq<Effect>)
    ensures result.success ==> es == [Navigate(TownQuery(sp, CloseForm)), Refresh]
    ensures !result.success ==> es == []
  {
    if result.success then [Navigate(TownQuery(sp, CloseForm)), Refresh] else []
  }

  function CancelEffects(sp: TownSearchParams): (es: seq<Effect>)
    ensures es == [Navigate(TownQuery(sp, CloseForm))]
  {
    [Navigate(TownQuery(sp, CloseForm))]
  }

  /** Closing the form (cancel, or a successful save) removes the form state and
      keeps the page and the filter. */
  lemma CloseFormKeepsListState(sp: TownSearchParams)
    ensures var q := TownQuery(sp, CloseForm);
      && Lookup(q, "showForm") == None && Lookup(q, "editId") == None && Lookup(q, "editName") == None
      && Lookup(q, "page") == (if Truthy(sp.page) then sp.page else None)
      && Lookup(q, "filter") == (if Truthy(sp.filter) then sp.filter else None)
    ensures var st := Derive(ParamsOf(TownQuery(sp, CloseForm)));
      !st.showForm && st.editingTown == None
  {
    LookupTownQuery(sp, CloseForm, "showForm");
    UpdateForLiteral(CloseForm[0], CloseForm[1], CloseForm[2], "showForm");
    LookupTownQuery(sp, CloseForm, "editId");
    UpdateForLiteral(CloseForm[0], CloseForm[1], CloseForm[2], "editId");
    LookupTownQuery(sp, CloseForm, "editName");
    UpdateForLiteral(CloseForm[0], CloseForm[1], CloseForm[2], "editName");
    LookupTownQuery(sp, CloseForm, "page");
    UpdateForLiteral(CloseForm[0], CloseForm[1], CloseForm[2], "page");
    LookupTownQuery(sp, CloseForm, "filter");
    UpdateForLiteral(CloseForm[0], CloseForm[1], CloseForm[2], "filter");
  }

  /** `handleEdit`: open the form on the row's town. */
  function EditQuery(sp: TownSearchParams, row: Town): ParamList {
    TownQuery(sp, [("showForm", Some("true")), ("editId", Some(row.id)), ("editName", Some(row.name))])
  }

  /** The page the edit link leads to shows the form editing that town
      (a town with an empty id or name gives no editing target). */
  lemma EditOpensForm(sp: TownSearchParams, row: Town)
    ensures var q := EditQuery(sp, row);
      Lookup(q, "showForm") == Some("true") && Lookup(q, "editId") == Some(row.id) && Lookup(q, "editName") == Some(row.name)
    ensures var st := Derive(ParamsOf(EditQuery(sp, row)));
      && st.showForm
      && (row.id != "" && row.name != "" ==> st.editingTown == Some(NamedRef(row.id, row.name)))
  {
    var us := [("showForm", Some("true")), ("editId", Some(row.id)), ("editName", Some(row.name))];
    LookupTownQuery(sp, us, "showForm");
    UpdateForLiteral(us[0], us[1], us[2], "showForm");
    LookupTownQuery(sp, us, "editId");
    UpdateForLiteral(us[0], us[1], us[2], "editId");
    LookupTownQuery(sp, us, "editName");
    UpdateForLiteral(us[0], us[1], us[2], "editName");
  }

  /** The "Add Town" link: the form with no editing target. */
  function AddQuery(sp: TownSearchParams): ParamList {
    TownQuery(sp, [("showForm", Some("true")), ("editId", None), ("editName", None)])
  }

  lemma AddOpensEmptyForm(sp: TownSearchParams)
    ensures var st := Derive(ParamsOf(AddQuery(sp))); st.showForm && st.editingTown == None
  {
    var us := [("showForm", Some("true")), ("editId", None), ("editName", None)];
    LookupTownQuery(sp, us, "showForm");
    UpdateForLiteral(us[0], us[1], us[2], "showForm");
    LookupTownQuery(sp, us, "editId");
    UpdateForLiteral(us[0], us[1], us[2], "editId");
  }

  /** `handleFilterChange`: back to page 1, with the filter removed when the text is empty. */
  function FilterQuery(sp: TownSearchParams, value: string): ParamList {
    TownQuery(sp, [("filter", if value == "" then None else Some(value)), ("page", Some("1"))])
  }

  lemma FilterChangeResetsPage(sp: TownSearchParams, value: string)
    ensures var q := FilterQuery(sp, value);
      && Lookup(q, "page") == Some("1")
      && Lookup(q, "filter") == (if value == "" then None else Some(value))
    ensures var st := Derive(ParamsOf(FilterQuery(sp, value)));
      st.currentPage == Some(1) && st.filterText == value
  {
    var us := [("filter", if value == "" then None else Some(value)), ("page", Some("1"))];
    LookupTownQuery(sp, us, "page");
    UpdateForLiteral(us[0], us[1], us[1], "page");
    LookupTownQuery(sp, us, "filter");
    UpdateForLiteral(us[0], us[1], us[1], "filter");
  }

  /** `handlePageChange`: only the page changes. */
  function PageQuery(sp: TownSearchParams, page: nat): ParamList {
    TownQuery(sp, [("page", Some(NatToString(page)))])
  }

  /** The page reached by a page change reads back the requested page number,
      and the filter and form state are kept. */
  lemma PageChangeRoundTrip(sp: TownSearchParams, page: nat)
    ensures var st := Derive(ParamsOf(PageQuery(sp, page)));
      && st.currentPage == Some(page)
      && st.filterText == Derive(sp).filterText
      && st.showForm == Derive(sp).showForm
      && st.editingTown == Derive(sp).editingTown
  {
    var us := [("page", Some(NatToString(page)))];
    LookupTownQuery(sp, us, "page");
    UpdateForLiteral(us[0], us[0], us[0], "page");
    LookupTownQuery(sp, us, "filter");
    UpdateForLiteral(us[0], us[0], us[0], "filter");
    LookupTownQuery(sp, us, "showForm");
    UpdateForLiteral(us[0], us[0], us[0], "showForm");
    LookupTownQuery(sp, us, "editId");
    UpdateForLiteral(us[0], us[0], us[0], "editId");
    LookupTownQuery(sp, us, "editName");
    UpdateForLiteral(us[0], us[0], us[0], "editName");
    ParseIntOfNatToString(page);
  }

  /** `handleDelete`, after the call `DeleteRequest` makes: once a confirmed delete answers
      with success the page refreshes; otherwise nothing. */
  function DeleteEffects(confirmed: bool, result: SaveResult): (es: seq<Effect>)
    ensures es == [Refresh] <==> confirmed && result.success
    ensures es != [Refresh] ==> es == []
  {
    if confirmed && result.success then [Refresh] else []
  }
}
