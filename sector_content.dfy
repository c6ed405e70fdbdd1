/** The URL-state sector page: it renders from props read off the query string
    and navigates by editing a copy of the current `URLSearchParams`. */
module SectorContent {
  import opened Common
  import opened Records
  import opened ListEngine
  import opened QueryParams
  import opened Effects
  import SectorPage

  /** The rows and page numbering for the page's props. */
  function Listing(sectors: seq<Sector>, sectorsCount: nat, currentPage: nat, filterText: string): (l: ListEngine.Listing<SectorRow>)
    requires currentPage >= 1
    ensures l == SectorPage.SectorListing(sectors, sectorsCount, filterText, currentPage)
    ensures |l.rows| <= PageSize
    ensures l.totalPages == 0 <==> forall s :: s in sectors ==> !SectorMatches(s, filterText)
  {
    SectorPage.SectorListing(sectors, sectorsCount, filterText, currentPage)
  }

  /** `editId ? sectors.find(s => s.id === editId) : null`. */
  function EditingSector(sectors: seq<Sector>, editId: Option<string>): (r: Option<Sector>)
    ensures editId.None? || editId.value == "" ==> r.None?
    ensures r.Some? ==> r.value in sectors && r.value.id == editId.value
    ensures editId.Some? && editId.value != "" && r.None? ==> forall s :: s in sectors ==> s.id != editId.value
    ensures r.Some? ==> exists i :: 0 <= i < |sectors| && sectors[i] == r.value && forall j :: 0 <= j < i ==> sectors[j].id != editId.value
  {
    if editId.Some? && editId.value != "" then FindFirst(sectors, (s: Sector) => s.id == editId.value) else None
  }

  // ---- createQueryString ----

  /** The names an updates object sets. */
  function Keys(us: seq<(string, string)>): set<string> {
    set i | 0 <= i < |us| :: us[i].0
  }

  /** `updates[k]` for an object given entry by entry: the last entry for `k`. */
  function NewValue(us: seq<(string, string)>, k: string): Option<string> {
    if us == [] then None
    else if us[|us| - 1].0 == k then Some(us[|us| - 1].1)
    else NewValue(us[..|us| - 1], k)
  }

  /** `set` for every entry, in order. */
  function SetAll(ps: ParamList, us: seq<(string, string)>): ParamList {
    if us == [] then ps else SetParam(SetAll(ps, us[..|us| - 1]), us[|us| - 1].0, us[|us| - 1].1)
  }

  /** `createQueryString(params)`: a copy of the current parameters, then `set` per entry. */
  method CreateQueryString(current: ParamList, us: seq<(string, string)>) returns (r: ParamList)
    ensures r == SetAll(current, us)
  {
    var urlParams := new SearchParams(current);
    var i := 0;
    while i < |us|
      invariant 0 <= i <= |us|
      invariant urlParams.pairs == SetAll(current, us[..i])
    {
      var (key, value) := us[i];
      urlParams.Set(key, value);
      assert us[..i + 1][..i] == us[..i];
      i := i + 1;
    }
    assert us[..i] == us;
    r := urlParams.pairs;
  }

  /** Every name set reads its new value and every other name reads as before. */
  lemma {:induction false} LookupSetAll(ps: ParamList, us: seq<(string, string)>, j: string)
    ensures Lookup(SetAll(ps, us), j) == if NewValue(us, j).Some? then NewValue(us, j) else Lookup(ps, j)
  {
    if us != [] {
      var u := us[|us| - 1];
      LookupSetAll(ps, us[..|us| - 1], j);
      LookupSet(SetAll(ps, us[..|us| - 1]), u.0, u.1, j);
    }
  }

  /** The pairs with other names stay exactly as they were, in their order. */
  lemma {:induction false} SetAllKeepsOthers(ps: ParamList, us: seq<(string, string)>, names: set<string>)
    requires Keys(us) <= names
    ensures Without(SetAll(ps, us), names) == Without(ps, names)
  {
    if us != [] {
      var u := us[|us| - 1];
      assert Keys(us[..|us| - 1]) <= Keys(us) by {
        forall k | k in Keys(us[..|us| - 1]) ensures k in Keys(us) {
          var i :| 0 <= i < |us| - 1 && us[..|us| - 1][i].0 == k;
          assert us[i].0 == k;
        }
      }
      SetAllKeepsOthers(ps, us[..|us| - 1], names);
      assert u.0 in Keys(us);
      WithoutSet(SetAll(ps, us[..|us| - 1]), names, u.0, u.1);
    }
  }

  // ---- removeQueryString ----

  /** `delete` for every name, in order. */
  function DeleteAll(ps: ParamList, names: seq<string>): ParamList {
    if names == [] then ps else DeleteParam(DeleteAll(ps, names[..|names| - 1]), names[|names| - 1])
  }

  /** `removeQueryString(...names)`: a copy of the current parameters, then `delete` per name. */
  method RemoveQueryString(current: ParamList, names: seq<string>) returns (r: ParamList)
    ensures r == DeleteAll(current, names)
  {
    var params := new SearchParams(current);
    var i := 0;
    while i < |names|
      invariant 0 <= i <= |names|
      invariant params.pairs == DeleteAll(current, names[..i])
    {
      params.Delete(names[i]);
      assert names[..i + 1][..i] == names[..i];
      i := i + 1;
    }
    assert names[..i] == names;
    r := params.pairs;
  }

  /** The names as a set. */
  function NameSet(names: seq<string>): (r: set<string>)
    ensures forall x :: x in r <==> x in names
  {
    if names == [] then {} else NameSet(names[..|names| - 1]) + {names[|names| - 1]}
  }

  /** Removing names removes exactly the pairs with those names and keeps the
      others in their order. */
  lemma {:induction false} DeleteAllIsWithout(ps: ParamList, names: seq<string>)
    ensures DeleteAll(ps, names) == Without(ps, NameSet(names))
  {
    if names == [] {
      WithoutNothing(ps);
    } else {
      DeleteAllIsWithout(ps, names[..|names| - 1]);
      DeleteWithout(ps, NameSet(names[..|names| - 1]), names[|names| - 1]);
    }
  }

  lemma {:induction false} WithoutNothing(ps: ParamList)
    ensures Without(ps, {}) == ps
  {
    if ps != [] {
      WithoutNothing(ps[1..]);
    }
  }

  // ---- the filter input ----

  /** What the filter input's `onChange` navigates to. */
  function FilterParams(ps: ParamList, value: string): ParamList {
    DeleteParam(if value != "" then SetParam(ps, "filter", value) else DeleteParam(ps, "filter"), "page")
  }

  /** The filter input's `onChange`: set or delete `filter`, then delete `page`. */
  method FilterInputChange(current: ParamList, value: string) returns (r: ParamList)
    ensures r == FilterParams(current, value)
  {
    var params := new SearchParams(current);
    if value != "" {
      params.Set("filter", value);
    } else {
      params.Delete("filter");
    }
    params.Delete("page");
    r := params.pairs;
  }

  /** The new filter reads as the typed text (absent when empty), the page is
      gone, and every other pair is kept in its order. */
  lemma FilterChangeRule(ps: ParamList, value: string)
    ensures Lookup(FilterParams(ps, value), "filter") == if value == "" then None else Some(value)
    ensures Lookup(FilterParams(ps, value), "page") == None
    ensures Without(FilterParams(ps, value), {"filter", "page"}) == Without(ps, {"filter", "page"})
  {
    var mid := if value != "" then SetParam(ps, "filter", value) else DeleteParam(ps, "filter");
    if value != "" {
      LookupSet(ps, "filter", value, "filter");
      WithoutSet(ps, {"filter", "page"}, "filter", value);
    } else {
      LookupDelete(ps, "filter", "filter");
      WithoutDelete(ps, {"filter", "page"}, "filter");
    }
    LookupDelete(mid, "page", "filter");
    LookupDelete(mid, "page", "page");
    WithoutDelete(mid, {"filter", "page"}, "page");
  }

  // ---- links and handlers ----

  /** The row's "Edit" link. */
  function EditHref(current: ParamList, row: SectorRow): ParamList {
    SetAll(current, [("showForm", "true"), ("editId", row.id)])
  }

  /** The edit link opens the form on the row's sector and keeps every other parameter. */
  lemma EditHrefOpensForm(current: ParamList, row: SectorRow, sectors: seq<Sector>)
    ensures Lookup(EditHref(current, row), "showForm") == Some("true")
    ensures Lookup(EditHref(current, row), "editId") == Some(row.id)
    ensures Without(EditHref(current, row), {"showForm", "editId"}) == Without(current, {"showForm", "editId"})
    ensures row.id != "" && (exists s :: s in sectors && s.id == row.id) ==>
      var e := EditingSector(sectors, Lookup(EditHref(current, row), "editId"));
      e.Some? && e.value.id == row.id
  {
    var us := [("showForm", "true"), ("editId", row.id)];
    assert us[..1] == [("showForm", "true")] && us[..1][..0] == [];
    LookupSetAll(current, us, "showForm");
    LookupSetAll(current, us, "editId");
    assert Keys(us) <= {"showForm", "editId"};
    SetAllKeepsOthers(current, us, {"showForm", "editId"});
  }

  /** The "Add Sector" link. */
  function AddHref(current: ParamList): ParamList {
    SetAll(current, [("showForm", "true")])
  }

  lemma AddHrefOpensForm(current: ParamList)
    ensures Lookup(AddHref(current), "showForm") == Some("true")
    ensures Without(AddHref(current), {"showForm"}) == Without(current, {"showForm"})
  {
    var us := [("showForm", "true")];
    assert us[..0] == [];
    LookupSetAll(current, us, "showForm");
    SetAllKeepsOthers(current, us, {"showForm"});
  }

  /** The form's `onCancel`: forget `showForm` and `editId`. */
  function CancelQuery(current: ParamList): ParamList {
    DeleteAll(current, ["showForm", "editId"])
  }

  lemma CancelClosesForm(current: ParamList)
    ensures Lookup(CancelQuery(current), "showForm") == None
    ensures Lookup(CancelQuery(current), "editId") == None
    ensures CancelQuery(current) == Without(current, {"showForm", "editId"})
  {
    var names := ["showForm", "editId"];
    DeleteAllIsWithout(current, names);
    assert NameSet(names) == {"showForm", "editId"};
    LookupWithout(current, {"showForm", "editId"}, "showForm");
    LookupWithout(current, {"showForm", "editId"}, "editId");
  }

  /** `onPageChange`: overwrite `page` only. */
  function PageQuery(current: ParamList, page: nat): ParamList {
    SetAll(current, [("page", NatToString(page))])
  }

  lemma PageChangeOverwritesPage(current: ParamList, page: nat)
    ensures Lookup(PageQuery(current, page), "page") == Some(NatToString(page))
    ensures ParseInt(Lookup(PageQuery(current, page), "page").value) == Some(page)
    ensures Without(PageQuery(current, page), {"page"}) == Without(current, {"page"})
  {
    var us := [("page", NatToString(page))];
    assert us[..0] == [];
    LookupSetAll(current, us, "page");
    SetAllKeepsOthers(current, us, {"page"});
    ParseIntOfNatToString(page);
  }

  /** `handleDelete`, after the call `DeleteRequest` makes: a confirmed delete refreshes
      whatever the server answers. */
  function DeleteEffects(confirmed: bool): (es: seq<Effect>)
    ensures confirmed <==> es == [Refresh]
    ensures !confirmed ==> es == []
  {
    if confirmed then [Refresh] else []
  }
}
