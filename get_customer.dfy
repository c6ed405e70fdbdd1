/** The customer list's server query over an in-memory table: search predicate,
    newest-first order, skip/take window, count and the result envelope. */
module GetCustomer {
  import opened Common
  import opened Text
  import opened Records
  import opened ListEngine
  import CustomerContent

  /** The `OR` of six case-insensitive `contains`: the five the page searches, plus the address. */
  predicate SearchMatches(c: Customer, search: string) {
    || ContainsIgnoreCase(c.name, search)
    || ContainsIgnoreCase(c.email, search)
    || ContainsIgnoreCase(c.phone, search)
    || ContainsIgnoreCase(c.address, search)
    || RelatedMatches(c.town, search)
    || RelatedMatches(c.sector, search)
  }

  /** The rows `where` selects: all of them for an absent or empty search. */
  function Matching(table: seq<Customer>, search: Option<string>): (r: seq<Customer>)
    ensures search.None? || search.value == "" ==> r == table
    ensures search.Some? && search.value != "" ==> forall c :: c in r <==> c in table && SearchMatches(c, search.value)
    ensures search.Some? && search.value != "" ==>
      forall c :: multiset(r)[c] == if SearchMatches(c, search.value) then multiset(table)[c] else 0
    ensures forall c :: multiset(r)[c] <= multiset(table)[c]
  {
    if search.None? || search.value == "" then table
    else Filter(table, c => SearchMatches(c, search.value))
  }

  /** Every customer matches the empty search, so an empty search and no search select the same rows. */
  lemma EmptySearchSelectsAll(table: seq<Customer>)
    ensures Matching(table, Some("")) == Matching(table, None) == table
    ensures forall c :: SearchMatches(c, "")
  {
    forall c: Customer ensures SearchMatches(c, "") {
      EmptyIsEverywhere(c.name);
    }
  }

  /** A customer's address is searched on the server although the page's own filter ignores it. */
  lemma AddressIsSearched(c: Customer, search: string)
    requires ContainsIgnoreCase(c.address, search)
    ensures SearchMatches(c, search)
  {
  }

  // ---- orderBy: { createdAt: "desc" } ----

  predicate NewestFirst(xs: seq<Customer>) {
    forall i, j :: 0 <= i < j < |xs| ==> xs[i].createdAt >= xs[j].createdAt
  }

  /** Put one customer into a newest-first sequence ahead of every older or equally old one. */
  function Insert(x: Customer, xs: seq<Customer>): (r: seq<Customer>)
    ensures multiset(r) == multiset(xs) + multiset{x}
    decreases |xs|
  {
    if xs == [] || x.createdAt >= xs[0].createdAt then [x] + xs
    else
      assert xs == [xs[0]] + xs[1..];
      [xs[0]] + Insert(x, xs[1..])
  }

  lemma {:induction false} InsertNewestFirst(x: Customer, xs: seq<Customer>)
    requires NewestFirst(xs)
    ensures NewestFirst(Insert(x, xs))
    decreases |xs|
  {
    if xs != [] && x.createdAt < xs[0].createdAt {
      var rest := Insert(x, xs[1..]);
      InsertNewestFirst(x, xs[1..]);
      forall j | 0 <= j < |rest| ensures xs[0].createdAt >= rest[j].createdAt {
        assert rest[j] in multiset(rest);
        if rest[j] != x {
          assert rest[j] in multiset(xs[1..]);
          var k :| 0 <= k < |xs[1..]| && xs[1..][k] == rest[j];
          assert xs[k + 1] == rest[j];
        }
      }
    }
  }

  /** The table in the order the query returns it. */
  function SortNewestFirst(xs: seq<Customer>): (r: seq<Customer>)
    ensures multiset(r) == multiset(xs)
    ensures |r| == |xs|
    ensures NewestFirst(r)
  {
    if xs == [] then []
    else
      assert xs == [xs[0]] + xs[1..];
      InsertNewestFirst(xs[0], SortNewestFirst(xs[1..]));
      Insert(xs[0], SortNewestFirst(xs[1..]))
  }

  // ---- the envelope ----

  datatype CustomerResult = CustomerResult(
    success: bool, error: Option<string>, data: seq<Customer>,
    count: nat, page: int, limit: int, totalPages: nat)

  /** What the `catch` returns. */
  const Failure := CustomerResult(false, Some("Failed to get Customer"), [], 0, 1, 10, 0)

  /** `getCustomer(search, page, limit)`; `dbFails` stands for either query throwing. */
  function GetCustomerPage(table: seq<Customer>, search: Option<string>, page: nat, limit: nat, dbFails: bool): (r: CustomerResult)
    requires page >= 1 && limit >= 1
    ensures dbFails ==> r == Failure
    ensures !dbFails ==> r.success && r.error.None? && r.page == page && r.limit == limit
    ensures !dbFails ==> r.count == |Matching(table, search)| && r.totalPages == TotalPages(r.count, limit)
    ensures !dbFails ==> |r.data| <= limit && NewestFirst(r.data)
    ensures !dbFails ==> forall j :: 0 <= j < |r.data| ==>
      PageStart(page, limit) + j < r.count && r.data[j] == SortNewestFirst(Matching(table, search))[PageStart(page, limit) + j]
  {
    if dbFails then Failure
    else
      var kept := Matching(table, search);
      var data := PageSlice(SortNewestFirst(kept), page, limit);
      SliceNewestFirst(SortNewestFirst(kept), page, limit);
      CustomerResult(true, None, data, |kept|, page, limit, TotalPages(|kept|, limit))
  }

  /** `skip`/`take` keep the order. */
  lemma SliceNewestFirst(xs: seq<Customer>, page: nat, limit: nat)
    requires page >= 1 && NewestFirst(xs)
    ensures NewestFirst(PageSlice(xs, page, limit))
  {
    var data := PageSlice(xs, page, limit);
    var skip := PageStart(page, limit);
    forall i, j | 0 <= i < j < |data| ensures data[i].createdAt >= data[j].createdAt {
      assert data[i] == xs[skip + i] && data[j] == xs[skip + j];
    }
  }

  /** The call with its defaults: no search, page 1, ten rows. */
  function GetCustomerDefaults(table: seq<Customer>, dbFails: bool): (r: CustomerResult)
    ensures !dbFails ==> r.count == |table| && r.page == 1 && r.limit == 10
    ensures !dbFails ==> r.data == SortNewestFirst(table)[..Min(10, |table|)]
  {
    var r := GetCustomerPage(table, None, 1, 10, dbFails);
    assert !dbFails ==> r.data == SortNewestFirst(table)[..Min(10, |table|)] by {
      if !dbFails {
        assert PageStart(1, 10) == 0;
      }
    }
    r
  }

  /** Every returned row is a row the count counts: both queries share one `where`. */
  lemma PageAndCountAgree(table: seq<Customer>, search: Option<string>, page: nat, limit: nat)
    requires page >= 1 && limit >= 1
    ensures var r := GetCustomerPage(table, search, page, limit, false);
      (forall c :: c in r.data ==> c in Matching(table, search)) && |r.data| <= r.count
  {
    var r := GetCustomerPage(table, search, page, limit, false);
    var ordered := SortNewestFirst(Matching(table, search));
    forall c | c in r.data ensures c in Matching(table, search) {
      var j :| 0 <= j < |r.data| && r.data[j] == c;
      assert ordered[(page - 1) * limit + j] == c;
      assert c in multiset(ordered);
    }
  }

  /** Paging through all the pages visits each matching customer exactly where its page says. */
  lemma EveryMatchOnItsPage(table: seq<Customer>, search: Option<string>, limit: nat, i: nat)
    requires limit >= 1 && i < |Matching(table, search)|
    ensures var page := i / limit + 1;
      var r := GetCustomerPage(table, search, page, limit, false);
      1 <= page <= r.totalPages && i % limit < |r.data| && r.data[i % limit] == SortNewestFirst(Matching(table, search))[i]
  {
    var ordered := SortNewestFirst(Matching(table, search));
    var page := i / limit + 1;
    RowOnItsPage(ordered, limit, i);
    assert GetCustomerPage(table, search, page, limit, false).data == PageSlice(ordered, page, limit);
  }

  /** The client's "Showing from to" numbers, fed an answered page, bracket exactly
      the rows returned. */
  lemma ShowingBracketsServerPage(table: seq<Customer>, search: Option<string>, page: nat, limit: nat)
    requires page >= 1 && limit >= 1
    requires page <= GetCustomerPage(table, search, page, limit, false).totalPages
    ensures var r := GetCustomerPage(table, search, page, limit, false);
      CustomerContent.To(r.count, page, limit, |r.data|) - CustomerContent.From(r.count, page, limit) + 1 == |r.data|
      && 1 <= CustomerContent.From(r.count, page, limit)
  {
    var r := GetCustomerPage(table, search, page, limit, false);
    ShowingMatchesSlice(SortNewestFirst(Matching(table, search)), page, limit);
  }
}
