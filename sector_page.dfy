/** The client-state sector page: an add-only form, and the list filtered and
    paged in memory. */
module SectorPage {
  import opened Common
  import opened Records
  import opened ListEngine

  /** The server call a save makes: this page only adds sectors. */
  datatype AddSectorCall = AddSector(name: string, townId: string)

  /** The rows and the page numbering shown for the loaded sectors, their count, a filter and a page. */
  function SectorListing(sectors: seq<Sector>, sectorsCount: nat, filter: string, page: nat): (l: Listing<SectorRow>)
    requires page >= 1
    ensures |l.rows| <= PageSize
    ensures l.rows == SectorRows(PageSlice(FilterSectors(sectors, filter), page, PageSize))
    ensures l.totalPages == TotalPages(|FilterSectors(sectors, filter)|, PageSize)
    ensures l.totalPages == 0 <==> forall s :: s in sectors ==> !SectorMatches(s, filter)
    ensures l.from == ShowingFrom(sectorsCount, page, PageSize) && l.to == ShowingTo(sectorsCount, page, PageSize)
  {
    var kept := FilterSectors(sectors, filter);
    assert (forall s :: s in sectors ==> !SectorMatches(s, filter)) ==> kept == [] by {
      if kept != [] { assert kept[0] in kept; }
    }
    var l := ListPage(kept, page, sectorsCount);
    Listing(SectorRows(l.rows), l.totalPages, l.from, l.to, l.total)
  }

  /** The page's state: the `useState` fields of the sector page. */
  class SectorView {
    var showForm: bool
    var filterText: string
    var currentPage: nat
    var isSubmitting: bool

    ghost predicate Valid()
      reads this
    {
      currentPage >= 1
    }

    constructor ()
      ensures Valid()
      ensures !showForm && filterText == "" && currentPage == 1 && !isSubmitting
    {
      showForm := false;
      filterText := "";
      currentPage := 1;
      isSubmitting := false;
    }

    /** What the page renders for the loaded sectors and their count. */
    function Listing(sectors: seq<Sector>, sectorsCount: nat): (l: ListEngine.Listing<SectorRow>)
      reads this
      requires Valid()
      ensures |l.rows| <= PageSize
      ensures l.rows == SectorRows(PageSlice(FilterSectors(sectors, filterText), currentPage, PageSize))
      ensures l.from == ShowingFrom(sectorsCount, currentPage, PageSize)
    {
      SectorListing(sectors, sectorsCount, filterText, currentPage)
    }

    /** First half of `handleSave`: mark the form as submitting and make the add call. */
    method BeginSave(name: string, townId: string) returns (call: AddSectorCall)
      requires Valid()
      modifies this
      ensures Valid()
      ensures call == AddSector(name, townId)
      ensures isSubmitting
      ensures showForm == old(showForm) && filterText == old(filterText) && currentPage == old(currentPage)
    {
      isSubmitting := true;
      call := AddSector(name, townId);
    }

    /** Second half of `handleSave`: a success hides the form, a failure keeps it open. */
    method FinishSave(result: SaveResult)
      requires Valid()
      modifies this
      ensures Valid()
      ensures !isSubmitting
      ensures showForm == (old(showForm) && !result.success)
      ensures filterText == old(filterText) && currentPage == old(currentPage)
    {
      isSubmitting := false;
      if result.success {
        showForm := false;
      }
    }

    method Cancel()
      requires Valid()
      modifies this
      ensures Valid()
      ensures !showForm
      ensures filterText == old(filterText) && currentPage == old(currentPage) && isSubmitting == old(isSubmitting)
    {
      showForm := false;
    }

    /** The "Add Sector" button. */
    method OpenAdd()
      requires Valid()
      modifies this
      ensures Valid()
      ensures showForm
      ensures filterText == old(filterText) && currentPage == old(currentPage) && isSubmitting == old(isSubmitting)
    {
      showForm := true;
    }

    /** Typing in the filter box changes the filter only; the current page stays. */
    method ChangeFilter(text: string)
      requires Valid()
      modifies this
      ensures Valid()
      ensures filterText == text && currentPage == old(currentPage)
      ensures showForm == old(showForm) && isSubmitting == old(isSubmitting)
    {
      filterText := text;
    }

    /** `onPageChange` of the pagination control. */
    method ChangePage(page: nat)
      requires Valid() && page >= 1
      modifies this
      ensures Valid()
      ensures currentPage == page && filterText == old(filterText)
      ensures showForm == old(showForm) && isSubmitting == old(isSubmitting)
    {
      currentPage := page;
    }
  }
}
