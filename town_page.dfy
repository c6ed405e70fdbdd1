/** The client-state town page: the list is filtered and paged in memory, and
    the view state lives in component state that the handlers update. */
module TownPage {
  import opened Common
  import opened Records
  import opened ListEngine

  /** The server call a save makes. */
  datatype TownCall = AddTown(name: string) | EditTown(id: string, name: string)

  /** `handleSave` edits the town being edited, and adds a new one otherwise. */
  function SaveCall(editing: Option<NamedRef>, name: string): (c: TownCall)
    ensures c.EditTown? <==> editing.Some?
    ensures c.EditTown? ==> c.id == editing.value.id
    ensures c.name == name
  {
    if editing.Some? then EditTown(editing.value.id, name) else AddTown(name)
  }

  /** The page's state: the `useState` fields of the town page. */
  class TownView {
    var showForm: bool
    var editingTown: Option<NamedRef>
    var filterText: string
    var currentPage: nat
    var isSubmitting: bool

    ghost predicate Valid()
      reads this
    {
      currentPage >= 1
    }

    constructor ()
      ensures Valid()
      ensures !showForm && editingTown == None && filterText == "" && currentPage == 1 && !isSubmitting
    {
      showForm := false;
      editingTown := None;
      filterText := "";
      currentPage := 1;
      isSubmitting := false;
    }

    /** The rows, page count and "Showing" numbers rendered for the loaded towns and their count. */
    function Listing(towns: seq<Town>, townsCount: nat): (l: ListEngine.Listing<Town>)
      reads this
      requires Valid()
      ensures l.rows == PageSlice(FilterTowns(towns, filterText), currentPage, PageSize)
      ensures |l.rows| <= PageSize
      ensures forall j :: 0 <= j < |l.rows| ==> l.rows[j] in towns && TownMatches(l.rows[j], filterText)
      ensures l.totalPages == 0 <==> forall t :: t in towns ==> !TownMatches(t, filterText)
      ensures l.totalPages == TotalPages(|FilterTowns(towns, filterText)|, PageSize)
      ensures l.from == ShowingFrom(townsCount, currentPage, PageSize)
      ensures l.to == ShowingTo(townsCount, currentPage, PageSize)
    {
      var kept := FilterTowns(towns, filterText);
      assert (forall t :: t in towns ==> !TownMatches(t, filterText)) ==> kept == [] by {
        if kept != [] { assert kept[0] in kept; }
      }
      ListPage(FilterTowns(towns, filterText), currentPage, townsCount)
    }

    /** First half of `handleSave`: mark the form as submitting and choose the call. */
    method BeginSave(name: string) returns (call: TownCall)
      requires Valid()
      modifies this
      ensures Valid()
      ensures call == SaveCall(old(editingTown), name)
      ensures isSubmitting
      ensures showForm == old(showForm) && editingTown == old(editingTown)
      ensures filterText == old(filterText) && currentPage == old(currentPage)
    {
      isSubmitting := true;
      call := SaveCall(editingTown, name);
    }

    /** Second half of `handleSave`, once the call has resolved: a success closes
        the form and clears the editing target, a failure leaves both as they were. */
    method FinishSave(result: SaveResult)
      requires Valid()
      modifies this
      ensures Valid()
      ensures !isSubmitting
      ensures showForm == (if result.success then false else old(showForm))
      ensures editingTown == (if result.success then None else old(editingTown))
      ensures filterText == old(filterText) && currentPage == old(currentPage)
    {
      isSubmitting := false;
      if result.success {
        showForm := false;
        editingTown := None;
      }
    }

    method Cancel()
      requires Valid()
      modifies this
      ensures Valid()
      ensures !showForm && editingTown == None
      ensures filterText == old(filterText) && currentPage == old(currentPage) && isSubmitting == old(isSubmitting)
    {
      showForm := false;
      editingTown := None;
    }

    /** `handleEdit`: edit the row's town in the opened form. */
    method Edit(row: Town)
      requires Valid()
      modifies this
      ensures Valid()
      ensures showForm && editingTown == Some(NamedRef(row.id, row.name))
      ensures filterText == old(filterText) && currentPage == old(currentPage) && isSubmitting == old(isSubmitting)
    {
      editingTown := Some(NamedRef(row.id, row.name));
      showForm := true;
    }

    /** The "Add Town" button: an empty form. */
    method OpenAdd()
      requires Valid()
      modifies this
      ensures Valid()
      ensures showForm && editingTown == None
      ensures filterText == old(filterText) && currentPage == old(currentPage) && isSubmitting == old(isSubmitting)
    {
      editingTown := None;
      showForm := true;
    }

    /** Typing in the filter box changes the filter only; the current page stays. */
    method ChangeFilter(text: string)
      requires Valid()
      modifies this
      ensures Valid()
      ensures filterText == text && currentPage == old(currentPage)
      ensures showForm == old(showForm) && editingTown == old(editingTown) && isSubmitting == old(isSubmitting)
    {
      filterText := text;
    }

    /** `onPageChange` of the pagination control. */
    method ChangePage(page: nat)
      requires Valid() && page >= 1
      modifies this
      ensures Valid()
      ensures currentPage == page && filterText == old(filterText)
      ensures showForm == old(showForm) && editingTown == old(editingTown) && isSubmitting == old(isSubmitting)
    {
      currentPage := page;
    }
  }
}
