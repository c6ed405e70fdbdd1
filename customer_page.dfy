/** The client-state customer page: add and edit through a form, the list
    filtered and paged in memory, and the sectors the form offers. */
module CustomerPage {
  import opened Common
  import opened Records
  import opened ListEngine

  /** The server call a save makes. */
  datatype CustomerCall = AddCustomer(data: CustomerData) | EditCustomer(id: string, data: CustomerData)

  /** `handleSave` edits the customer being edited, and adds a new one otherwise. */
  function SaveCall(editing: Option<CustomerInit>, data: CustomerData): (c: CustomerCall)
    ensures c.EditCustomer? <==> editing.Some?
    ensures c.EditCustomer? ==> c.id == editing.value.id
    ensures c.data == data
  {
    if editing.Some? then EditCustomer(editing.value.id, data) else AddCustomer(data)
  }

  /** `handleEdit`: the form is loaded from the table row, its phone as `phone_number`. */
  function InitOf(row: CustomerRow): (init: CustomerInit)
    ensures init.id == row.id && init.phoneNumber == row.phone
    ensures init.name == row.name && init.email == row.email && init.address == row.address
    ensures init.townId == row.townId && init.sectorId == row.sectorId && init.vendor == row.vendor
  {
    CustomerInit(row.id, row.name, row.email, row.townId, row.sectorId, row.address, row.phone, row.vendor)
  }

  /** The page's state: the `useState` fields of the customer page. */
  class CustomerView {
    var showForm: bool
    var editingCustomer: Option<CustomerInit>
    var filterText: string
    var currentPage: nat
    var isSubmitting: bool
    var availableSectors: seq<SectorChoice>

    ghost predicate Valid()
      reads this
    {
      currentPage >= 1
    }

    /** The initial state, the sectors offered starting as all loaded sectors. */
    constructor (sectors: seq<SectorChoice>)
      ensures Valid()
      ensures !showForm && editingCustomer == None && filterText == "" && currentPage == 1
      ensures !isSubmitting && availableSectors == sectors
    {
      showForm := false;
      editingCustomer := None;
      filterText := "";
      currentPage := 1;
      isSubmitting := false;
      availableSectors := sectors;
    }

    /** The rows and the page numbering shown for the loaded customers and their count. */
    function Listing(customers: seq<Customer>, customersCount: nat): (l: ListEngine.Listing<CustomerRow>)
      reads this
      requires Valid()
      ensures |l.rows| <= PageSize
      ensures l.rows == CustomerRows(PageSlice(FilterCustomers(customers, filterText), currentPage, PageSize))
      ensures l.totalPages == TotalPages(|FilterCustomers(customers, filterText)|, PageSize)
      ensures l.totalPages == 0 <==> forall c :: c in customers ==> !CustomerMatches(c, filterText)
      ensures l.from == ShowingFrom(customersCount, currentPage, PageSize)
      ensures l.to == ShowingTo(customersCount, currentPage, PageSize)
    {
      var kept := FilterCustomers(customers, filterText);
      assert (forall c :: c in customers ==> !CustomerMatches(c, filterText)) ==> kept == [] by {
        if kept != [] { assert kept[0] in kept; }
      }
      var l := ListPage(kept, currentPage, customersCount);
      ListEngine.Listing(CustomerRows(l.rows), l.totalPages, l.from, l.to, l.total)
    }

    /** First half of `handleSave`: mark the form as submitting and choose the call. */
    method BeginSave(data: CustomerData) returns (call: CustomerCall)
      requires Valid()
      modifies this
      ensures Valid()
      ensures call == SaveCall(old(editingCustomer), data)
      ensures isSubmitting
      ensures showForm == old(showForm) && editingCustomer == old(editingCustomer)
      ensures filterText == old(filterText) && currentPage == old(currentPage)
      ensures availableSectors == old(availableSectors)
    {
      isSubmitting := true;
      call := SaveCall(editingCustomer, data);
    }

    /** Second half of `handleSave`: a success closes the form and clears the
        editing target, a failure leaves both as they were. */
    method FinishSave(result: SaveResult)
      requires Valid()
      modifies this
      ensures Valid()
      ensures !isSubmitting
      ensures showForm == (if result.success then false else old(showForm))
      ensures editingCustomer == (if result.success then None else old(editingCustomer))
      ensures filterText == old(filterText) && currentPage == old(currentPage)
      ensures availableSectors == old(availableSectors)
    {
      isSubmitting := false;
      if result.success {
        showForm := false;
        editingCustomer := None;
      }
    }

    method Cancel()
      requires Valid()
      modifies this
      ensures Valid()
      ensures !showForm && editingCustomer == None
      ensures filterText == old(filterText) && currentPage == old(currentPage) && isSubmitting == old(isSubmitting)
      ensures availableSectors == old(availableSectors)
    {
      showForm := false;
      editingCustomer := None;
    }

    /** `handleEdit`: load the row into the form and open it. */
    method Edit(row: CustomerRow)
      requires Valid()
      modifies this
      ensures Valid()
      ensures showForm && editingCustomer == Some(InitOf(row))
      ensures filterText == old(filterText) && currentPage == old(currentPage) && isSubmitting == old(isSubmitting)
      ensures availableSectors == old(availableSectors)
    {
      editingCustomer := Some(InitOf(row));
      showForm := true;
    }

    /** The "Add Customer" button: no editing target, every loaded sector offered again. */
    method OpenAdd(sectors: seq<SectorChoice>)
      requires Valid()
      modifies this
      ensures Valid()
      ensures showForm && editingCustomer == None && availableSectors == sectors
      ensures filterText == old(filterText) && currentPage == old(currentPage) && isSubmitting == old(isSubmitting)
    {
      editingCustomer := None;
      availableSectors := sectors;
      showForm := true;
    }

    /** `handleTownChange`, once `loadSectorsByTown` has answered with `townSectors`. */
    method TownChanged(townSectors: seq<SectorChoice>)
      requires Valid()
      modifies this
      ensures Valid()
      ensures availableSectors == townSectors
      ensures showForm == old(showForm) && editingCustomer == old(editingCustomer)
      ensures filterText == old(filterText) && currentPage == old(currentPage) && isSubmitting == old(isSubmitting)
    {
      availableSectors := townSectors;
    }

    /** Typing in the filter box changes the filter only; the current page stays. */
    method ChangeFilter(text: string)
      requires Valid()
      modifies this
      ensures Valid()
      ensures filterText == text && currentPage == old(currentPage)
      ensures showForm == old(showForm) && editingCustomer == old(editingCustomer)
      ensures isSubmitting == old(isSubmitting) && availableSectors == old(availableSectors)
    {
      filterText := text;
    }

    /** `onPageChange` of the pagination control. */
    method ChangePage(page: nat)
      requires Valid() && page >= 1
      modifies this
      ensures Valid()
      ensures currentPage == page && filterText == old(filterText)
      ensures showForm == old(showForm) && editingCustomer == old(editingCustomer)
      ensures isSubmitting == old(isSubmitting) && availableSectors == old(availableSectors)
    {
      currentPage := page;
    }
  }
}
