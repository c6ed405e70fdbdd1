/** The three entities as the list pages receive them, the free-text match
    each list page applies, and the table rows built from them. */
module Records {
  import opened Common
  import opened Text
  import opened ListEngine

  datatype TownStatus = Active | Inactive

  /** A town as the town list loads it (`createdAt` as a timestamp). */
  datatype Town = Town(id: string, name: string, status: TownStatus, createdAt: int)

  /** An included relation, of which the pages only read `id` and `name`. */
  datatype NamedRef = NamedRef(id: string, name: string)

  /** A sector with its optional included town. */
  datatype Sector = Sector(id: string, name: string, townId: string, createdAt: int, town: Option<NamedRef>)

  /** A customer with its optional included town and sector. */
  datatype Customer = Customer(
    id: string, name: string, email: string, phone: string, address: string,
    townId: string, sectorId: string, vendor: bool, createdAt: int,
    town: Option<NamedRef>, sector: Option<NamedRef>)

  /** A sector as the customer form lists it. */
  datatype SectorChoice = SectorChoice(id: string, name: string, townId: string)

  /** `rel?.name.toLowerCase().includes(f.toLowerCase())`: a missing relation never matches. */
  predicate RelatedMatches(rel: Option<NamedRef>, filter: string) {
    rel.Some? && ContainsIgnoreCase(rel.value.name, filter)
  }

  predicate TownMatches(t: Town, filter: string) {
    ContainsIgnoreCase(t.name, filter)
  }

  predicate SectorMatches(s: Sector, filter: string) {
    ContainsIgnoreCase(s.name, filter) || RelatedMatches(s.town, filter)
  }

  /** The customer list page searches name, email, phone, town name and sector name, not the address. */
  predicate CustomerMatches(c: Customer, filter: string) {
    || ContainsIgnoreCase(c.name, filter)
    || ContainsIgnoreCase(c.email, filter)
    || ContainsIgnoreCase(c.phone, filter)
    || RelatedMatches(c.town, filter)
    || RelatedMatches(c.sector, filter)
  }

  /** The towns whose name contains the filter, ignoring case, in their original order. */
  function FilterTowns(towns: seq<Town>, filter: string): (r: seq<Town>)
    ensures forall t :: t in r <==> t in towns && ContainsIgnoreCase(t.name, filter)
    ensures IsSubsequence(r, towns)
  {
    FilterIsSubsequence(towns, t => TownMatches(t, filter));
    Filter(towns, t => TownMatches(t, filter))
  }

  /** The sectors whose name, or whose town's name if it has a town, contains the filter. */
  function FilterSectors(sectors: seq<Sector>, filter: string): (r: seq<Sector>)
    ensures forall s :: s in r <==>
      (s in sectors && (ContainsIgnoreCase(s.name, filter) || (s.town.Some? && ContainsIgnoreCase(s.town.value.name, filter))))
    ensures forall s :: s in sectors && s.town.None? ==> (s in r <==> ContainsIgnoreCase(s.name, filter))
    ensures IsSubsequence(r, sectors)
  {
    FilterIsSubsequence(sectors, s => SectorMatches(s, filter));
    Filter(sectors, s => SectorMatches(s, filter))
  }

  /** The customers one of whose five searched fields contains the filter. */
  function FilterCustomers(customers: seq<Customer>, filter: string): (r: seq<Customer>)
    ensures forall c :: c in r <==> c in customers && CustomerMatches(c, filter)
    ensures forall c :: c in customers && !CustomerMatches(c, filter) ==> c !in r
    ensures IsSubsequence(r, customers)
  {
    FilterIsSubsequence(customers, c => CustomerMatches(c, filter));
    Filter(customers, c => CustomerMatches(c, filter))
  }

  /** An empty filter keeps every town, sector and customer. */
  lemma EmptyFilterKeepsAll(towns: seq<Town>, sectors: seq<Sector>, customers: seq<Customer>)
    ensures FilterTowns(towns, "") == towns
    ensures FilterSectors(sectors, "") == sectors
    ensures FilterCustomers(customers, "") == customers
  {
    forall t | t in towns ensures TownMatches(t, "") { EmptyIsEverywhere(t.name); }
    FilterKeepAll(towns, t => TownMatches(t, ""));
    forall s | s in sectors ensures SectorMatches(s, "") { EmptyIsEverywhere(s.name); }
    FilterKeepAll(sectors, s => SectorMatches(s, ""));
    forall c | c in customers ensures CustomerMatches(c, "") { EmptyIsEverywhere(c.name); }
    FilterKeepAll(customers, c => CustomerMatches(c, ""));
  }

  /** A customer whose only match is its address is not found: the address is not searched. */
  lemma AddressIsNotSearched(c: Customer, filter: string)
    requires ContainsIgnoreCase(c.address, filter)
    requires !ContainsIgnoreCase(c.name, filter) && !ContainsIgnoreCase(c.email, filter)
    requires !ContainsIgnoreCase(c.phone, filter)
    requires c.town.None? && c.sector.None?
    ensures FilterCustomers([c], filter) == []
  {
  }

  /** `rel?.name || "N/A"`: a missing relation, or one with an empty name, shows "N/A". */
  function NameOrNA(rel: Option<NamedRef>): (r: string)
    ensures rel.Some? && rel.value.name != "" ==> r == rel.value.name
    ensures rel.None? || rel.value.name == "" ==> r == "N/A"
    ensures r != ""
  {
    if rel.Some? && rel.value.name != "" then rel.value.name else "N/A"
  }

  /** A row of the sector table (the formatted creation date is not modelled). */
  datatype SectorRow = SectorRow(id: string, name: string, belongsTo: string, townId: string, status: TownStatus)

  /** The sector table: one row per sector, in order, belonging to its town's name or "N/A", always ACTIVE. */
  function SectorRows(sectors: seq<Sector>): (rows: seq<SectorRow>)
    ensures |rows| == |sectors|
    ensures forall i :: 0 <= i < |rows| ==>
      && rows[i].id == sectors[i].id && rows[i].name == sectors[i].name
      && rows[i].townId == sectors[i].townId
      && rows[i].belongsTo == NameOrNA(sectors[i].town)
      && rows[i].status == Active
  {
    seq(|sectors|, i requires 0 <= i < |sectors| =>
      SectorRow(sectors[i].id, sectors[i].name, NameOrNA(sectors[i].town), sectors[i].townId, Active))
  }

  /** A row of the customer table (the formatted creation date is not modelled). */
  datatype CustomerRow = CustomerRow(
    id: string, name: string, email: string, phone: string, address: string,
    town: string, sector: string, townId: string, sectorId: string, vendor: bool)

  /** The customer table: one row per customer, town and sector shown by name or "N/A". */
  function CustomerRows(customers: seq<Customer>): (rows: seq<CustomerRow>)
    ensures |rows| == |customers|
    ensures forall i :: 0 <= i < |rows| ==>
      && rows[i].id == customers[i].id && rows[i].name == customers[i].name
      && rows[i].email == customers[i].email && rows[i].phone == customers[i].phone
      && rows[i].address == customers[i].address && rows[i].vendor == customers[i].vendor
      && rows[i].town == NameOrNA(customers[i].town) && rows[i].sector == NameOrNA(customers[i].sector)
      && rows[i].townId == customers[i].townId && rows[i].sectorId == customers[i].sectorId
  {
    seq(|customers|, i requires 0 <= i < |customers| =>
      var c := customers[i];
      CustomerRow(c.id, c.name, c.email, c.phone, c.address,
                  NameOrNA(c.town), NameOrNA(c.sector), c.townId, c.sectorId, c.vendor))
  }

  /** What the customer form hands to its `onSave`. */
  datatype CustomerData = CustomerData(
    name: string, email: string, townId: string, sectorId: string,
    address: string, phoneNumber: string, vendor: bool)

  /** A customer loaded into the form for editing (`phone` arrives as `phone_number`). */
  datatype CustomerInit = CustomerInit(
    id: string, name: string, email: string, townId: string, sectorId: string,
    address: string, phoneNumber: string, vendor: bool)
}
