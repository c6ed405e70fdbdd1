/** The customer form: the sector drop-down that follows the chosen town, and
    the checks `handleSubmit` runs before handing the data to `onSave`. */
module CustomerForm {
  import opened Common
  import opened Text
  import opened Records

  // ---- the dependent sector drop-down ----

  /** An `<option>` of the sector select: its value and its `data-town-id`
      (the "Select Sector" placeholder has none). */
  datatype SectorOption = SectorOption(value: string, townId: Option<string>)

  /** The options rendered: the placeholder, then one per sector. */
  function OptionsOf(sectors: seq<SectorChoice>): (os: seq<SectorOption>)
    ensures |os| == |sectors| + 1
    ensures os[0] == SectorOption("", None)
    ensures forall i :: 0 <= i < |sectors| ==> os[i + 1] == SectorOption(sectors[i].id, Some(sectors[i].townId))
  {
    [SectorOption("", None)] + seq(|sectors|, i requires 0 <= i < |sectors| => SectorOption(sectors[i].id, Some(sectors[i].townId)))
  }

  /** `initialData?.townId || ""`. */
  function InitialTown(initial: Option<CustomerInit>): string {
    if initial.Some? then initial.value.townId else ""
  }

  /** Some option carries the value `v`. */
  predicate HasOption(os: seq<SectorOption>, v: string) {
    exists i :: 0 <= i < |os| && os[i].value == v
  }

  /** The value the select starts with: `initialData?.sectorId || ""` when an
      option carries it; otherwise the browser selects the first option, the placeholder. */
  function InitialValue(sectors: seq<SectorChoice>, initial: Option<CustomerInit>): (v: string)
    ensures HasOption(OptionsOf(sectors), v)
    ensures initial.Some? && HasOption(OptionsOf(sectors), initial.value.sectorId) ==> v == initial.value.sectorId
    ensures initial.None? || !HasOption(OptionsOf(sectors), initial.value.sectorId) ==> v == ""
  {
    var os := OptionsOf(sectors);
    assert os[0].value == "";
    if initial.Some? && HasOption(os, initial.value.sectorId) then initial.value.sectorId else ""
  }

  /** An edited customer whose sector is not among the offered ones starts on the placeholder. */
  lemma MissingSectorStartsOnPlaceholder(sectors: seq<SectorChoice>, initial: CustomerInit)
    requires forall i :: 0 <= i < |sectors| ==> sectors[i].id != initial.sectorId
    requires initial.sectorId != ""
    ensures InitialValue(sectors, Some(initial)) == ""
  {
    var os := OptionsOf(sectors);
    forall i | 0 <= i < |os|
      ensures os[i].value != initial.sectorId
    {
      if i > 0 { assert os[i] == SectorOption(sectors[i - 1].id, Some(sectors[i - 1].townId)); }
    }
  }

  /** The initial `display` rule: a sector option is hidden exactly when an
      initial town is set and the option belongs to another town. */
  predicate InitiallyShown(o: SectorOption, initialTown: string) {
    !(initialTown != "" && o.townId.Some? && o.townId.value != initialTown)
  }

  /** The visibility `handleTownChange` gives an option: the placeholder, and the
      options whose `data-town-id` is the chosen town. */
  predicate ShownFor(o: SectorOption, townId: string) {
    o.value == "" || o.townId == Some(townId)
  }

  /** The town and sector selects of one rendered form. */
  class SectorSelect {
    var town: string
    var value: string
    var disabled: bool
    const options: seq<SectorOption>
    const shown: array<bool>

    ghost predicate Valid()
      reads this
    {
      shown.Length == |options|
    }

    /** What the form submits for the sector: nothing when the select is disabled. */
    function Submitted(): (r: Option<string>)
      reads this
      ensures r.None? <==> disabled
      ensures r.Some? ==> r.value == value
    {
      if disabled then None else Some(value)
    }

    /** The form as first rendered for `sectors` and the optional customer being edited. */
    constructor (sectors: seq<SectorChoice>, initial: Option<CustomerInit>)
      ensures Valid() && fresh(shown)
      ensures options == OptionsOf(sectors)
      ensures town == InitialTown(initial)
      ensures value == InitialValue(sectors, initial)
      ensures disabled <==> InitialTown(initial) == ""
      ensures forall i :: 0 <= i < shown.Length ==> shown[i] == InitiallyShown(options[i], InitialTown(initial))
    {
      var os := OptionsOf(sectors);
      var t := InitialTown(initial);
      options := os;
      town := t;
      value := InitialValue(sectors, initial);
      disabled := t == "";
      shown := new bool[|os|](i requires 0 <= i < |os| => InitiallyShown(os[i], t));
    }

    /** `handleTownChange`: clear the sector, show the placeholder and the chosen
        town's sectors and hide the rest, and disable the select when no town is chosen. */
    method HandleTownChange(townId: string)
      requires Valid()
      modifies this, shown
      ensures Valid()
      ensures town == townId && value == ""
      ensures disabled <==> townId == ""
      ensures forall i :: 0 <= i < shown.Length ==> shown[i] == ShownFor(options[i], townId)
      ensures Submitted() == if townId == "" then None else Some("")
    {
      town := townId;
      value := "";
      var i := 0;
      while i < shown.Length
        invariant 0 <= i <= shown.Length
        invariant town == townId && value == ""
        invariant forall j :: 0 <= j < i ==> shown[j] == ShownFor(options[j], townId)
      {
        shown[i] := options[i].value == "" || options[i].townId == Some(townId);
        i := i + 1;
      }
      disabled := townId == "";
    }

    /** Picking a visible option of the enabled select. */
    method Choose(i: nat)
      requires Valid() && !disabled && i < shown.Length && shown[i]
      modifies this
      ensures Valid()
      ensures value == options[i].value && Submitted() == Some(options[i].value)
      ensures town == old(town) && disabled == old(disabled)
    {
      value := options[i].value;
    }
  }

  /** After a town change the placeholder is visible, and a visible sector option
      belongs to the chosen town. */
  lemma VisibleAfterTownChange(sectors: seq<SectorChoice>, townId: string, i: nat)
    requires i < |sectors|
    ensures ShownFor(OptionsOf(sectors)[0], townId)
    ensures sectors[i].id != "" ==> (ShownFor(OptionsOf(sectors)[i + 1], townId) <==> sectors[i].townId == townId)
  {
  }

  // ---- the e-mail pattern ----

  /** `/^[^\s@]+@[^\s@]+\.[^\s@]+$/` read as a language: a non-empty part, '@',
      a non-empty part, '.', a non-empty part, with no white space and no other '@'. */
  ghost predicate MatchesEmailPattern(s: string) {
    exists a, d :: 0 < a && a + 1 < d < |s| - 1 && s[a] == '@' && s[d] == '.'
      && forall i :: 0 <= i < |s| && i != a ==> !IsSpace(s[i]) && s[i] != '@'
  }

  function CountChar(s: string, c: char): nat {
    if s == [] then 0 else (if s[0] == c then 1 else 0) + CountChar(s[1..], c)
  }

  /** `s.indexOf(c)`, `None` for -1. */
  function IndexOf(s: string, c: char): (r: Option<nat>)
    ensures r.None? <==> forall i :: 0 <= i < |s| ==> s[i] != c
    ensures r.Some? ==> r.value < |s| && s[r.value] == c && forall i :: 0 <= i < r.value ==> s[i] != c
  {
    if s == [] then None
    else if s[0] == c then Some(0)
    else
      var r := IndexOf(s[1..], c);
      assert forall i :: 1 <= i < |s| ==> s[i] == s[1..][i - 1];
      if r.Some? then Some(r.value + 1) else None
  }

  /** The e-mail check as the form applies it: no white space, exactly one '@'
      with something before it, and a '.' in the part after it that is neither
      that part's first nor its last character. */
  predicate IsEmail(s: string) {
    && NoSpace(s)
    && CountChar(s, '@') == 1
    && match IndexOf(s, '@')
       case None => false
       case Some(a) => a > 0 && exists d | a + 1 < d < |s| - 1 :: s[d] == '.'
  }

  lemma {:induction false} CountZero(s: string, c: char)
    ensures CountChar(s, c) == 0 <==> forall i :: 0 <= i < |s| ==> s[i] != c
  {
    if s != [] {
      CountZero(s[1..], c);
      assert forall i :: 1 <= i < |s| ==> s[i] == s[1..][i - 1];
    }
  }

  /** With `c` at index `a`, `c` occurs once exactly when it occurs nowhere else. */
  lemma {:induction false} CountOne(s: string, c: char, a: nat)
    requires a < |s| && s[a] == c
    ensures CountChar(s, c) == 1 <==> forall i :: 0 <= i < |s| && i != a ==> s[i] != c
  {
    assert forall i :: 1 <= i < |s| ==> s[i] == s[1..][i - 1];
    if a == 0 {
      CountZero(s[1..], c);
    } else {
      CountOne(s[1..], c, a - 1);
      if s[0] == c {
        CountZero(s[1..], c);
      }
    }
  }

  /** The form's e-mail check accepts exactly the strings the pattern matches. */
  lemma EmailCheckMatchesPattern(s: string)
    ensures IsEmail(s) <==> MatchesEmailPattern(s)
  {
    if IsEmail(s) {
      var a := IndexOf(s, '@').value;
      CountOne(s, '@', a);
      var d :| a + 1 < d < |s| - 1 && s[d] == '.';
      assert 0 < a && a + 1 < d < |s| - 1 && s[a] == '@' && s[d] == '.'
        && forall i :: 0 <= i < |s| && i != a ==> !IsSpace(s[i]) && s[i] != '@';
    }
    if MatchesEmailPattern(s) {
      var a, d :| 0 < a && a + 1 < d < |s| - 1 && s[a] == '@' && s[d] == '.'
        && forall i :: 0 <= i < |s| && i != a ==> !IsSpace(s[i]) && s[i] != '@';
      CountOne(s, '@', a);
      assert IndexOf(s, '@') == Some(a);
      assert NoSpace(s);
    }
  }

  // ---- handleSubmit ----

  /** The form fields as `FormData` yields them: a disabled sector select and an
      unticked checkbox submit nothing. */
  datatype FormInput = FormInput(
    name: string, email: string, townId: string, sectorId: Option<string>,
    address: string, phoneNumber: string, vendor: Option<string>)

  /** Either the alert shown, with no save, or the data `onSave` receives. */
  datatype Decision = Reject(message: string) | Save(data: CustomerData)

  /** The data read from the form: the fields as typed, `vendor` from the checkbox. */
  function DataOf(f: FormInput): (d: CustomerData)
    requires f.sectorId.Some?
    ensures d.vendor <==> f.vendor == Some("on")
    ensures d.name == f.name && d.email == f.email && d.phoneNumber == f.phoneNumber && d.address == f.address
    ensures d.townId == f.townId && d.sectorId == f.sectorId.value
  {
    CustomerData(f.name, f.email, f.townId, f.sectorId.value, f.address, f.phoneNumber, f.vendor == Some("on"))
  }

  /** Every check passes. */
  predicate Acceptable(f: FormInput) {
    && Trim(f.name) != "" && Trim(f.email) != "" && IsEmail(f.email)
    && Trim(f.phoneNumber) != "" && Trim(f.address) != ""
    && f.townId != "" && f.sectorId.Some? && f.sectorId.value != ""
  }

  /** `handleSubmit`: the checks in order, the first failure giving its alert. */
  function ValidateCustomer(f: FormInput): (d: Decision)
    ensures d.Save? <==> Acceptable(f)
    ensures d.Save? ==> d.data == DataOf(f)
  {
    if Trim(f.name) == "" then Reject("Customer name is required")
    else if Trim(f.email) == "" then Reject("Email is required")
    else if !IsEmail(f.email) then Reject("Please enter a valid email address")
    else if Trim(f.phoneNumber) == "" then Reject("Phone number is required")
    else if Trim(f.address) == "" then Reject("Address is required")
    else if f.townId == "" then Reject("Please select a town")
    else if f.sectorId.None? || f.sectorId.value == "" then Reject("Please select a sector")
    else Save(DataOf(f))
  }

  /** The first failing check decides the alert: a blank (empty or all white
      space) field is reported before any check that comes after it. */
  lemma RejectionOrder(f: FormInput)
    ensures AllSpace(f.name) ==> ValidateCustomer(f) == Reject("Customer name is required")
    ensures !AllSpace(f.name) && AllSpace(f.email) ==> ValidateCustomer(f) == Reject("Email is required")
    ensures !AllSpace(f.name) && !AllSpace(f.email) && !MatchesEmailPattern(f.email) ==>
      ValidateCustomer(f) == Reject("Please enter a valid email address")
    ensures !AllSpace(f.name) && MatchesEmailPattern(f.email) && AllSpace(f.phoneNumber) ==>
      ValidateCustomer(f) == Reject("Phone number is required")
    ensures !AllSpace(f.name) && MatchesEmailPattern(f.email) && !AllSpace(f.phoneNumber) && AllSpace(f.address) ==>
      ValidateCustomer(f) == Reject("Address is required")
    ensures (!AllSpace(f.name) && MatchesEmailPattern(f.email) && !AllSpace(f.phoneNumber) && !AllSpace(f.address)
             && f.townId == "") ==> ValidateCustomer(f) == Reject("Please select a town")
    ensures (!AllSpace(f.name) && MatchesEmailPattern(f.email) && !AllSpace(f.phoneNumber) && !AllSpace(f.address)
             && f.townId != "" && (f.sectorId.None? || f.sectorId.value == "")) ==>
      ValidateCustomer(f) == Reject("Please select a sector")
  {
    EmailCheckMatchesPattern(f.email);
    if MatchesEmailPattern(f.email) {
      EmailHasContent(f.email);
    }
  }

  /** A string the pattern matches is not blank. */
  lemma EmailHasContent(s: string)
    requires MatchesEmailPattern(s)
    ensures !AllSpace(s)
  {
    var a, d :| 0 < a && a + 1 < d < |s| - 1 && s[a] == '@' && s[d] == '.'
      && forall i :: 0 <= i < |s| && i != a ==> !IsSpace(s[i]) && s[i] != '@';
    assert !IsSpace(s[a]);
  }

  /** `onSave` is reached only with a name, phone and address that are not
      blank, an e-mail matching the pattern, and a town and a sector chosen. */
  lemma SavedDataIsValid(f: FormInput)
    requires ValidateCustomer(f).Save?
    ensures var d := ValidateCustomer(f).data;
      && !AllSpace(d.name) && !AllSpace(d.phoneNumber) && !AllSpace(d.address)
      && MatchesEmailPattern(d.email) && d.townId != "" && d.sectorId != ""
  {
    EmailCheckMatchesPattern(f.email);
  }

  /** Submitting right after a town change never saves: the sector select has
      just been cleared (or disabled, so that it submits nothing). */
  lemma TownChangeForcesSectorChoice(f: FormInput, townId: string)
    requires f.sectorId == (if townId == "" then None else Some(""))
    ensures ValidateCustomer(f).Reject?
  {
  }
}
