/**
 * The Supplier document, its validation attributes (Name and
 * CompanyContactNum [Required], the company number pattern, the nested
 * Address and the contact persons), and the trimming and re-validation
 * loops of the Suppliers controller.
 */
module SupplierModel {
  import opened Wrappers
  import opened Text
  import opened Common
  import opened AddressModel
  import opened ContactPersonModel

  /** ^(((\+63|0)9\d{9})|(\+63 \d \d{3} \d{4})|(1800 \d{2} \d{3} \d{4}))$:
      a mobile number, a landline or a toll-free number. */
  predicate IsCompanyContactNum(s: string) {
    || IsMobileNumber(s)
    || FitsShape(s, "+63 # ### ####")
    || FitsShape(s, "1800 ## ### ####")
  }

  /** Every accepted company number has 11, 13, 14 or 16 characters. */
  lemma CompanyNumberLength(s: string)
    requires IsCompanyContactNum(s)
    ensures |s| in {11, 13, 14, 16}
  {
    if IsMobileNumber(s) {
      MobileNumberLength(s);
    }
  }

  /** A contact person's phone is always acceptable as a company number. */
  lemma PhoneIsCompanyNumber(s: string)
    requires IsMobileNumber(s)
    ensures IsCompanyContactNum(s)
  {
  }

  /** The landline and toll-free forms are not contact phones. */
  lemma LandlineIsNotPhone()
    ensures IsCompanyContactNum("+63 2 123 4567") && !IsMobileNumber("+63 2 123 4567")
    ensures IsCompanyContactNum("1800 10 123 4567") && !IsMobileNumber("1800 10 123 4567")
  {
    assert "+63 2 123 4567"[3] == ' ';
    assert "1800 10 123 4567"[1] == '8';
  }

  /** An accepted company number has no white space at either end. */
  lemma CompanyNumberIsTrimmed(s: string)
    requires IsCompanyContactNum(s)
    ensures IsTrimmed(s)
  {
  }

  datatype Supplier = Supplier(
    name: string,
    companyContactNum: Option<string>,
    address: Address,
    contactPersons: seq<ContactPerson>,
    isActive: bool,
    audit: Audit)

  /** The bound Create and Edit forms. Address and ContactPersons are never
      null: they default to an empty address and an empty list. */
  datatype SupplierForm = SupplierForm(
    id: Option<string>,
    name: string,
    companyContactNum: Option<string>,
    address: Address,
    contactPersons: seq<ContactPerson>,
    isActive: bool)

  function SupplierName(s: Supplier): string {
    s.name
  }

  predicate SupplierIsActive(s: Supplier) {
    s.isActive
  }

  /** The errors of a list of contacts: under ContactPersons[i].* keys when
      the binder validates the list inside the supplier (keyed), under the
      bare keys when each contact is validated on its own. */
  function ContactListErrors(cs: seq<ContactPerson>, keyed: bool): (r: set<Error>)
    ensures r == {} <==> forall i | 0 <= i < |cs| :: IsValidContact(cs[i])
  {
    if cs == [] then {}
    else
      var n := |cs| - 1;
      var r := ContactListErrors(cs[..n], keyed) + ContactErrors(cs[n], if keyed then Some(n) else None);
      assert forall i | 0 <= i < n :: cs[..n][i] == cs[i];
      r
  }

  /** The attribute errors of a bound supplier form, as posted: Name,
      CompanyContactNum, Address.StreetAddress and every contact. */
  function SupplierAttributeErrors(f: SupplierForm): (r: set<Error>)
    ensures r == {} <==>
      && Required(Some(f.name))
      && Required(f.companyContactNum) && IsCompanyContactNum(f.companyContactNum.value)
      && Required(f.address.streetAddress)
      && forall i | 0 <= i < |f.contactPersons| :: IsValidContact(f.contactPersons[i])
  {
    Check(Required(Some(f.name)), Invalid(Name))
    + Check(Required(f.companyContactNum) && MatchesIfPresent(f.companyContactNum, IsCompanyContactNum), Invalid(CompanyContactNum))
    + AddressErrors(f.address)
    + ContactListErrors(f.contactPersons, true)
  }

  /** The binder records a listed contact's errors under that contact's
      own keys. */
  lemma KeyedContactErrors(cs: seq<ContactPerson>)
    ensures forall e | e in ContactListErrors(cs, true) ::
      e.Invalid? && (e.field.ContactName? || e.field.ContactEmail? || e.field.ContactPhone?)
  {
    if cs != [] {
      KeyedContactErrors(cs[..|cs| - 1]);
    }
  }

  /** With a non-blank supplier name, no attribute error sits under Name. */
  lemma NoBareNameAttribute(f: SupplierForm)
    requires Required(Some(f.name))
    ensures Invalid(Name) !in SupplierAttributeErrors(f)
  {
    KeyedContactErrors(f.contactPersons);
  }

  /** Every contact of the list with Name, Email and Phone trimmed. */
  function TrimContactList(cs: seq<ContactPerson>): (ts: seq<ContactPerson>)
    ensures |ts| == |cs|
    ensures forall i | 0 <= i < |cs| :: ts[i] == TrimContact(cs[i])
  {
    if cs == [] then [] else [TrimContact(cs[0])] + TrimContactList(cs[1..])
  }

  /** The loop over the supplier's contacts that trims each one in place. */
  method TrimContacts(cs: seq<ContactPerson>) returns (ts: seq<ContactPerson>)
    ensures ts == TrimContactList(cs)
  {
    ts := cs;
    var i := 0;
    while i < |ts|
      invariant 0 <= i <= |ts| == |cs|
      invariant forall j | 0 <= j < i :: ts[j] == TrimContact(cs[j])
      invariant forall j | i <= j < |ts| :: ts[j] == cs[j]
    {
      ts := ts[i := TrimContact(ts[i])];
      i := i + 1;
    }
    assert forall j | 0 <= j < |ts| :: ts[j] == TrimContactList(cs)[j];
  }

  /** Every error of a contact validated on its own is an attribute error. */
  lemma BareContactErrorsAreInvalid(cs: seq<ContactPerson>)
    ensures forall e | e in ContactListErrors(cs, false) :: e.Invalid?
  {
    if cs != [] {
      BareContactErrorsAreInvalid(cs[..|cs| - 1]);
    }
  }

  /** The loop that validates each trimmed contact again on its own, under
      the bare keys, on top of the errors ModelState already holds: a key
      already marked, by those errors or by an earlier contact, is not
      validated again. */
  method ValidateContacts(cs: seq<ContactPerson>, prior: set<Error>) returns (errors: set<Error>)
    ensures errors == Unmarked(ContactListErrors(cs, false), prior)
  {
    errors := {};
    var i := 0;
    while i < |cs|
      invariant 0 <= i <= |cs|
      invariant errors == Unmarked(ContactListErrors(cs[..i], false), prior)
    {
      assert cs[..i + 1][..i] == cs[..i];
      BareContactErrorsAreInvalid(cs[..i]);
      UnmarkedInTurn(ContactListErrors(cs[..i], false), ContactErrors(cs[i], None), prior);
      var added := Unmarked(ContactErrors(cs[i], None), prior + errors);
      errors := errors + added;
      i := i + 1;
    }
    assert cs[..i] == cs;
  }

  /** The re-validation after trimming never rejects a list the binder
      accepted: trimming a valid contact leaves it valid. */
  lemma TrimmedContactsStayValid(cs: seq<ContactPerson>)
    requires ContactListErrors(cs, true) == {}
    ensures forall i | 0 <= i < |cs| :: IsValidContact(TrimContactList(cs)[i])
    ensures ContactListErrors(TrimContactList(cs), false) == {}
    ensures ContactListErrors(TrimContactList(cs), true) == {}
    ensures forall i | 0 <= i < |cs| :: TrimContactList(cs)[i].email == cs[i].email
  {
    forall i | 0 <= i < |cs| ensures IsValidContact(TrimContactList(cs)[i]) && TrimContactList(cs)[i].email == cs[i].email {
      TrimKeepsValidContact(cs[i]);
    }
  }

  /** Validation runs on the posted values, before the controller trims:
      a valid contact whose email is posted with a leading space is
      rejected, although it trims to the same contact. */
  lemma PaddedEmailIsRejected(c: ContactPerson)
    requires IsValidContact(c)
    ensures var padded := c.(email := Some([' '] + c.email.value));
      && ContactListErrors([padded], true) != {}
      && TrimContact(padded) == TrimContact(c)
  {
    ValidContactFields(c);
    var e := c.email.value;
    var p := [' '] + e;
    assert p[1..] == e;
    assert IndexOf(p, '@') == 1 + IndexOf(e, '@');
    assert p[..IndexOf(p, '@')][0] == ' ';
    assert !IsEmail(p);
    var padded := c.(email := Some(p));
    assert [padded][0] == padded;
    EmailIsTrimmed(e);
    TrimOfPadded([' '], e, []);
    TrimOfTrimmed(e);
    assert [' '] + e + [] == p;
  }

  /** The form's contact list as the controller stores it. */
  function TrimSupplierForm(f: SupplierForm): (t: SupplierForm)
    ensures t.name == Trim(f.name) && t.companyContactNum == TrimOpt(f.companyContactNum)
    ensures t.address == TrimAddress(f.address) && t.contactPersons == TrimContactList(f.contactPersons)
    ensures t.id == f.id && t.isActive == f.isActive
  {
    f.(name := Trim(f.name), companyContactNum := TrimOpt(f.companyContactNum),
       address := TrimAddress(f.address), contactPersons := TrimContactList(f.contactPersons))
  }

  /** What trimming changes on a form the binder accepted: the name, the
      street and postal code, and the contact names. The company number and
      every contact's email and phone are stored as posted. */
  lemma TrimAcceptedSupplier(f: SupplierForm)
    requires SupplierAttributeErrors(f) == {}
    ensures TrimSupplierForm(f).companyContactNum == f.companyContactNum
    ensures SupplierAttributeErrors(TrimSupplierForm(f)) == {}
  {
    var t := TrimSupplierForm(f);
    assert t.companyContactNum == f.companyContactNum by {
      CompanyNumberIsTrimmed(f.companyContactNum.value);
      TrimOfTrimmed(f.companyContactNum.value);
    }
    assert Check(Required(Some(t.name)), Invalid(Name)) == {} by {
      TrimKeepsRequired(Some(f.name));
    }
    assert AddressErrors(t.address) == {} by {
      TrimKeepsAddressValid(f.address);
    }
    assert ContactListErrors(t.contactPersons, true) == {} by {
      TrimmedContactsStayValid(f.contactPersons);
    }
  }
}
