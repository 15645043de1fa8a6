/**
 * The checks each POST action makes before it writes, as the set of
 * ModelState errors the action ends up with. ModelState already holds the
 * binder's errors and the attribute errors of the values as posted; the
 * action then adds its own.
 */
module Rules {
  import opened Wrappers
  import opened Text
  import opened Common
  import opened UserModel
  import opened SupplierModel
  import opened ProductModel
  import opened Records
  import opened Catalogue
  import opened Queries

  /** StockIn: a positive quantity and a product that exists. */
  function StockInErrors(products: map<string, Product>, form: MovementForm, quantityIn: int, bindingOk: bool)
    : (r: set<Error>)
    ensures r == {} <==> bindingOk && quantityIn > 0 && form.productId.Some? && form.productId.value in products
    ensures QuantityNotPositive in r <==> quantityIn <= 0
    ensures ProductNotFound in r <==> form.productId.None? || form.productId.value !in products
  {
    Check(bindingOk, BindingFailed)
    + Check(quantityIn > 0, QuantityNotPositive)
    + Check(Find(products, form.productId).Some?, ProductNotFound)
  }

  /** StockOut: also enough stock, the error reporting the current
      quantity. */
  function StockOutErrors(products: map<string, Product>, form: MovementForm, quantityOut: int, bindingOk: bool)
    : (r: set<Error>)
    ensures r == {} <==>
      bindingOk && quantityOut > 0 && form.productId.Some? && form.productId.value in products
      && products[form.productId.value].quantity >= quantityOut
    ensures QuantityNotPositive in r <==> quantityOut <= 0
    ensures ProductNotFound in r <==> form.productId.None? || form.productId.value !in products
    ensures forall c :: NotEnoughStock(c) in r <==>
      form.productId.Some? && form.productId.value in products
      && c == products[form.productId.value].quantity && c < quantityOut
  {
    var product := Find(products, form.productId);
    Check(bindingOk, BindingFailed)
    + Check(quantityOut > 0, QuantityNotPositive)
    + (if product.None? then {ProductNotFound}
       else Check(product.value.quantity >= quantityOut, NotEnoughStock(product.value.quantity)))
  }

  /** The duplicate check on the trimmed name, leaving out the record with
      id except. */
  function DuplicateError<T>(m: map<string, T>, nameOf: T -> string, name: string, except: Option<string>)
    : (r: set<Error>)
    ensures r == {} <==> !NameTaken(m, nameOf, Trim(name), except)
    ensures r <= {DuplicateName}
  {
    Check(!NameTaken(m, nameOf, Trim(name), except), DuplicateName)
  }

  /** Products Create (except None) and Edit (except the route id; the form
      has no quantity then, which binds as 0). */
  function ProductErrors(products: map<string, Product>, form: ProductForm, except: Option<string>, bindingOk: bool)
    : (r: set<Error>)
    ensures r == {} <==>
      bindingOk && IsValidProductForm(form) && !NameTaken(products, ProductName, Trim(form.name), except)
  {
    Check(bindingOk, BindingFailed) + ProductAttributeErrors(form) + DuplicateError(products, ProductName, form.name, except)
  }

  function CategoryErrors(categories: map<string, Category>, form: CategoryForm, except: Option<string>, bindingOk: bool)
    : (r: set<Error>)
    ensures r == {} <==>
      bindingOk && Required(Some(form.name)) && !NameTaken(categories, CategoryName, Trim(form.name), except)
  {
    Check(bindingOk, BindingFailed) + Check(Required(Some(form.name)), Invalid(Name))
    + DuplicateError(categories, CategoryName, form.name, except)
  }

  function ReasonErrors(reasons: map<string, Reason>, form: ReasonForm, except: Option<string>, bindingOk: bool)
    : (r: set<Error>)
    ensures r == {} <==>
      bindingOk && Required(Some(form.name)) && !NameTaken(reasons, ReasonName, Trim(form.name), except)
  {
    Check(bindingOk, BindingFailed) + Check(Required(Some(form.name)), Invalid(Name))
    + DuplicateError(reasons, ReasonName, form.name, except)
  }

  /** What ModelState holds for a Suppliers form before the contacts are
      validated again: the binder, the attributes and the duplicate name. */
  function SupplierPriorErrors(suppliers: map<string, Supplier>, form: SupplierForm, except: Option<string>, bindingOk: bool)
    : set<Error>
  {
    Check(bindingOk, BindingFailed) + SupplierAttributeErrors(form) + DuplicateError(suppliers, SupplierName, form.name, except)
  }

  /** Suppliers Create and Edit: the attributes of the posted form, the
      duplicate name, and the contacts validated again after trimming, under
      the keys not yet marked. The second validation never adds to the
      verdict: a contact the first one accepted stays valid once trimmed. */
  function SupplierErrors(suppliers: map<string, Supplier>, form: SupplierForm, except: Option<string>, bindingOk: bool)
    : (r: set<Error>)
    ensures r == {} <==>
      bindingOk && SupplierAttributeErrors(form) == {} && !NameTaken(suppliers, SupplierName, Trim(form.name), except)
  {
    var attributes := SupplierAttributeErrors(form);
    var prior := SupplierPriorErrors(suppliers, form, except, bindingOk);
    var revalidated := Unmarked(ContactListErrors(TrimContactList(form.contactPersons), false), prior);
    assert attributes == {} ==> revalidated == {} by {
      if attributes == {} {
        TrimmedContactsStayValid(form.contactPersons);
      }
    }
    prior + revalidated
  }

  /** A duplicate supplier name is recorded under Name before the contacts
      are validated again, so a contact with a blank name adds no bare Name
      error: the duplicate is the only error under Name. */
  lemma DuplicateMasksContactName(suppliers: map<string, Supplier>, form: SupplierForm, except: Option<string>, bindingOk: bool)
    requires Required(Some(form.name)) && NameTaken(suppliers, SupplierName, Trim(form.name), except)
    ensures DuplicateName in SupplierErrors(suppliers, form, except, bindingOk)
    ensures Invalid(Name) !in SupplierErrors(suppliers, form, except, bindingOk)
  {
    var prior := SupplierPriorErrors(suppliers, form, except, bindingOk);
    NoBareNameAttribute(form);
    assert DuplicateName in prior && Invalid(Name) !in prior;
    MarkedKeyGainsNothing(ContactListErrors(TrimContactList(form.contactPersons), false), prior, Name);
  }

  /** The username stored for some user equals username exactly. */
  predicate UsernameExists(users: map<string, User>, username: Option<string>) {
    exists id | id in users :: users[id].username == username
  }

  /** No two users share a username. */
  ghost predicate UsernamesUnique(users: map<string, User>) {
    forall a, b | a in users && b in users && a != b :: users[a].username != users[b].username
  }

  /** Adding a user under a fresh id with a username nobody has keeps the
      usernames unique. */
  lemma AddUserKeepsUnique(users: map<string, User>, id: string, u: User)
    requires UsernamesUnique(users) && id !in users && !UsernameExists(users, u.username)
    ensures UsernamesUnique(users[id := u])
  {
    var grown := users[id := u];
    forall a, b | a in grown && b in grown && a != b ensures grown[a].username != grown[b].username {
      if a == id {
        assert users[b].username != u.username;
      } else if b == id {
        assert users[a].username != u.username;
      }
    }
  }

  /** Register: the binder's verdict first; only a valid form is checked for
      a taken username, by exact match on the trimmed name. */
  function RegisterErrors(users: map<string, User>, form: RegisterForm, formValid: bool): (r: set<Error>)
    ensures r == {} <==> formValid && !UsernameExists(users, TrimOpt(form.username))
    ensures !formValid ==> r == {BindingFailed}
    ensures formValid && r != {} ==> r == {UsernameTaken}
  {
    if !formValid then {BindingFailed}
    else Check(!UsernameExists(users, TrimOpt(form.username)), UsernameTaken)
  }

  /** The reason Products Create inserts when none is named "Initial Stock". */
  const InitialStock: Reason := Reason("Initial Stock", Some("System generated reason for new products"), Some("In"))

  /** The reasons the case-sensitive lookup by "Initial Stock" finds. */
  function InitialReasonIds(reasons: map<string, Reason>): (r: set<string>)
    ensures forall id :: id in r <==> id in reasons && reasons[id].name == InitialStock.name
  {
    set id | id in reasons && reasons[id].name == InitialStock.name
  }

  lemma LowerCaseInitialStock()
    ensures "initial stock" != InitialStock.name && SameIgnoringCase("initial stock", InitialStock.name)
  {
    assert "initial stock"[0] != "Initial Stock"[0];
    SameFoldedChars("initial stock", "Initial Stock");
  }

  /** The lookup is exact while the Reasons pages compare names ignoring
      case. When no reason is named exactly "Initial Stock" but one is named
      so ignoring case (such as "initial stock"), Products Create inserts
      InitialStock, as CreateProduct's new state says, and the two names
      then collide. */
  lemma InitialStockCanDuplicate(reasons: map<string, Reason>, id: string, newId: string)
    requires id in reasons && newId !in reasons && InitialReasonIds(reasons) == {}
    requires SameIgnoringCase(reasons[id].name, InitialStock.name)
    ensures reasons[id].name != InitialStock.name
    ensures !NamesUnique(reasons[newId := InitialStock], ReasonName)
  {
    assert id !in InitialReasonIds(reasons);
    var grown := reasons[newId := InitialStock];
    assert id != newId && grown[id] == reasons[id] && grown[newId] == InitialStock;
    assert SameIgnoringCase(ReasonName(grown[id]), ReasonName(grown[newId]));
  }

  /** The stock-in dropdown offers the reason Products Create inserts; the
      stock-out dropdown does not. */
  lemma InitialStockIsAStockInReason(reasons: map<string, Reason>, id: string)
    requires id in reasons && reasons[id] == InitialStock
    ensures id in ReasonsFor(reasons, "In") && id !in ReasonsFor(reasons, "Out")
  {
  }
}
