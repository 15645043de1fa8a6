/**
 * The MongoDB database as one object: a map per collection, keyed by
 * document id, and the append-only ledger of stock movements. Each POST
 * action is a method that checks, then writes one collection or two, and
 * ends in a redirect, the form with its errors, or 404.
 *
 * The acting user's name and the clock are parameters. Ids the driver
 * generates on insert are parameters too, required to be fresh.
 */
module Inventory {
  import opened Wrappers
  import opened Text
  import opened Common
  import opened AddressModel
  import opened UserModel
  import opened SupplierModel
  import opened ProductModel
  import opened Records
  import opened Ledger
  import opened Catalogue
  import opened Queries
  import opened Rules

  /** The trimming and the second contact validation both Suppliers
      actions run, in the controller's order. */
  method TrimAndRevalidate(suppliers: map<string, Supplier>, form: SupplierForm, except: Option<string>, bindingOk: bool)
    returns (trimmed: SupplierForm, errors: set<Error>)
    ensures trimmed == TrimSupplierForm(form)
    ensures errors == SupplierErrors(suppliers, form, except, bindingOk)
  {
    var contacts := TrimContacts(form.contactPersons);
    trimmed := form.(name := Trim(form.name), companyContactNum := TrimOpt(form.companyContactNum),
                     address := TrimAddress(form.address), contactPersons := contacts);
    var prior := Check(bindingOk, BindingFailed) + SupplierAttributeErrors(form)
                 + DuplicateError(suppliers, SupplierName, form.name, except);
    var contactErrors := ValidateContacts(contacts, prior);
    errors := prior + contactErrors;
  }

  /** The movement Products/Create books a new product's stock with: no
      movement type, the remark "Product created". */
  function CreationMovement(productId: string, quantity: int, reasonId: string, actor: string, now: int)
    : (m: StockMovement)
    ensures m.productId == productId && m.quantityChange == quantity
    ensures m.movementType.None?
    ensures m.reasonId == Some(reasonId) && m.remarks == Some("Product created")
    ensures m.timestamp == now && m.userName == Some(actor)
  {
    StockMovement(productId, quantity, None, Some(reasonId), Some("Product created"), now, Some(actor))
  }

  class Store {
    var products: map<string, Product>
    var categories: map<string, Category>
    var suppliers: map<string, Supplier>
    var reasons: map<string, Reason>
    var users: map<string, User>
    var movements: seq<StockMovement>

    /** What every action keeps: each quantity is the sum of its product's
        movements and is never negative, every movement names a product,
        names are unique ignoring case among products, categories and
        suppliers, and usernames are unique. Reason names are not in this
        list: Products Create can break their uniqueness. */
    ghost predicate Valid()
      reads this
    {
      && LedgerBalanced(products, movements)
      && StockNonNegative(products)
      && MovementsReferToProducts(products, movements)
      && NamesUnique(products, ProductName)
      && NamesUnique(categories, CategoryName)
      && NamesUnique(suppliers, SupplierName)
      && UsernamesUnique(users)
    }

    /** An empty database. */
    constructor ()
      ensures Valid()
      ensures products == map[] && categories == map[] && suppliers == map[]
      ensures reasons == map[] && users == map[] && movements == []
    {
      products, categories, suppliers := map[], map[], map[];
      reasons, users, movements := map[], map[], [];
    }

    /** ReplaceOne on the Products collection, for a product that keeps its
        quantity and whose name no other product has. */
    method ReplaceProduct(id: string, product: Product)
      requires Valid() && id in products && product.quantity == products[id].quantity
      requires !NameTaken(products, ProductName, product.name, Some(id))
      modifies this`products
      ensures Valid()
      ensures products == old(products)[id := product]
    {
      PutKeepsNamesUnique(products, ProductName, id, product);
      SameQuantityKeepsBalanced(products, movements, id, product);
      products := products[id := product];
    }

    /** A product's new quantity written together with the movement that
        explains it, as long as the stock stays non-negative. */
    method AdjustStock(id: string, product: Product, movement: StockMovement)
      requires Valid() && id in products && product.name == products[id].name && product.quantity >= 0
      requires movement.productId == id && product.quantity == products[id].quantity + movement.quantityChange
      modifies this`products, this`movements
      ensures Valid()
      ensures products == old(products)[id := product] && movements == old(movements) + [movement]
    {
      OwnNameIsFree(products, ProductName, id);
      PutKeepsNamesUnique(products, ProductName, id, product);
      AppendKeepsBalanced(products, movements, id, product, movement);
      products := products[id := product];
      movements := movements + [movement];
    }

    /** A new product written together with the movement carrying its whole
        initial quantity. */
    method InsertProduct(id: string, product: Product, movement: StockMovement)
      requires Valid() && id !in products && product.quantity >= 0
      requires !NameTaken(products, ProductName, product.name, None)
      requires movement.productId == id && product.quantity == movement.quantityChange
      modifies this`products, this`movements
      ensures Valid()
      ensures products == old(products)[id := product] && movements == old(movements) + [movement]
    {
      FreeNameStaysFree(products, ProductName, product.name, Some(id));
      PutKeepsNamesUnique(products, ProductName, id, product);
      NewProductKeepsBalanced(products, movements, id, product, movement);
      products := products[id := product];
      movements := movements + [movement];
    }

    /** The reason new products' stock is booked under: the first reason
        named exactly "Initial Stock", or one inserted under newId when
        there is none. */
    method InitialStockReason(newId: string) returns (reasonId: string)
      requires Valid() && newId !in reasons
      modifies this`reasons
      ensures Valid()
      ensures InitialReasonIds(old(reasons)) == {} ==>
        reasons == old(reasons)[newId := InitialStock] && reasonId == newId
      ensures InitialReasonIds(old(reasons)) != {} ==>
        unchanged(this) && reasonId in InitialReasonIds(old(reasons))
    {
      if InitialReasonIds(reasons) == {} {
        reasonId := newId;
        reasons := reasons[newId := InitialStock];
      } else {
        reasonId :| reasonId in InitialReasonIds(reasons);
      }
    }

    /** InsertOne or ReplaceOne on the Categories collection, for a category
        whose name no other category has. */
    method PutCategory(id: string, category: Category)
      requires Valid() && !NameTaken(categories, CategoryName, category.name, Some(id))
      modifies this`categories
      ensures Valid()
      ensures categories == old(categories)[id := category]
    {
      PutKeepsNamesUnique(categories, CategoryName, id, category);
      categories := categories[id := category];
    }

    /** InsertOne or ReplaceOne on the Reasons collection. The checked name
        keeps reason names unique when they were. */
    method PutReason(id: string, reason: Reason)
      requires Valid() && !NameTaken(reasons, ReasonName, reason.name, Some(id))
      modifies this`reasons
      ensures Valid()
      ensures reasons == old(reasons)[id := reason]
      ensures old(NamesUnique(reasons, ReasonName)) ==> NamesUnique(reasons, ReasonName)
    {
      if NamesUnique(reasons, ReasonName) {
        PutKeepsNamesUnique(reasons, ReasonName, id, reason);
      }
      reasons := reasons[id := reason];
    }

    /** InsertOne or ReplaceOne on the Suppliers collection, for a supplier
        whose name no other supplier has. */
    method PutSupplier(id: string, supplier: Supplier)
      requires Valid() && !NameTaken(suppliers, SupplierName, supplier.name, Some(id))
      modifies this`suppliers
      ensures Valid()
      ensures suppliers == old(suppliers)[id := supplier]
    {
      PutKeepsNamesUnique(suppliers, SupplierName, id, supplier);
      suppliers := suppliers[id := supplier];
    }

    /** StockMovement/StockIn. */
    method StockIn(form: MovementForm, quantityIn: int, bindingOk: bool, actor: string, now: int)
      returns (out: Outcome)
      requires Valid()
      modifies this`products, this`movements
      ensures Valid()
      ensures out == Decide(StockInErrors(old(products), form, quantityIn, bindingOk))
      ensures out.Redirected? ==>
        var id := form.productId.value;
        var p := old(products)[id];
        && products == old(products)[id := p.(quantity := p.quantity + quantityIn, audit := p.audit.Touched(actor, now))]
        && movements == old(movements) + [StockMovement(id, quantityIn, form.movementType, form.reasonId,
                                                        form.remarks, now, Some(actor))]
      ensures !out.Redirected? ==> unchanged(this)
    {
      var errors := StockInErrors(products, form, quantityIn, bindingOk);
      out := Decide(errors);
      if errors == {} {
        assert form.productId.Some? && form.productId.value in products;
        var id := form.productId.value;
        var p := products[id];
        var product := p.(quantity := p.quantity + quantityIn, audit := p.audit.Touched(actor, now));
        var movement := StockMovement(id, quantityIn, form.movementType, form.reasonId, form.remarks, now, Some(actor));
        AdjustStock(id, product, movement);
      }
    }

    /** StockMovement/StockOut. */
    method StockOut(form: MovementForm, quantityOut: int, bindingOk: bool, actor: string, now: int)
      returns (out: Outcome)
      requires Valid()
      modifies this`products, this`movements
      ensures Valid()
      ensures out == Decide(StockOutErrors(old(products), form, quantityOut, bindingOk))
      ensures out.Redirected? ==>
        var id := form.productId.value;
        var p := old(products)[id];
        && products == old(products)[id := p.(quantity := p.quantity - quantityOut, audit := p.audit.Touched(actor, now))]
        && movements == old(movements) + [StockMovement(id, -quantityOut, form.movementType, form.reasonId,
                                                        form.remarks, now, Some(actor))]
      ensures !out.Redirected? ==> unchanged(this)
    {
      var errors := StockOutErrors(products, form, quantityOut, bindingOk);
      out := Decide(errors);
      if errors == {} {
        assert form.productId.Some? && form.productId.value in products;
        var id := form.productId.value;
        assert products[id].quantity >= quantityOut;
        var p := products[id];
        var product := p.(quantity := p.quantity - quantityOut, audit := p.audit.Touched(actor, now));
        var movement := StockMovement(id, -quantityOut, form.movementType, form.reasonId, form.remarks, now, Some(actor));
        AdjustStock(id, product, movement);
      }
    }

    /** Products/Create. The product and its initial-stock movement are
        written together; the "Initial Stock" reason is looked up by exact
        name and inserted under newReasonId when missing. */
    method CreateProduct(form: ProductForm, bindingOk: bool, actor: string, now: int,
                         newId: string, newReasonId: string)
      returns (out: Outcome)
      requires Valid()
      requires newId !in products && newReasonId !in reasons
      modifies this`products, this`movements, this`reasons
      ensures Valid()
      ensures out == Decide(ProductErrors(old(products), form, None, bindingOk))
      ensures out.Redirected? ==>
        products == old(products)[newId := Product(Trim(form.name), form.quantity, form.price, form.categoryId,
                                                   form.supplierId, true, Audit.Created(actor, now))]
      ensures out.Redirected? && InitialReasonIds(old(reasons)) == {} ==>
        && reasons == old(reasons)[newReasonId := InitialStock]
        && movements == old(movements) + [CreationMovement(newId, form.quantity, newReasonId, actor, now)]
      ensures out.Redirected? && InitialReasonIds(old(reasons)) != {} ==>
        && reasons == old(reasons)
        && exists rid | rid in InitialReasonIds(old(reasons)) ::
             movements == old(movements) + [CreationMovement(newId, form.quantity, rid, actor, now)]
      ensures !out.Redirected? ==> unchanged(this)
    {
      var errors := ProductErrors(products, form, None, bindingOk);
      out := Decide(errors);
      if errors == {} {
        var product := Product(Trim(form.name), form.quantity, form.price, form.categoryId, form.supplierId,
                               true, Audit.Created(actor, now));
        var reasonId := InitialStockReason(newReasonId);
        var movement := CreationMovement(newId, form.quantity, reasonId, actor, now);
        InsertProduct(newId, product, movement);
      }
    }

    /** Products/Edit. Quantity is not bound, so it validates as 0 and is
        never written. */
    method EditProduct(id: Option<string>, form: ProductForm, bindingOk: bool, actor: string, now: int)
      returns (out: Outcome)
      requires Valid()
      modifies this`products
      ensures Valid()
      ensures out.NotFound? <==> id != form.id || id.None? || id.value !in old(products)
      ensures !out.NotFound? ==> out == Decide(ProductErrors(old(products), form.(quantity := 0), id, bindingOk))
      ensures out.Redirected? ==>
        var p := old(products)[id.value];
        products == old(products)[id.value := p.(name := Trim(form.name), price := form.price,
                                                 categoryId := form.categoryId, supplierId := form.supplierId,
                                                 isActive := form.isActive, audit := p.audit.Touched(actor, now))]
      ensures !out.Redirected? ==> unchanged(this)
    {
      if id != form.id {
        return NotFound;
      }
      var errors := ProductErrors(products, form.(quantity := 0), id, bindingOk);
      var inDb := Find(products, id);
      if inDb.None? {
        return NotFound;
      }
      out := Decide(errors);
      if errors == {} {
        var product := inDb.value;
        product := product.(name := Trim(form.name), price := form.price, categoryId := form.categoryId,
                            supplierId := form.supplierId, isActive := form.isActive);
        product := product.(audit := product.audit.Touched(actor, now));
        ReplaceProduct(id.value, product);
      }
    }

    /** Products/ToggleStatus (POST). */
    method ToggleProduct(id: Option<string>, actor: string, now: int) returns (out: Outcome)
      requires Valid()
      modifies this`products
      ensures Valid()
      ensures out == Redirected
      ensures id.Some? && id.value in old(products) ==>
        var p := old(products)[id.value];
        products == old(products)[id.value := p.(isActive := !p.isActive, audit := p.audit.Touched(actor, now))]
      ensures id.None? || id.value !in old(products) ==> unchanged(this)
    {
      var found := Find(products, id);
      if found.Some? {
        var product := found.value;
        product := product.(isActive := !product.isActive);
        product := product.(audit := product.audit.Touched(actor, now));
        OwnNameIsFree(products, ProductName, id.value);
        ReplaceProduct(id.value, product);
      }
      out := Redirected;
    }

    /** Categories/Create. */
    method CreateCategory(form: CategoryForm, bindingOk: bool, actor: string, now: int, newId: string)
      returns (out: Outcome)
      requires Valid()
      requires newId !in categories
      modifies this`categories
      ensures Valid()
      ensures out == Decide(CategoryErrors(old(categories), form, None, bindingOk))
      ensures out.Redirected? ==>
        categories == old(categories)[newId := Category(Trim(form.name), TrimOpt(form.description), true,
                                                        Audit.Created(actor, now))]
      ensures !out.Redirected? ==> unchanged(this)
    {
      var errors := CategoryErrors(categories, form, None, bindingOk);
      out := Decide(errors);
      if errors == {} {
        var category := Category(Trim(form.name), TrimOpt(form.description), true, Audit.Created(actor, now));
        FreeNameStaysFree(categories, CategoryName, category.name, Some(newId));
        PutCategory(newId, category);
      }
    }

    /** Categories/Edit: copies Name, Description and IsActive. */
    method EditCategory(id: Option<string>, form: CategoryForm, bindingOk: bool, actor: string, now: int)
      returns (out: Outcome)
      requires Valid()
      modifies this`categories
      ensures Valid()
      ensures out.NotFound? <==> id != form.id || id.None? || id.value !in old(categories)
      ensures !out.NotFound? ==> out == Decide(CategoryErrors(old(categories), form, id, bindingOk))
      ensures out.Redirected? ==>
        var c := old(categories)[id.value];
        categories == old(categories)[id.value := c.(name := Trim(form.name), description := TrimOpt(form.description),
                                                     isActive := form.isActive, audit := c.audit.Touched(actor, now))]
      ensures !out.Redirected? ==> unchanged(this)
    {
      if id != form.id {
        return NotFound;
      }
      var errors := CategoryErrors(categories, form, id, bindingOk);
      var inDb := Find(categories, id);
      if inDb.None? {
        return NotFound;
      }
      out := Decide(errors);
      if errors == {} {
        var category := inDb.value;
        category := category.(name := Trim(form.name), description := TrimOpt(form.description),
                              isActive := form.isActive);
        category := category.(audit := category.audit.Touched(actor, now));
        PutCategory(id.value, category);
      }
    }

    /** Categories/ToggleStatus (POST). */
    method ToggleCategory(id: Option<string>, actor: string, now: int) returns (out: Outcome)
      requires Valid()
      modifies this`categories
      ensures Valid()
      ensures out == Redirected
      ensures id.Some? && id.value in old(categories) ==>
        var c := old(categories)[id.value];
        categories == old(categories)[id.value := c.(isActive := !c.isActive, audit := c.audit.Touched(actor, now))]
      ensures id.None? || id.value !in old(categories) ==> unchanged(this)
    {
      var found := Find(categories, id);
      if found.Some? {
        var category := found.value;
        category := category.(isActive := !category.isActive);
        category := category.(audit := category.audit.Touched(actor, now));
        OwnNameIsFree(categories, CategoryName, id.value);
        PutCategory(id.value, category);
      }
      out := Redirected;
    }

    /** Suppliers/Create. */
    method CreateSupplier(form: SupplierForm, bindingOk: bool, actor: string, now: int, newId: string)
      returns (out: Outcome)
      requires Valid()
      requires newId !in suppliers
      modifies this`suppliers
      ensures Valid()
      ensures out == Decide(SupplierErrors(old(suppliers), form, None, bindingOk))
      ensures out.Redirected? ==>
        var t := TrimSupplierForm(form);
        suppliers == old(suppliers)[newId := Supplier(t.name, t.companyContactNum, t.address, t.contactPersons,
                                                      true, Audit.Created(actor, now))]
      ensures !out.Redirected? ==> unchanged(this)
    {
      var trimmed, errors := TrimAndRevalidate(suppliers, form, None, bindingOk);
      out := Decide(errors);
      if errors == {} {
        var supplier := Supplier(trimmed.name, trimmed.companyContactNum, trimmed.address, trimmed.contactPersons,
                                 true, Audit.Created(actor, now));
        FreeNameStaysFree(suppliers, SupplierName, trimmed.name, Some(newId));
        PutSupplier(newId, supplier);
      }
    }

    /** Suppliers/Edit: copies Name, CompanyContactNum, Address,
        ContactPersons and IsActive. */
    method EditSupplier(id: Option<string>, form: SupplierForm, bindingOk: bool, actor: string, now: int)
      returns (out: Outcome)
      requires Valid()
      modifies this`suppliers
      ensures Valid()
      ensures out.NotFound? <==> id != form.id || id.None? || id.value !in old(suppliers)
      ensures !out.NotFound? ==> out == Decide(SupplierErrors(old(suppliers), form, id, bindingOk))
      ensures out.Redirected? ==>
        var s, t := old(suppliers)[id.value], TrimSupplierForm(form);
        suppliers == old(suppliers)[id.value := s.(name := t.name, companyContactNum := t.companyContactNum,
                                                   address := t.address, contactPersons := t.contactPersons,
                                                   isActive := form.isActive, audit := s.audit.Touched(actor, now))]
      ensures !out.Redirected? ==> unchanged(this)
    {
      if id != form.id {
        return NotFound;
      }
      var trimmed, errors := TrimAndRevalidate(suppliers, form, id, bindingOk);
      var inDb := Find(suppliers, id);
      if inDb.None? {
        return NotFound;
      }
      out := Decide(errors);
      if errors == {} {
        var supplier := inDb.value;
        supplier := supplier.(name := trimmed.name, companyContactNum := trimmed.companyContactNum,
                              address := trimmed.address, contactPersons := trimmed.contactPersons,
                              isActive := form.isActive);
        supplier := supplier.(audit := supplier.audit.Touched(actor, now));
        PutSupplier(id.value, supplier);
      }
    }

    /** Suppliers/ToggleStatus (POST). */
    method ToggleSupplier(id: Option<string>, actor: string, now: int) returns (out: Outcome)
      requires Valid()
      modifies this`suppliers
      ensures Valid()
      ensures out == Redirected
      ensures id.Some? && id.value in old(suppliers) ==>
        var s := old(suppliers)[id.value];
        suppliers == old(suppliers)[id.value := s.(isActive := !s.isActive, audit := s.audit.Touched(actor, now))]
      ensures id.None? || id.value !in old(suppliers) ==> unchanged(this)
    {
      var found := Find(suppliers, id);
      if found.Some? {
        var supplier := found.value;
        supplier := supplier.(isActive := !supplier.isActive);
        supplier := supplier.(audit := supplier.audit.Touched(actor, now));
        OwnNameIsFree(suppliers, SupplierName, id.value);
        PutSupplier(id.value, supplier);
      }
      out := Redirected;
    }

    /** Reasons/Create: stores exactly the trimmed form, with no audit. */
    method CreateReason(form: ReasonForm, bindingOk: bool, newId: string) returns (out: Outcome)
      requires Valid()
      requires newId !in reasons
      modifies this`reasons
      ensures Valid()
      ensures out == Decide(ReasonErrors(old(reasons), form, None, bindingOk))
      ensures out.Redirected? ==>
        reasons == old(reasons)[newId := Reason(Trim(form.name), TrimOpt(form.description), form.reasonType)]
      ensures !out.Redirected? ==> unchanged(this)
      ensures old(NamesUnique(reasons, ReasonName)) ==> NamesUnique(reasons, ReasonName)
    {
      var errors := ReasonErrors(reasons, form, None, bindingOk);
      out := Decide(errors);
      if errors == {} {
        var reason := Reason(Trim(form.name), TrimOpt(form.description), form.reasonType);
        FreeNameStaysFree(reasons, ReasonName, reason.name, Some(newId));
        PutReason(newId, reason);
      }
    }

    /** Reasons/Edit: replaces the whole document when one has the id; with
        no such document nothing is written and the action still redirects. */
    method EditReason(id: Option<string>, form: ReasonForm, bindingOk: bool) returns (out: Outcome)
      requires Valid()
      modifies this`reasons
      ensures Valid()
      ensures out.NotFound? <==> id != form.id
      ensures !out.NotFound? ==> out == Decide(ReasonErrors(old(reasons), form, id, bindingOk))
      ensures out.Redirected? && id.Some? && id.value in old(reasons) ==>
        reasons == old(reasons)[id.value := Reason(Trim(form.name), TrimOpt(form.description), form.reasonType)]
      ensures !out.Redirected? || id.None? || id.value !in old(reasons) ==> unchanged(this)
      ensures old(NamesUnique(reasons, ReasonName)) ==> NamesUnique(reasons, ReasonName)
    {
      if id != form.id {
        return NotFound;
      }
      var errors := ReasonErrors(reasons, form, id, bindingOk);
      out := Decide(errors);
      if errors == {} && id.Some? && id.value in reasons {
        PutReason(id.value, Reason(Trim(form.name), TrimOpt(form.description), form.reasonType));
      }
    }

    /** Reasons/Delete (POST): a hard delete of that reason alone. Movements
        naming it keep the dangling reference. */
    method DeleteReason(id: Option<string>) returns (out: Outcome)
      requires Valid()
      modifies this`reasons
      ensures Valid()
      ensures out == Redirected
      ensures id.Some? ==> reasons == old(reasons) - {id.value}
      ensures id.None? ==> unchanged(this)
      ensures old(NamesUnique(reasons, ReasonName)) ==> NamesUnique(reasons, ReasonName)
    {
      if id.Some? {
        if NamesUnique(reasons, ReasonName) {
          RemoveKeepsNamesUnique(reasons, ReasonName, id.value);
        }
        reasons := reasons - {id.value};
      }
      out := Redirected;
    }

    /** Account/Register. The hash is BCrypt.HashPassword. */
    method Register(form: RegisterForm, formValid: bool, hash: string -> string, newId: string)
      returns (out: Outcome)
      requires Valid()
      requires newId !in users
      modifies this`users
      ensures Valid()
      ensures out == Decide(RegisterErrors(old(users), form, formValid))
      ensures out.Redirected? ==>
        users == old(users)[newId := User(TrimOpt(form.username), TrimOpt(form.firstName), TrimOpt(form.lastName),
                                          hash(form.password))]
      ensures !out.Redirected? ==> unchanged(this)
    {
      var firstName, lastName, username := TrimOpt(form.firstName), TrimOpt(form.lastName), TrimOpt(form.username);
      var errors := RegisterErrors(users, form, formValid);
      out := Decide(errors);
      if errors == {} {
        var user := User(username, firstName, lastName, hash(form.password));
        AddUserKeepsUnique(users, newId, user);
        users := users[newId := user];
      }
    }

    /** The start-up seed: an "admin" account with the default password,
        unless a user named "admin" exists. */
    method SeedAdmin(hash: string -> string, newId: string)
      requires Valid()
      requires newId !in users
      modifies this`users
      ensures Valid()
      ensures UsernameExists(old(users), Some("admin")) ==> unchanged(this)
      ensures !UsernameExists(old(users), Some("admin")) ==>
        users == old(users)[newId := User(Some("admin"), Some("Default"), Some("Admin"), hash("password123"))]
      ensures UsernameExists(users, Some("admin"))
    {
      if !UsernameExists(users, Some("admin")) {
        var admin := User(Some("admin"), Some("Default"), Some("Admin"), hash("password123"));
        AddUserKeepsUnique(users, newId, admin);
        users := users[newId := admin];
        assert users[newId].username == Some("admin");
      }
    }

    /** Account/Login: the user with exactly the trimmed username, if any,
        is checked with verify (BCrypt.Verify) against the stored hash. A
        null password makes verify throw; a verified user with a null
        username makes the NameIdentifier claim throw. Otherwise the user
        signs in, under the identity name FullName. */
    method Login(username: Option<string>, password: Option<string>, verify: (string, string) -> bool)
      returns (r: LoginResult)
      requires Valid()
      ensures r.SignedIn? <==>
        exists id | id in users :: users[id].username == TrimOpt(username) && users[id].username.Some? &&
          password.Some? && verify(password.value, users[id].passwordHash)
      ensures r.SignedIn? ==>
        exists id | id in users :: users[id].username == Some(r.nameIdentifier) &&
          r.nameIdentifier == TrimOpt(username).value && r.identityName == FullName(users[id])
      ensures r.LoginThrew? <==>
        exists id | id in users :: users[id].username == TrimOpt(username) &&
          (password.None? || (users[id].username.None? && verify(password.value, users[id].passwordHash)))
      ensures r.LoginFailed? <==>
        (|| !UsernameExists(users, TrimOpt(username))
         || exists id | id in users :: users[id].username == TrimOpt(username) &&
              password.Some? && !verify(password.value, users[id].passwordHash))
    {
      var name := TrimOpt(username);
      if UsernameExists(users, name) {
        var id :| id in users && users[id].username == name;
        if password.None? {
          r := LoginThrew;
        } else if !verify(password.value, users[id].passwordHash) {
          r := LoginFailed;
        } else if name.None? {
          r := LoginThrew;
        } else {
          r := SignedIn(FullName(users[id]), name.value);
        }
      } else {
        r := LoginFailed;
      }
    }
  }
}
