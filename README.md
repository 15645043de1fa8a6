# Inventory tracker: a Dafny model

This project models the rules of an ASP.NET MVC inventory tracker that keeps
its data in MongoDB. The tracker holds products, categories, suppliers with
their contact people, stock-movement reasons and user accounts. Products
carry a stock quantity, and each change to that quantity is recorded as a
movement in an append-only ledger.

The model keeps the whole database in one object, `Inventory.Store`:

- one `map` per collection, keyed by document id;
- a `seq` of stock movements.

Every POST action of the controllers is a method of `Store`. Each method ends
in one of three `Outcome`s:

- `Redirected`, after the write;
- `ViewWithErrors`, carrying the ModelState errors;
- `NotFound`.

The read-only actions are functions: the movement history, the dropdown
lists, the three Index pages and the Dashboard counts. The validation
attributes on the models (required fields, ranges, the phone and email
patterns) are predicates over strings.

The headline property is the store invariant `Inventory.Store.Valid`. Every
action keeps it:

- each product's quantity equals the sum of the `QuantityChange` of its
  movements, and is never negative;
- every movement names a stored product;
- product, category and supplier names are unique ignoring case;
- usernames are unique.

Reason names are not in the invariant. Products/Create inserts an
"Initial Stock" reason after an exact-name lookup, and that insert can
duplicate a name that differs only in case (`Rules.InitialStockCanDuplicate`).
The Reasons actions therefore promise only that they keep reason names
unique when they were unique before.

How ModelState is modelled: ASP.NET validates the bound model before the
action body runs. The validation therefore sees the bound values, before any
trimming. The forms the actions take are those bound values: the binder turns
a posted empty or white-space-only string into null, which is `None` in the
model. `ModelState.IsValid` becomes the union of three parts:

- `bindingOk`, for the binder's own errors, including the implicit
  [Required] on non-nullable reference properties;
- the attribute errors of the posted form;
- the errors the action adds itself (duplicate name, quantity checks,
  product not found, username taken).

When a Suppliers action validates each contact again, a key that already
holds an error is skipped (`Common.Unmarked`). So a duplicate supplier name,
recorded under Name, hides the bare Name error of a contact with a blank
name.

The acting user's name and the clock are parameters. So are the ids the
driver generates on insert, which are required to be fresh. BCrypt's hash and
verify are function parameters whose behaviour is left open.

Files, one module each:

- `wrappers.dfy`: `Option`, for C# references that may be null.
- `text.dfy`: `String.Trim`, [Required], the ASCII case fold, and substring search.
- `common.dfy`: the audit stamps, ModelState keys and errors, and `Outcome`.
- `contact_person.dfy`, `address.dfy`, `product.dfy`, `supplier.dfy`, `user.dfy`, `records.dfy`: the models and their validation attributes.
- `ledger.dfy`: ledger sums, the newest-first sort, and the balance invariants.
- `catalogue.dfy`: case-insensitive name uniqueness.
- `filters.dfy`, `queries.dfy`: the Index filters and the read-only actions.
- `rules.dfy`: the checks each POST action makes before it writes.
- `inventory.dfy`: the `Store` class.

Where the source puts a loop or an in-place update, the model does the same.
`SupplierModel.TrimContacts` and `SupplierModel.ValidateContacts` are the
two `foreach` loops over the contacts, written as `while` loops. Each is
proved equal to a recursive specification function.

## Model

Source paths are relative to the repository root.

| member | source | states |
|---|---|---|
| Text.Trim | InventoryManagementSystem/Controllers/ProductsController.cs:130 | the result has no white space at either end and is the part of the input between a run of leading and a run of trailing white space |
| Text.TrimOfPadded | InventoryManagementSystem/Controllers/ProductsController.cs:130 | trimming white space + t + white space yields t for any trimmed t, so Trim removes exactly the surrounding white space |
| Text.TrimOfTrimmed | InventoryManagementSystem/Controllers/ReasonsController.cs:38-39 | a value with no white space at either end is left unchanged by Trim |
| Text.TrimIdempotent | InventoryManagementSystem/Controllers/CategoriesController.cs:70-71 | trimming an already trimmed value changes nothing |
| Text.RequiredIffTrimmedNonEmpty | InventoryManagementSystem/Models/Product.cs:15-17 | [Required] accepts a value exactly when it is non-null and non-empty after trimming |
| Text.FoldCaseIdempotent | InventoryManagementSystem/Controllers/ReasonsController.cs:42 | the case fold used by the duplicate checks is idempotent |
| Text.EmptySearchMatches | InventoryManagementSystem/Controllers/CategoriesController.cs:28-32 | the empty search matches every name |
| Text.SameNameIsFound | InventoryManagementSystem/Controllers/ProductsController.cs:37-38 | a name equal to the search ignoring case is found when the search is read as literal text ignoring case |
| Common.Audit.Created | InventoryManagementSystem/Controllers/ProductsController.cs:144-148 | creation stamps CreatedBy/LastModifiedBy with the actor and CreatedAt/LastModifiedAt with the clock |
| Common.Audit.Touched | InventoryManagementSystem/Controllers/StockMovementController.cs:59-60 | an update stamps only the LastModified pair and keeps CreatedBy and CreatedAt |
| Common.Decide | InventoryManagementSystem/Controllers/ProductsController.cs:141-181 | an action redirects exactly when ModelState holds no error, and otherwise returns the view with those errors |
| Common.Unmarked | InventoryManagementSystem/Controllers/SuppliersController.cs:117 | a validation pass adds a found error unless an error is already recorded under its key; it adds nothing else |
| Common.UnmarkedInTurn | InventoryManagementSystem/Controllers/SuppliersController.cs:113-119 | validating contacts one after another records what validating them together would, so the order of the loop does not matter |
| Common.Check | InventoryManagementSystem/Controllers/StockMovementController.cs:50 | an error is recorded exactly when its condition fails |
| ContactPersonModel.MobileNumberLength | InventoryManagementSystem/Models/ContactPerson.cs:19 | every phone the pattern accepts has 11 or 13 characters |
| ContactPersonModel.MobileNumberIsTrimmed | InventoryManagementSystem/Models/ContactPerson.cs:19 | an accepted phone has no white space at either end |
| ContactPersonModel.DomainChars | InventoryManagementSystem/Models/ContactPerson.cs:14 | the domain pattern accepts only word characters, '-' and '.' |
| ContactPersonModel.DomainDots | InventoryManagementSystem/Models/ContactPerson.cs:14 | an accepted domain neither starts nor ends with '.' and never has two dots in a row |
| ContactPersonModel.EmailHasOneAt | InventoryManagementSystem/Models/ContactPerson.cs:14 | a valid email holds exactly one '@' |
| ContactPersonModel.EmailParts | InventoryManagementSystem/Models/ContactPerson.cs:14 | around its '@' a valid email has a non-empty local part of word characters, '-' and '.', and a domain with no leading, trailing or doubled dot |
| ContactPersonModel.EmailIsTrimmed | InventoryManagementSystem/Models/ContactPerson.cs:14 | an accepted email has no white space at either end |
| ContactPersonModel.ContactErrors | InventoryManagementSystem/Models/ContactPerson.cs:8-20 | a contact has no validation error exactly when all three attributes accept it |
| ContactPersonModel.ValidContactFields | InventoryManagementSystem/Models/ContactPerson.cs:8-20 | a valid contact has a non-blank name, an email matching the pattern and a phone matching the pattern, and conversely |
| ContactPersonModel.TrimContact | InventoryManagementSystem/Controllers/SuppliersController.cs:98-100 | each of Name, Email and Phone is trimmed when present and stays null when null |
| ContactPersonModel.TrimKeepsRequired | InventoryManagementSystem/Controllers/SuppliersController.cs:98 | a value [Required] accepts is still accepted after trimming |
| ContactPersonModel.TrimKeepsValidContact | InventoryManagementSystem/Controllers/SuppliersController.cs:96-101 | a valid contact stays valid after trimming, and its email and phone are left as they were |
| ProductModel.ProductAttributeErrors | InventoryManagementSystem/Models/Product.cs:15-41 | the product form has no attribute error exactly when Name, CategoryId and SupplierId are non-blank, 0 <= Quantity <= int.MaxValue and Price >= 0.01; errors are keyed by those five fields only |
| ProductModel.ProductErrorsByField | InventoryManagementSystem/Models/Product.cs:15-41 | each of the five attributes records its own key exactly when it rejects its field |
| ProductModel.RangeBoundaries | InventoryManagementSystem/Models/Product.cs:19-28 | Quantity 0 is accepted and -1 rejected; Price 0.01 is accepted and 0 rejected |
| AddressModel.FullAddressIsJoin | InventoryManagementSystem/Models/Address.cs:30 | FullAddress is Street, Barangay, City, Province and Region joined by ", " |
| AddressModel.FullAddressShape | InventoryManagementSystem/Models/Address.cs:30 | FullAddress begins with the street address, and its length is the five parts' lengths plus 8 |
| AddressModel.MissingPartsRenderEmpty | InventoryManagementSystem/Models/Address.cs:30 | for any address, each null part leaves an empty segment between its separators while the other parts keep their places |
| AddressModel.OnlyStreetAddress | InventoryManagementSystem/Models/Address.cs:30 | an address with only the street renders as the street followed by ", , , , " |
| AddressModel.AddressErrors | InventoryManagementSystem/Models/Address.cs:9-27 | an address is valid exactly when StreetAddress is non-blank; the other parts are optional |
| AddressModel.TrimAddress | InventoryManagementSystem/Controllers/SuppliersController.cs:86-91 | only StreetAddress and PostalCode are trimmed; Region, Province, City and Barangay are kept as given |
| AddressModel.TrimKeepsAddressValid | InventoryManagementSystem/Controllers/SuppliersController.cs:86-91 | trimming a valid address keeps it valid, and trimming twice is trimming once |
| UserModel.FullNameParts | InventoryManagementSystem/Models/User.cs:29 | FullName starts with FirstName, has one space after it and ends with LastName; its length is the sum plus 1 |
| UserModel.FullNameAmbiguous | InventoryManagementSystem/Models/User.cs:29 | two users with different first and last names can share a FullName, so the audit actor does not identify a user |
| SupplierModel.CompanyNumberLength | InventoryManagementSystem/Models/Supplier.cs:23 | every accepted company number has 11, 13, 14 or 16 characters |
| SupplierModel.PhoneIsCompanyNumber | InventoryManagementSystem/Models/Supplier.cs:23 | every phone valid for a contact person is also a valid company number |
| SupplierModel.LandlineIsNotPhone | InventoryManagementSystem/Models/Supplier.cs:23 | the landline and toll-free forms are accepted as company numbers but not as contact phones |
| SupplierModel.CompanyNumberIsTrimmed | InventoryManagementSystem/Models/Supplier.cs:23 | an accepted company number has no white space at either end |
| SupplierModel.ContactListErrors | InventoryManagementSystem/Controllers/SuppliersController.cs:113-119 | a contact list has no error exactly when every contact in it is valid |
| SupplierModel.SupplierAttributeErrors | InventoryManagementSystem/Models/Supplier.cs:16-36 | the supplier form has no attribute error exactly when Name is non-blank, the company number is present and matches, the street address is present and every contact is valid |
| SupplierModel.TrimContactList | InventoryManagementSystem/Controllers/SuppliersController.cs:94-102 | the list keeps its length and each contact is trimmed in place |
| SupplierModel.TrimContacts | InventoryManagementSystem/Controllers/SuppliersController.cs:94-102 | the loop over the contacts yields exactly the trimmed list |
| SupplierModel.ValidateContacts | InventoryManagementSystem/Controllers/SuppliersController.cs:113-119 | the loop that validates each contact again records exactly the list's errors under the keys that no earlier error marks |
| SupplierModel.TrimmedContactsStayValid | InventoryManagementSystem/Controllers/SuppliersController.cs:113-119 | when the posted contacts are valid, the trimmed ones are too, so the second validation never adds an error |
| SupplierModel.PaddedEmailIsRejected | InventoryManagementSystem/Controllers/SuppliersController.cs:96-121 | an email with a leading space is rejected, although it would trim to a valid one, because validation runs before trimming |
| SupplierModel.TrimSupplierForm | InventoryManagementSystem/Controllers/SuppliersController.cs:82-102 | the trimmed form has Name, CompanyContactNum, the address and the contacts trimmed, and Id and IsActive unchanged |
| SupplierModel.TrimAcceptedSupplier | InventoryManagementSystem/Controllers/SuppliersController.cs:82-121 | trimming an accepted form leaves the company number as it was and keeps every attribute satisfied |
| Ledger.LedgerSumAppend | InventoryManagementSystem/Controllers/StockMovementController.cs:63-67 | appending a movement adds its change to its own product's sum and nothing to the others |
| Ledger.LedgerSumUnreferenced | InventoryManagementSystem/Controllers/ProductsController.cs:167-176 | a product no movement names has sum 0 |
| Ledger.MovementsOf | InventoryManagementSystem/Controllers/StockMovementController.cs:28-29 | the movements of one product: exactly those naming it, a sub-multiset of the ledger, totalling its sum |
| Ledger.MovementsOfCounts | InventoryManagementSystem/Controllers/StockMovementController.cs:28-29 | a movement of that product occurs in the selection as often as in the ledger |
| Ledger.InsertByTime | InventoryManagementSystem/Controllers/StockMovementController.cs:30 | inserting into a newest-first list keeps it newest-first and adds exactly that one movement |
| Ledger.SortNewestFirst | InventoryManagementSystem/Controllers/StockMovementController.cs:30 | the sort yields a permutation ordered by non-increasing timestamp |
| Ledger.NewestFirstOrdered | InventoryManagementSystem/Controllers/StockMovementController.cs:30 | in a newest-first list every movement is no older than any movement after it |
| Ledger.AppendKeepsBalanced | InventoryManagementSystem/Controllers/StockMovementController.cs:58-67 | changing one product's quantity by the change of the movement appended for it keeps every product balanced |
| Ledger.NewProductKeepsBalanced | InventoryManagementSystem/Controllers/ProductsController.cs:152-176 | a new product whose first movement carries its whole quantity is balanced, and so is every other product |
| Ledger.SameQuantityKeepsBalanced | InventoryManagementSystem/Controllers/ProductsController.cs:220-231 | rewriting a product without changing its quantity keeps the ledger balanced and the stock non-negative |
| Catalogue.PutKeepsNamesUnique | InventoryManagementSystem/Controllers/CategoriesController.cs:74-80 | writing a document keeps names unique exactly when no other document has its name ignoring case |
| Catalogue.OwnNameIsFree | InventoryManagementSystem/Controllers/CategoriesController.cs:152-163 | with unique names, a document's own name is taken by no other document |
| Catalogue.FreeNameStaysFree | InventoryManagementSystem/Controllers/CategoriesController.cs:74-80 | a name free in the whole collection is free when any one document is excluded |
| Catalogue.RemoveKeepsNamesUnique | InventoryManagementSystem/Controllers/ReasonsController.cs:101-104 | deleting a document keeps names unique |
| Filters.MatchesAllConcat | InventoryManagementSystem/Controllers/ProductsController.cs:29-64 | AND-ing two filter lists matches exactly the rows both match |
| Filters.SearchClauseMeaning | InventoryManagementSystem/Controllers/ProductsController.cs:32-39 | the search filter applies only to a non-empty search, and then matches names containing the search (trimmed for Products, untrimmed for Categories and Suppliers) ignoring case, read as literal text rather than a regular expression |
| Filters.StatusClauseMeaning | InventoryManagementSystem/Controllers/ProductsController.cs:42-52 | "Active" keeps active rows, "Inactive" keeps inactive rows, and any other status filters nothing |
| Filters.ReferenceClauseMeaning | InventoryManagementSystem/Controllers/ProductsController.cs:55-64 | a non-empty category or supplier filter keeps exactly the rows with that id |
| Filters.ProductFilterMeaning | InventoryManagementSystem/Controllers/ProductsController.cs:25-67 | the Products filter matches a row exactly when it meets every supplied parameter |
| Filters.NameStatusFilterMeaning | InventoryManagementSystem/Controllers/CategoriesController.cs:21-47 | the Categories and Suppliers filter matches a row exactly when it meets the untrimmed search, read as literal text, and the status |
| Filters.EmptyFiltersMatchAll | InventoryManagementSystem/Controllers/ProductsController.cs:25-67 | absent or empty parameters and an unknown status add no clause |
| Filters.BlankSearchMatchesAll | InventoryManagementSystem/Controllers/ProductsController.cs:32-39 | a Products search of white space only trims to the empty pattern and matches every product |
| Filters.StatusFiltersPartition | InventoryManagementSystem/Controllers/ProductsController.cs:44-51 | every row satisfies exactly one of the two status filters |
| Queries.Find | InventoryManagementSystem/Controllers/StockMovementController.cs:52 | the lookup by id finds a document exactly when the id is non-null and stored, and then finds that one |
| Queries.History | InventoryManagementSystem/Controllers/StockMovementController.cs:22-33 | NotFound exactly for a null or unknown id; otherwise that product's movements, a permutation of them, newest first |
| Queries.HistoryTotals | InventoryManagementSystem/Controllers/StockMovementController.cs:22-33 | in a balanced store the changes shown in a product's history add up to its current quantity |
| Queries.ReasonsFor | InventoryManagementSystem/Controllers/StockMovementController.cs:128-139 | the reason dropdown for a direction holds exactly the reasons typed that direction, "Both", or untyped |
| Queries.ReasonDirections | InventoryManagementSystem/Controllers/StockMovementController.cs:128-139 | "Both" and untyped reasons are offered for both directions, "In" and "Out" reasons for their own direction only |
| Queries.Active | InventoryManagementSystem/Controllers/StockMovementController.cs:121-125 | the product dropdown holds exactly the active products, unchanged |
| Queries.ProductIndexMeaning | InventoryManagementSystem/Controllers/ProductsController.cs:25-67 | Products/Index lists exactly the products meeting every supplied parameter, with the trimmed search read as literal text ignoring case, and all products when none is supplied |
| Queries.CategoryIndexMeaning | InventoryManagementSystem/Controllers/CategoriesController.cs:21-57 | Categories/Index lists exactly the categories meeting the search, read as literal text, and the status |
| Queries.SupplierIndexMeaning | InventoryManagementSystem/Controllers/SuppliersController.cs:25-61 | Suppliers/Index lists exactly the suppliers meeting the search, read as literal text, and the status |
| Queries.Dashboard | InventoryManagementSystem/Controllers/DashboardController.cs:22-24 | each count is the number of documents in its whole collection, active or not |
| Queries.ProductCountSplits | InventoryManagementSystem/Controllers/DashboardController.cs:22 | the product count is the number of active plus the number of inactive products |
| Queries.CategoryCountCoversReferenced | InventoryManagementSystem/Controllers/DashboardController.cs:23 | the category count counts documents: it is at least the number of distinct stored categories that products use |
| Rules.StockInErrors | InventoryManagementSystem/Controllers/StockMovementController.cs:50-55 | StockIn is accepted exactly when binding succeeded, quantityIn > 0 and the product exists; each failed check records its own error |
| Rules.StockOutErrors | InventoryManagementSystem/Controllers/StockMovementController.cs:94-100 | StockOut is accepted exactly when the quantity is positive, the product exists and has at least quantityOut in stock; the shortage error reports the current quantity |
| Rules.DuplicateError | InventoryManagementSystem/Controllers/ProductsController.cs:132-139 | the duplicate error is recorded exactly when another document, other than the excluded one, has the trimmed name ignoring case |
| Rules.ProductErrors | InventoryManagementSystem/Controllers/ProductsController.cs:130-141 | a product form is accepted exactly when binding succeeded, its attributes hold and its trimmed name is free |
| Rules.CategoryErrors | InventoryManagementSystem/Controllers/CategoriesController.cs:70-80 | a category form is accepted exactly when binding succeeded, its name is non-blank and its trimmed name is free |
| Rules.ReasonErrors | InventoryManagementSystem/Controllers/ReasonsController.cs:38-48 | a reason form is accepted exactly when binding succeeded, its name is non-blank and its trimmed name is free |
| Rules.SupplierErrors | InventoryManagementSystem/Controllers/SuppliersController.cs:82-121 | a supplier form is accepted exactly when binding succeeded, its attributes hold and its trimmed name is free; the second contact validation adds its errors only under unmarked keys and never decides |
| Rules.AddUserKeepsUnique | InventoryManagementSystem/Controllers/AccountController.cs:79-94 | adding a user whose username nobody has keeps usernames unique |
| Rules.RegisterErrors | InventoryManagementSystem/Controllers/AccountController.cs:75-84 | Register is accepted exactly when the form is valid and no user has the trimmed username, checked only on a valid form |
| Rules.LowerCaseInitialStock | InventoryManagementSystem/Controllers/ProductsController.cs:152-154 | "initial stock" is a different name to the exact lookup but the same name to the reasons' duplicate check |
| Rules.InitialStockCanDuplicate | InventoryManagementSystem/Controllers/ProductsController.cs:152-165 | when no reason is named exactly "Initial Stock" but one is named so ignoring case, that name differs from "Initial Stock", and inserting the new reason makes two reasons with the same name ignoring case |
| Rules.InitialStockIsAStockInReason | InventoryManagementSystem/Controllers/ProductsController.cs:158-163 | the inserted reason is typed "In", so it is offered for stock in and not for stock out |
| Rules.DuplicateMasksContactName | InventoryManagementSystem/Controllers/SuppliersController.cs:104-119 | with a non-blank, taken supplier name the errors hold DuplicateName and no bare Invalid(Name), whatever the contacts |
| Inventory.TrimAndRevalidate | InventoryManagementSystem/Controllers/SuppliersController.cs:82-121 | the trimming and validation steps of Suppliers Create and Edit yield the trimmed form and exactly the action's ModelState errors, the second validation skipping keys already marked |
| Inventory.CreationMovement | InventoryManagementSystem/Controllers/ProductsController.cs:166-174 | the creation movement is for the new product, carries its whole quantity, the reason id, the remark "Product created", the clock and the actor, and leaves the movement type null |
| Inventory.Store.ReplaceProduct | InventoryManagementSystem/Controllers/ProductsController.cs:231 | replacing a product with one of the same quantity and a free name keeps the store valid and changes that document only |
| Inventory.Store.AdjustStock | InventoryManagementSystem/Controllers/StockMovementController.cs:58-67 | a quantity change written with the movement that explains it keeps the store valid |
| Inventory.Store.InsertProduct | InventoryManagementSystem/Controllers/ProductsController.cs:141-176 | a new product written with its initial movement keeps the store valid |
| Inventory.Store.InitialStockReason | InventoryManagementSystem/Controllers/ProductsController.cs:152-165 | the reason reused is one named exactly "Initial Stock"; only when there is none is a new one inserted |
| Inventory.Store.PutCategory | InventoryManagementSystem/Controllers/CategoriesController.cs:90 | writing a category with a free name keeps the store valid |
| Inventory.Store.PutReason | InventoryManagementSystem/Controllers/ReasonsController.cs:50 | writing a reason with a free name keeps reason names unique when they were |
| Inventory.Store.PutSupplier | InventoryManagementSystem/Controllers/SuppliersController.cs:130 | writing a supplier with a free name keeps the store valid |
| Inventory.Store.StockIn | InventoryManagementSystem/Controllers/StockMovementController.cs:47-76 | keeps the store valid; on success raises that product's quantity by quantityIn, stamps LastModified and appends one movement of +quantityIn by the actor; otherwise writes nothing |
| Inventory.Store.StockOut | InventoryManagementSystem/Controllers/StockMovementController.cs:91-119 | keeps the store valid, so stock never goes negative; on success lowers the quantity by quantityOut and appends one movement of -quantityOut; otherwise writes nothing |
| Inventory.Store.CreateProduct | InventoryManagementSystem/Controllers/ProductsController.cs:127-182 | keeps the store valid; on success inserts the trimmed, active, fully stamped product and exactly one "Product created" movement of its whole quantity, under the reused or newly inserted "Initial Stock" reason; otherwise writes nothing |
| Inventory.Store.EditProduct | InventoryManagementSystem/Controllers/ProductsController.cs:198-236 | NotFound exactly on an id mismatch or a missing product; on success changes only Name, Price, CategoryId, SupplierId, IsActive and the LastModified pair |
| Inventory.Store.ToggleProduct | InventoryManagementSystem/Controllers/ProductsController.cs:260-271 | flips IsActive and stamps LastModified, so toggling twice restores IsActive; a missing id writes nothing |
| Inventory.Store.CreateCategory | InventoryManagementSystem/Controllers/CategoriesController.cs:67-93 | on success inserts the category with trimmed Name and Description, active and fully stamped; otherwise writes nothing |
| Inventory.Store.EditCategory | InventoryManagementSystem/Controllers/CategoriesController.cs:107-139 | NotFound exactly on an id mismatch or a missing category; on success copies only Name, Description and IsActive and keeps CreatedBy/At |
| Inventory.Store.ToggleCategory | InventoryManagementSystem/Controllers/CategoriesController.cs:152-163 | flips IsActive and stamps LastModified; a missing id writes nothing |
| Inventory.Store.CreateSupplier | InventoryManagementSystem/Controllers/SuppliersController.cs:79-134 | on success inserts the trimmed supplier, active and fully stamped; any error, including an invalid contact, writes nothing |
| Inventory.Store.EditSupplier | InventoryManagementSystem/Controllers/SuppliersController.cs:158-222 | NotFound exactly on an id mismatch or a missing supplier; on success copies only the trimmed Name, CompanyContactNum, Address, ContactPersons and IsActive |
| Inventory.Store.ToggleSupplier | InventoryManagementSystem/Controllers/SuppliersController.cs:237-252 | flips IsActive and stamps LastModified; a missing id writes nothing |
| Inventory.Store.CreateReason | InventoryManagementSystem/Controllers/ReasonsController.cs:35-54 | on success inserts exactly the trimmed Name and Description and the Type, with no audit; keeps reason names unique when they were |
| Inventory.Store.EditReason | InventoryManagementSystem/Controllers/ReasonsController.cs:68-87 | NotFound exactly on an id mismatch; on success replaces the whole document when it exists, and a missing id writes nothing |
| Inventory.Store.DeleteReason | InventoryManagementSystem/Controllers/ReasonsController.cs:101-105 | removes only that reason; products and movements are untouched |
| Inventory.Store.Register | InventoryManagementSystem/Controllers/AccountController.cs:68-106 | on success inserts one user with the trimmed names and the hashed password, keeping usernames unique; otherwise writes nothing |
| Inventory.Store.SeedAdmin | InventoryManagementSystem/Program.cs:30-47 | inserts the default admin only when no user is named "admin"; afterwards one is |
| Inventory.Store.Login | InventoryManagementSystem/Controllers/AccountController.cs:27-58 | signs in exactly when a user has the trimmed, non-null username and a non-null password verifies against its hash, with that user's FullName and username as claims; throws exactly when that user exists and the password is null, or the password verifies and the username is null; fails otherwise |

## Left out

- Inventory.Store.StockIn: C# `int` wrap-around on `Quantity += quantityIn` is not modelled; quantities are unbounded integers.
- Inventory.Store.StockOut: the same holds for `Quantity -= quantityOut`.
- Common.Audit.Created: one clock reading `now` stands for all of an action's `DateTime.UtcNow` calls. The source reads the clock once per stamp: CreatedAt and LastModifiedAt are separate calls (ProductsController.cs:145/147, CategoriesController.cs:85/87, SuppliersController.cs:125/127), and so are a product's LastModifiedAt and its movement's Timestamp (StockMovementController.cs:60/65 and 104/108, ProductsController.cs:147/173). So `createdAt == lastModifiedAt`, and a movement's timestamp equal to its product's LastModifiedAt, hold in the model but are not guaranteed by the source. This also applies to Inventory.Store.StockIn, Inventory.Store.StockOut and Inventory.Store.CreateProduct.
- Concurrency: each action is one atomic step. The read-check-write race between two requests is not modelled.
- Multi-document writes: Products/Create writes the product, the reason and the movement in three steps. StockIn and StockOut write in two steps: first the product's new quantity (StockMovementController.cs:61 and :105), then the movement (:67 and :110). The model writes each action's documents as one step, so a failure between the writes, which leaves the quantity and the ledger out of step, is not modelled.
- Views, ViewBag/ViewData/TempData, the SelectList rendering, and redirect targets are not modelled. The dropdown contents are modelled as maps.
- Cookie sign-in and sign-out are not modelled. Login returns the claims it would sign in with.
- Store exceptions are not modelled, including the one Register catches.
- The MVC binder's own errors are one boolean. This includes the implicit [Required] on non-nullable strings and conversion failures.
- The Register view model's class is not part of this model, so its attributes are one boolean too.
- A null Name (product, category, supplier or reason) makes `Regex.Escape` or `ToLower` throw (ProductsController.cs:133 and :206, CategoriesController.cs:74 and :115, SuppliersController.cs:106 and :186, ReasonsController.cs:42 and :75). In the model, Name is a plain string. A blank posted Name binds as null, so in the source a blank Name never shows as a validation error: the action throws. The model's Name "" or white-space-only, which it reports as Invalid(Name), stands for that case.
- The binder's own errors (`BindingFailed`) do not mark a key in the model, so they never make the second contact validation skip one.
- Regular expressions are written out as predicates over ASCII `\w` and `\d`; .NET's Unicode classes are not modelled.
- Mongo's `$` can match before a final newline. This edge of the duplicate-name pattern is not modelled.
- The case fold is ASCII only. It stands in for `ToLower` and for the regex "i" flag.
- Filters.SearchClauseMeaning: the search is matched as literal text ignoring case. The source builds a case-insensitive regular expression from it on all three Index pages, so "." matches any non-empty name there and "(" makes the query fail.
- Filters.NameStatusFilterMeaning: the same holds for the untrimmed Categories and Suppliers search.
- Filters.NameStatusFilter: the same holds for the filter itself.
- Queries.CategoryIndexMeaning: Categories/Index matches the search as literal text, not as a regular expression.
- Queries.SupplierIndexMeaning: Suppliers/Index matches the search as literal text, not as a regular expression.
- Queries.CategoryIndex and Queries.SupplierIndex: both read the search as literal text, for the same reason.
- Queries.ProductIndexMeaning: the Products/Index search is read as literal text after trimming. ProductsController.cs:37 builds a case-insensitive regular expression from it, so there the search "a+b" does not find a product named "A+B", while the model finds it.
- Text.SameNameIsFound: it speaks of the literal-text search only. Under the source's regular-expression reading a name equal to the search need not be found, as with "a+b" and "A+B".
- Filters.ProductFilterMeaning: the Products/Index search is also read as literal text after trimming, although the source treats it as a regular expression.
- [EmailAddress] and [Phone] on ContactPerson are not modelled separately. The stricter patterns beside them decide.
- Price is an exact real with the 0.01 bound. The decimal-to-double conversion in Range is not modelled.
- Queries.History: the order among movements with equal timestamps is left open.
- Queries.ProductIndex: the category and supplier lookups used only for display are not modelled.
- `StockMovement.cs` has no ReasonId property, yet Products/Create sets one. The model gives every movement an optional `reasonId`, which the stock forms bind.
- The reason dropdown of the stock forms uses each reason's Name as its value, so the source posts a reason name that no property of StockMovement receives. In the model, the posted reason reference is stored as `reasonId`; which reason it names is not checked.
- Supplier Address and ContactPersons are never null in the model. The property initializers give each a fresh empty value (Supplier.cs:33 and :36).
- LocationsController is not part of this model, nor is the Analytics DTO.
- Generated ObjectIds are parameters, required to be fresh. Movement ids are not modelled.
- Ids and references are arbitrary strings in the model. In the source they are stored as ObjectIds (Product.cs:12,32,40; Category.cs:12; Supplier.cs:13; Reason.cs:11; StockMovement.cs:11,14; User.cs:10), and the driver throws on a value that is not 24 hexadecimal digits. So a Products/Create or Products/Edit with the CategoryId "abc" throws before anything is written (ProductsController.cs:149 and :231), where `Store.CreateProduct` and `Store.EditProduct` succeed and store the string. A StockIn or StockOut with the ProductId "abc" throws at StockMovementController.cs:52 and :96, where the model returns ProductNotFound.
