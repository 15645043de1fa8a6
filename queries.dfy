/**
 * The read-only actions: a product's movement history, the dropdown
 * lists, the three Index pages and the Dashboard counts. None of them
 * writes, so each is a function of the collections.
 */
module Queries {
  import opened Wrappers
  import opened Records
  import opened ProductModel
  import opened SupplierModel
  import opened Ledger
  import opened Filters

  /** The lookup of one document by id: a null id finds nothing, and so
      does an id no document has. */
  function Find<T>(m: map<string, T>, id: Option<string>): (r: Option<T>)
    ensures r.Some? <==> id.Some? && id.value in m
    ensures r.Some? ==> r.value == m[id.value]
  {
    if id.Some? && id.value in m then Some(m[id.value]) else None
  }

  /** StockMovement/History: NotFound (None) for a null or unknown id,
      otherwise the product's movements, newest first. */
  function History(products: map<string, Product>, movements: seq<StockMovement>, id: Option<string>)
    : (r: Option<seq<StockMovement>>)
    ensures r.None? <==> id.None? || id.value !in products
    ensures r.Some? ==> NewestFirst(r.value)
    ensures r.Some? ==> multiset(r.value) == multiset(MovementsOf(movements, id.value))
    ensures r.Some? ==> forall m | m in r.value :: m.productId == id.value && m in movements
    ensures r.Some? ==> forall m | m in movements && m.productId == id.value :: m in r.value
  {
    if Find(products, id).None? then None
    else
      var of := MovementsOf(movements, id.value);
      var sorted := SortNewestFirst(of);
      assert forall m | m in sorted :: m in of by {
        forall m | m in sorted ensures m in of {
          assert m in multiset(sorted);
        }
      }
      assert forall m | m in of :: m in movements by {
        forall m | m in of ensures m in movements {
          assert m in multiset(of);
        }
      }
      assert forall m | m in of :: m in sorted by {
        forall m | m in of ensures m in sorted {
          assert m in multiset(of);
        }
      }
      Some(sorted)
  }

  /** The history of a product adds up to its quantity whenever the ledger
      is balanced. */
  lemma HistoryTotals(products: map<string, Product>, movements: seq<StockMovement>, id: string)
    requires LedgerBalanced(products, movements) && id in products
    ensures Total(History(products, movements, Some(id)).value) == products[id].quantity
  {
  }

  /** The reason dropdown for direction t offers reasons typed t, "Both",
      or untyped. */
  predicate Offered(reasonType: Option<string>, direction: string) {
    reasonType == Some(direction) || reasonType == Some("Both") || reasonType.None?
  }

  function ReasonsFor(reasons: map<string, Reason>, direction: string): (r: map<string, Reason>)
    ensures forall id :: id in r <==> id in reasons && Offered(reasons[id].reasonType, direction)
    ensures forall id | id in r :: r[id] == reasons[id]
  {
    map id | id in reasons && Offered(reasons[id].reasonType, direction) :: reasons[id]
  }

  /** Reasons typed "Both" or untyped are offered for stock in and stock
      out alike; a reason typed "In" only for stock in. */
  lemma ReasonDirections(reasons: map<string, Reason>, id: string)
    requires id in reasons
    ensures (reasons[id].reasonType.None? || reasons[id].reasonType == Some("Both")) ==>
              id in ReasonsFor(reasons, "In") && id in ReasonsFor(reasons, "Out")
    ensures reasons[id].reasonType == Some("In") ==>
              id in ReasonsFor(reasons, "In") && id !in ReasonsFor(reasons, "Out")
    ensures reasons[id].reasonType == Some("Out") ==>
              id !in ReasonsFor(reasons, "In") && id in ReasonsFor(reasons, "Out")
  {
  }

  /** The documents of m whose active flag is set: the product dropdown of
      the stock pages, the category and supplier dropdowns of the product
      forms. */
  function Active<T>(m: map<string, T>, isActive: T -> bool): (r: map<string, T>)
    ensures forall id :: id in r <==> id in m && isActive(m[id])
    ensures forall id | id in r :: r[id] == m[id]
  {
    map id | id in m && isActive(m[id]) :: m[id]
  }

  function ProductRow(p: Product): Row {
    Row(p.name, p.isActive, p.categoryId, p.supplierId)
  }

  function CategoryRow(c: Category): Row {
    Row(c.name, c.isActive, None, None)
  }

  function SupplierRow(s: Supplier): Row {
    Row(s.name, s.isActive, None, None)
  }

  /** Products/Index. */
  function ProductIndex(products: map<string, Product>, search: Option<string>, status: Option<string>,
                        category: Option<string>, supplier: Option<string>): (r: map<string, Product>)
    ensures forall id | id in r :: id in products && r[id] == products[id]
  {
    var f := ProductFilter(search, status, category, supplier);
    map id | id in products && MatchesAll(f, ProductRow(products[id])) :: products[id]
  }

  /** Products/Index lists exactly the products meeting every given
      parameter; with no parameters it lists them all. */
  lemma ProductIndexMeaning(products: map<string, Product>, search: Option<string>, status: Option<string>,
                            category: Option<string>, supplier: Option<string>, id: string)
    ensures id in ProductIndex(products, search, status, category, supplier) <==>
            id in products && ProductQuery(search, status, category, supplier, ProductRow(products[id]))
    ensures ProductIndex(products, None, None, None, None) == products
  {
    if id in products {
      ProductFilterMeaning(search, status, category, supplier, ProductRow(products[id]));
    }
    assert ProductFilter(None, None, None, None) == [];
  }

  /** Categories/Index. */
  function CategoryIndex(categories: map<string, Category>, search: Option<string>, status: Option<string>)
    : (r: map<string, Category>)
    ensures forall id | id in r :: id in categories && r[id] == categories[id]
  {
    var f := NameStatusFilter(search, status);
    map id | id in categories && MatchesAll(f, CategoryRow(categories[id])) :: categories[id]
  }

  lemma CategoryIndexMeaning(categories: map<string, Category>, search: Option<string>, status: Option<string>, id: string)
    ensures id in CategoryIndex(categories, search, status) <==>
            id in categories && NameStatusQuery(search, status, CategoryRow(categories[id]))
  {
    if id in categories {
      NameStatusFilterMeaning(search, status, CategoryRow(categories[id]));
    }
  }

  /** Suppliers/Index. */
  function SupplierIndex(suppliers: map<string, Supplier>, search: Option<string>, status: Option<string>)
    : (r: map<string, Supplier>)
    ensures forall id | id in r :: id in suppliers && r[id] == suppliers[id]
  {
    var f := NameStatusFilter(search, status);
    map id | id in suppliers && MatchesAll(f, SupplierRow(suppliers[id])) :: suppliers[id]
  }

  lemma SupplierIndexMeaning(suppliers: map<string, Supplier>, search: Option<string>, status: Option<string>, id: string)
    ensures id in SupplierIndex(suppliers, search, status) <==>
            id in suppliers && NameStatusQuery(search, status, SupplierRow(suppliers[id]))
  {
    if id in suppliers {
      NameStatusFilterMeaning(search, status, SupplierRow(suppliers[id]));
    }
  }

  datatype Counts = Counts(productCount: nat, categoryCount: nat, supplierCount: nat)

  /** Dashboard: each count is the number of documents in its whole
      collection, active or not. */
  function Dashboard(products: map<string, Product>, categories: map<string, Category>,
                     suppliers: map<string, Supplier>): (r: Counts)
    ensures r.productCount == |products.Keys|
    ensures r.categoryCount == |categories.Keys|
    ensures r.supplierCount == |suppliers.Keys|
  {
    Counts(|products|, |categories|, |suppliers|)
  }

  /** The product count is the active products plus the inactive ones, as
      the two status views of Products/Index list them. */
  lemma ProductCountSplits(products: map<string, Product>, categories: map<string, Category>,
                           suppliers: map<string, Supplier>)
    ensures Dashboard(products, categories, suppliers).productCount ==
            |ProductIndex(products, None, Some("Active"), None, None)| +
            |ProductIndex(products, None, Some("Inactive"), None, None)|
  {
    var act := ProductIndex(products, None, Some("Active"), None, None);
    var inact := ProductIndex(products, None, Some("Inactive"), None, None);
    forall id ensures id in act <==> id in products && products[id].isActive {
      ProductIndexMeaning(products, None, Some("Active"), None, None, id);
    }
    forall id ensures id in inact <==> id in products && !products[id].isActive {
      ProductIndexMeaning(products, None, Some("Inactive"), None, None, id);
    }
    assert products.Keys == act.Keys + inact.Keys;
    assert act.Keys * inact.Keys == {};
    assert |products.Keys| == |act.Keys| + |inact.Keys|;
  }

  /** The category count counts documents: it is at least the number of
      distinct stored categories products refer to, and counts unused and
      inactive categories too. */
  lemma CategoryCountCoversReferenced(products: map<string, Product>, categories: map<string, Category>,
                                      suppliers: map<string, Supplier>)
    ensures var used := set id | id in products && products[id].categoryId.Some? &&
                                 products[id].categoryId.value in categories :: products[id].categoryId.value;
            |used| <= Dashboard(products, categories, suppliers).categoryCount
  {
    var used := set id | id in products && products[id].categoryId.Some? &&
                         products[id].categoryId.value in categories :: products[id].categoryId.value;
    assert used <= categories.Keys;
    assert categories.Keys == used + (categories.Keys - used);
    assert |categories.Keys| == |used| + |categories.Keys - used|;
  }
}
