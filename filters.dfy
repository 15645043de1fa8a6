/**
 * The Index pages' queries: a filter is a conjunction of clauses, to which
 * each supplied parameter adds one, and a document is listed when it
 * satisfies every clause.
 */
module Filters {
  import opened Wrappers
  import opened Text

  /** What a filter clause can look at. */
  datatype Row = Row(name: string, isActive: bool, categoryId: Option<string>, supplierId: Option<string>)

  datatype Clause =
    | NameLike(search: string)   // a case-insensitive pattern match on the name
    | ActiveIs(active: bool)     // equality on the active flag
    | CategoryIs(id: string)     // equality on the category reference
    | SupplierIs(id: string)     // equality on the supplier reference

  predicate Holds(c: Clause, r: Row) {
    match c
    case NameLike(search) => ContainsIgnoringCase(r.name, search)
    case ActiveIs(active) => r.isActive == active
    case CategoryIs(id) => r.categoryId == Some(id)
    case SupplierIs(id) => r.supplierId == Some(id)
  }

  /** The empty filter is the empty conjunction; adding a clause appends it. */
  predicate MatchesAll(filter: seq<Clause>, r: Row) {
    forall i | 0 <= i < |filter| :: Holds(filter[i], r)
  }

  lemma MatchesAllConcat(f: seq<Clause>, g: seq<Clause>, r: Row)
    ensures MatchesAll(f + g, r) <==> MatchesAll(f, r) && MatchesAll(g, r)
  {
    if MatchesAll(f, r) && MatchesAll(g, r) {
      forall i | 0 <= i < |f + g| ensures Holds((f + g)[i], r) {
        if i < |f| {
          assert (f + g)[i] == f[i];
        } else {
          assert (f + g)[i] == g[i - |f|];
        }
      }
    }
    if MatchesAll(f + g, r) {
      forall i | 0 <= i < |f| ensures Holds(f[i], r) {
        assert (f + g)[i] == f[i];
      }
      forall i | 0 <= i < |g| ensures Holds(g[i], r) {
        assert (f + g)[i + |f|] == g[i];
      }
    }
  }

  /** String.IsNullOrEmpty. */
  predicate IsNullOrEmpty(s: Option<string>) {
    s.None? || s.value == []
  }

  /** The name clause: none for a null or empty search. Products trim the
      search first; categories and suppliers use it as given. */
  function SearchClause(search: Option<string>, trimFirst: bool): seq<Clause> {
    if IsNullOrEmpty(search) then []
    else [NameLike(if trimFirst then Trim(search.value) else search.value)]
  }

  /** The status clause: "Active" and "Inactive" select on the flag; any
      other value, and no value, selects nothing. */
  function StatusClause(status: Option<string>): seq<Clause> {
    if IsNullOrEmpty(status) then []
    else if status.value == "Active" then [ActiveIs(true)]
    else if status.value == "Inactive" then [ActiveIs(false)]
    else []
  }

  /** An equality clause for a non-empty reference filter. */
  function ReferenceClause(filter: Option<string>, clause: string -> Clause): seq<Clause> {
    if IsNullOrEmpty(filter) then [] else [clause(filter.value)]
  }

  function CategoryClause(id: string): Clause {
    CategoryIs(id)
  }

  function SupplierClause(id: string): Clause {
    SupplierIs(id)
  }

  lemma MatchesSingle(c: Clause, r: Row)
    ensures MatchesAll([c], r) <==> Holds(c, r)
  {
    assert [c][0] == c;
  }

  lemma SearchClauseMeaning(search: Option<string>, trimFirst: bool, r: Row)
    ensures MatchesAll(SearchClause(search, trimFirst), r) <==>
      IsNullOrEmpty(search) || ContainsIgnoringCase(r.name, if trimFirst then Trim(search.value) else search.value)
  {
    if !IsNullOrEmpty(search) {
      MatchesSingle(SearchClause(search, trimFirst)[0], r);
    }
  }

  lemma StatusClauseMeaning(status: Option<string>, r: Row)
    ensures MatchesAll(StatusClause(status), r) <==>
      (status == Some("Active") ==> r.isActive) && (status == Some("Inactive") ==> !r.isActive)
  {
    if StatusClause(status) != [] {
      MatchesSingle(StatusClause(status)[0], r);
    }
  }

  lemma ReferenceClauseMeaning(filter: Option<string>, clause: string -> Clause, r: Row)
    ensures MatchesAll(ReferenceClause(filter, clause), r) <==> IsNullOrEmpty(filter) || Holds(clause(filter.value), r)
  {
    if !IsNullOrEmpty(filter) {
      MatchesSingle(clause(filter.value), r);
    }
  }

  /** The Products Index filter, in the order the controller builds it. */
  function ProductFilter(search: Option<string>, status: Option<string>,
                         category: Option<string>, supplier: Option<string>): (f: seq<Clause>)
    ensures |f| <= 4
  {
    SearchClause(search, true) + StatusClause(status)
    + ReferenceClause(category, CategoryClause) + ReferenceClause(supplier, SupplierClause)
  }

  /** The Categories and Suppliers Index filter. */
  function NameStatusFilter(search: Option<string>, status: Option<string>): (f: seq<Clause>)
    ensures |f| <= 2
  {
    SearchClause(search, false) + StatusClause(status)
  }

  /** The condition each Products Index parameter imposes, stated directly. */
  predicate ProductQuery(search: Option<string>, status: Option<string>,
                         category: Option<string>, supplier: Option<string>, r: Row) {
    && (IsNullOrEmpty(search) || ContainsIgnoringCase(r.name, Trim(search.value)))
    && (status == Some("Active") ==> r.isActive)
    && (status == Some("Inactive") ==> !r.isActive)
    && (IsNullOrEmpty(category) || r.categoryId == category)
    && (IsNullOrEmpty(supplier) || r.supplierId == supplier)
  }

  /** The composed filter selects exactly the rows meeting every parameter's
      condition. */
  lemma ProductFilterMeaning(search: Option<string>, status: Option<string>,
                             category: Option<string>, supplier: Option<string>, r: Row)
    ensures MatchesAll(ProductFilter(search, status, category, supplier), r) <==>
            ProductQuery(search, status, category, supplier, r)
  {
    var s, t, c, p := SearchClause(search, true), StatusClause(status),
                      ReferenceClause(category, CategoryClause), ReferenceClause(supplier, SupplierClause);
    MatchesAllConcat(s, t, r);
    MatchesAllConcat(s + t, c, r);
    MatchesAllConcat(s + t + c, p, r);
    SearchClauseMeaning(search, true, r);
    StatusClauseMeaning(status, r);
    ReferenceClauseMeaning(category, CategoryClause, r);
    ReferenceClauseMeaning(supplier, SupplierClause, r);
  }

  /** The condition of the Categories and Suppliers Index, stated directly:
      the search is not trimmed. */
  predicate NameStatusQuery(search: Option<string>, status: Option<string>, r: Row) {
    && (IsNullOrEmpty(search) || ContainsIgnoringCase(r.name, search.value))
    && (status == Some("Active") ==> r.isActive)
    && (status == Some("Inactive") ==> !r.isActive)
  }

  lemma NameStatusFilterMeaning(search: Option<string>, status: Option<string>, r: Row)
    ensures MatchesAll(NameStatusFilter(search, status), r) <==> NameStatusQuery(search, status, r)
  {
    MatchesAllConcat(SearchClause(search, false), StatusClause(status), r);
    SearchClauseMeaning(search, false, r);
    StatusClauseMeaning(status, r);
  }

  /** With no parameters, or only empty or unknown ones, nothing is filtered
      out. */
  lemma EmptyFiltersMatchAll(status: Option<string>, r: Row)
    requires status != Some("Active") && status != Some("Inactive")
    ensures ProductFilter(None, status, None, None) == []
    ensures ProductFilter(Some(""), status, Some(""), Some("")) == []
    ensures NameStatusFilter(None, status) == []
  {
  }

  /** A search that trims to nothing matches every product. */
  lemma BlankSearchMatchesAll(search: string, r: Row)
    requires search != [] && Trim(search) == []
    ensures MatchesAll(ProductFilter(Some(search), None, None, None), r)
  {
    EmptySearchMatches(r.name);
    assert ProductFilter(Some(search), None, None, None) == [NameLike([])];
  }

  /** The two status values split every collection: each row satisfies
      exactly one of them. */
  lemma StatusFiltersPartition(r: Row)
    ensures MatchesAll(StatusClause(Some("Active")), r) != MatchesAll(StatusClause(Some("Inactive")), r)
  {
    assert StatusClause(Some("Active"))[0] == ActiveIs(true);
    assert StatusClause(Some("Inactive"))[0] == ActiveIs(false);
  }
}
