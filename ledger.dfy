/**
 * The stock ledger: the append-only sequence of movements, what it says
 * about each product's quantity, and the newest-first order History
 * presents it in.
 */
module Ledger {
  import opened Records
  import opened ProductModel

  /** What movement m contributes to product id. */
  function Change(m: StockMovement, id: string): int {
    if m.productId == id then m.quantityChange else 0
  }

  /** The sum of the quantity changes recorded for product id. */
  function LedgerSum(ms: seq<StockMovement>, id: string): int {
    if ms == [] then 0 else Change(ms[0], id) + LedgerSum(ms[1..], id)
  }

  /** Appending a movement adds its change to its own product's sum and to
      no other. */
  lemma {:induction false} LedgerSumAppend(ms: seq<StockMovement>, m: StockMovement, id: string)
    ensures LedgerSum(ms + [m], id) == LedgerSum(ms, id) + Change(m, id)
  {
    if ms != [] {
      assert (ms + [m])[1..] == ms[1..] + [m];
      LedgerSumAppend(ms[1..], m, id);
    }
  }

  /** A product no movement names has a ledger sum of zero. */
  lemma {:induction false} LedgerSumUnreferenced(ms: seq<StockMovement>, id: string)
    requires forall i | 0 <= i < |ms| :: ms[i].productId != id
    ensures LedgerSum(ms, id) == 0
  {
    if ms != [] {
      assert forall i | 0 <= i < |ms[1..]| :: ms[1..][i] == ms[i + 1];
      LedgerSumUnreferenced(ms[1..], id);
    }
  }

  /** The sum of all quantity changes of ms. */
  function Total(ms: seq<StockMovement>): int {
    if ms == [] then 0 else ms[0].quantityChange + Total(ms[1..])
  }

  /** The movements of product id, in ledger order. */
  function MovementsOf(ms: seq<StockMovement>, id: string): (r: seq<StockMovement>)
    ensures |r| <= |ms|
    ensures forall m | m in r :: m.productId == id
    ensures forall m | m in ms && m.productId == id :: m in r
    ensures Total(r) == LedgerSum(ms, id)
    ensures multiset(r) <= multiset(ms)
  {
    if ms == [] then []
    else
      var rest := MovementsOf(ms[1..], id);
      assert ms == [ms[0]] + ms[1..];
      if ms[0].productId == id then
        assert ([ms[0]] + rest)[1..] == rest;
        [ms[0]] + rest
      else rest
  }

  /** Every movement that MovementsOf keeps appears as often in the result as
      in the ledger. */
  lemma {:induction false} MovementsOfCounts(ms: seq<StockMovement>, id: string, m: StockMovement)
    requires m.productId == id
    ensures multiset(MovementsOf(ms, id))[m] == multiset(ms)[m]
  {
    if ms != [] {
      assert ms == [ms[0]] + ms[1..];
      MovementsOfCounts(ms[1..], id, m);
    }
  }

  /** Non-increasing timestamps: each movement is no older than the next. */
  predicate NewestFirst(ms: seq<StockMovement>) {
    |ms| <= 1 || (ms[0].timestamp >= ms[1].timestamp && NewestFirst(ms[1..]))
  }

  /** In a newest-first sequence every movement is no older than any later one. */
  lemma {:induction false} NewestFirstOrdered(ms: seq<StockMovement>)
    requires NewestFirst(ms)
    ensures forall i, j | 0 <= i < j < |ms| :: ms[i].timestamp >= ms[j].timestamp
  {
    if |ms| > 1 {
      var tail := ms[1..];
      NewestFirstOrdered(tail);
      forall i, j | 0 <= i < j < |ms| ensures ms[i].timestamp >= ms[j].timestamp {
        assert ms[j] == tail[j - 1];
        if i > 0 {
          assert ms[i] == tail[i - 1];
        } else if j > 1 {
          assert ms[1] == tail[0];
        }
      }
    }
  }

  /** m placed in front of a newest-first sequence whose head is not newer. */
  lemma InsertAtHead(m: StockMovement, ms: seq<StockMovement>)
    requires NewestFirst(ms) && (ms == [] || ms[0].timestamp <= m.timestamp)
    ensures NewestFirst([m] + ms)
    ensures multiset([m] + ms) == multiset(ms) + multiset{m}
    ensures Total([m] + ms) == Total(ms) + m.quantityChange
  {
    assert ([m] + ms)[1..] == ms;
  }

  /** The head of ms kept in front of m inserted into the rest of ms: the
      order. */
  lemma InsertBelowHead(m: StockMovement, ms: seq<StockMovement>, rest: seq<StockMovement>)
    requires NewestFirst(ms) && ms != [] && m.timestamp < ms[0].timestamp
    requires NewestFirst(rest) && rest != [] && (rest[0] == m || (|ms| > 1 && rest[0] == ms[1]))
    ensures NewestFirst([ms[0]] + rest)
  {
    assert ([ms[0]] + rest)[1..] == rest;
  }

  /** The same step: the contents and their total. */
  lemma InsertBelowHeadCounts(m: StockMovement, ms: seq<StockMovement>, rest: seq<StockMovement>)
    requires ms != []
    requires multiset(rest) == multiset(ms[1..]) + multiset{m}
    requires Total(rest) == Total(ms[1..]) + m.quantityChange
    ensures multiset([ms[0]] + rest) == multiset(ms) + multiset{m}
    ensures Total([ms[0]] + rest) == Total(ms) + m.quantityChange
  {
    assert ([ms[0]] + rest)[1..] == rest;
    assert ms == [ms[0]] + ms[1..];
  }

  /** m inserted into a newest-first sequence, before the first movement that
      is not newer than it. */
  function InsertByTime(m: StockMovement, ms: seq<StockMovement>): (r: seq<StockMovement>)
    requires NewestFirst(ms)
    ensures NewestFirst(r)
    ensures multiset(r) == multiset(ms) + multiset{m}
    ensures Total(r) == Total(ms) + m.quantityChange
    ensures |r| == |ms| + 1
    ensures r[0] == m || (ms != [] && r[0] == ms[0])
  {
    if ms == [] || ms[0].timestamp <= m.timestamp then
      InsertAtHead(m, ms);
      [m] + ms
    else
      var rest := InsertByTime(m, ms[1..]);
      InsertBelowHead(m, ms, rest);
      InsertBelowHeadCounts(m, ms, rest);
      [ms[0]] + rest
  }

  /** Insertion sort into newest-first order. */
  function SortNewestFirst(ms: seq<StockMovement>): (r: seq<StockMovement>)
    ensures NewestFirst(r)
    ensures multiset(r) == multiset(ms)
    ensures Total(r) == Total(ms)
    ensures |r| == |ms|
  {
    if ms == [] then []
    else
      assert ms == [ms[0]] + ms[1..];
      InsertByTime(ms[0], SortNewestFirst(ms[1..]))
  }

  /** Each product's quantity is the sum of its movements. */
  ghost predicate LedgerBalanced(products: map<string, Product>, ms: seq<StockMovement>) {
    forall id | id in products :: products[id].quantity == LedgerSum(ms, id)
  }

  ghost predicate StockNonNegative(products: map<string, Product>) {
    forall id | id in products :: products[id].quantity >= 0
  }

  /** Every movement names a stored product (products are never deleted). */
  ghost predicate MovementsReferToProducts(products: map<string, Product>, ms: seq<StockMovement>) {
    forall i | 0 <= i < |ms| :: ms[i].productId in products
  }

  /** Changing one product's quantity by the change of the movement appended
      for it keeps every product balanced. */
  lemma AppendKeepsBalanced(products: map<string, Product>, ms: seq<StockMovement>,
                            id: string, p: Product, m: StockMovement)
    requires LedgerBalanced(products, ms) && id in products
    requires m.productId == id && p.quantity == products[id].quantity + m.quantityChange
    ensures LedgerBalanced(products[id := p], ms + [m])
  {
    forall k | k in products[id := p] ensures products[id := p][k].quantity == LedgerSum(ms + [m], k) {
      LedgerSumAppend(ms, m, k);
    }
  }

  /** A new product whose first movement carries its whole quantity is
      balanced, and so is every other product. */
  lemma NewProductKeepsBalanced(products: map<string, Product>, ms: seq<StockMovement>,
                                id: string, p: Product, m: StockMovement)
    requires LedgerBalanced(products, ms) && MovementsReferToProducts(products, ms) && id !in products
    requires m.productId == id && p.quantity == m.quantityChange
    ensures LedgerBalanced(products[id := p], ms + [m])
    ensures MovementsReferToProducts(products[id := p], ms + [m])
  {
    LedgerSumUnreferenced(ms, id);
    forall k | k in products[id := p] ensures products[id := p][k].quantity == LedgerSum(ms + [m], k) {
      LedgerSumAppend(ms, m, k);
    }
  }

  /** Replacing a product by one with the same quantity keeps the ledger
      balanced. */
  lemma SameQuantityKeepsBalanced(products: map<string, Product>, ms: seq<StockMovement>, id: string, p: Product)
    requires LedgerBalanced(products, ms) && MovementsReferToProducts(products, ms) && StockNonNegative(products)
    requires id in products && p.quantity == products[id].quantity
    ensures LedgerBalanced(products[id := p], ms)
    ensures MovementsReferToProducts(products[id := p], ms)
    ensures StockNonNegative(products[id := p])
  {
  }
}
