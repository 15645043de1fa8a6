/**
 * What every controller action shares: the audit quad, the ModelState keys
 * validation errors are recorded under, the errors the actions add, and the
 * three ways a POST action ends.
 */
module Common {
  import opened Wrappers

  /** createdBy/At and lastModifiedBy/At. A DateTime is a clock reading. */
  datatype Audit = Audit(createdBy: Option<string>, createdAt: int,
                         lastModifiedBy: Option<string>, lastModifiedAt: int)
  {
    /** Create stamps all four fields with the actor and the clock. */
    static function Created(actor: string, now: int): (a: Audit)
      ensures a.createdBy == a.lastModifiedBy == Some(actor)
      ensures a.createdAt == a.lastModifiedAt == now
    {
      Audit(Some(actor), now, Some(actor), now)
    }

    /** Edit and toggle stamp only the last-modified pair. */
    function Touched(actor: string, now: int): (a: Audit)
      ensures a.createdBy == createdBy && a.createdAt == createdAt
      ensures a.lastModifiedBy == Some(actor) && a.lastModifiedAt == now
    {
      this.(lastModifiedBy := Some(actor), lastModifiedAt := now)
    }
  }

  /** The ModelState keys that validation errors are recorded under.
      Email and Phone are the bare keys of a contact validated on its own. */
  datatype Field =
    | Name | Quantity | Price | CategoryId | SupplierId
    | CompanyContactNum | StreetAddress | Email | Phone
    | ContactName(index: nat) | ContactEmail(index: nat) | ContactPhone(index: nat)

  datatype Error =
    | BindingFailed                // an error the model binder recorded that this model does not compute
    | Invalid(field: Field)        // a validation attribute rejected the value bound to field
    | DuplicateName                // "A ... with this name already exists."
    | QuantityNotPositive          // "Quantity to add/remove must be greater than 0."
    | ProductNotFound              // "Product not found."
    | NotEnoughStock(current: int) // "Not enough stock. Current quantity: {current}"
    | UsernameTaken                // "Username already exists."

  /** Some error is already recorded under the key f. The duplicate-name
      error is recorded under Name; the binder's own errors carry keys this
      model does not know. */
  predicate KeyMarked(errors: set<Error>, f: Field) {
    Invalid(f) in errors || (f == Name && DuplicateName in errors)
  }

  /** What a validation pass adds to ModelState when it holds errors
      already: a validator runs on a key only while no error is recorded
      under it, so found's errors under marked keys are dropped. */
  function Unmarked(found: set<Error>, errors: set<Error>): (r: set<Error>)
    ensures r <= found
    ensures forall e | e in found :: e in r <==> !(e.Invalid? && KeyMarked(errors, e.field))
  {
    set e | e in found && !(e.Invalid? && KeyMarked(errors, e.field))
  }

  /** Validating a then b on top of prior records what validating both at
      once would, when a holds attribute errors only: a key that a's errors
      mark holds that very error already. */
  lemma UnmarkedInTurn(a: set<Error>, b: set<Error>, prior: set<Error>)
    requires forall e | e in a :: e.Invalid?
    ensures Unmarked(a, prior) + Unmarked(b, prior + Unmarked(a, prior)) == Unmarked(a + b, prior)
  {
    var first := Unmarked(a, prior);
    forall e | e in b && e.Invalid? && !KeyMarked(prior, e.field) && KeyMarked(prior + first, e.field)
      ensures e in first
    {
      assert Invalid(e.field) in first;
    }
  }

  /** No error under a key already marked is added by a validation pass. */
  lemma MarkedKeyGainsNothing(found: set<Error>, prior: set<Error>, f: Field)
    requires KeyMarked(prior, f) && Invalid(f) !in prior
    ensures Invalid(f) !in prior + Unmarked(found, prior)
  {
  }

  /** How a POST action ends: a redirect after the write, the form again
      with its errors, or 404. */
  datatype Outcome = Redirected | ViewWithErrors(errors: set<Error>) | NotFound

  /** An action writes and redirects when ModelState holds no error, and
      shows the form again with the errors otherwise. */
  function Decide(errors: set<Error>): (out: Outcome)
    ensures out.Redirected? <==> errors == {}
    ensures out.NotFound? == false
    ensures out.ViewWithErrors? ==> out.errors == errors
  {
    if errors == {} then Redirected else ViewWithErrors(errors)
  }

  /** The error e, recorded when ok fails. */
  function Check(ok: bool, e: Error): (r: set<Error>)
    ensures r == {} <==> ok
    ensures r <= {e}
  {
    if ok then {} else {e}
  }

  /** [RegularExpression] lets null and the empty string through (they are
      [Required]'s business) and otherwise demands a whole-string match. */
  predicate MatchesIfPresent(s: Option<string>, pattern: string -> bool) {
    s.None? || s.value == [] || pattern(s.value)
  }
}
