/**
 * The documents that hold no logic of their own: Category, Reason and
 * StockMovement, and the forms their actions bind.
 */
module Records {
  import opened Wrappers
  import opened Common

  /** A stored category. Name is [Required]; the stored name is never null. */
  datatype Category = Category(name: string, description: Option<string>, isActive: bool, audit: Audit)

  /** The Categories Create form binds Name and Description; the Edit form
      also binds Id and IsActive. */
  datatype CategoryForm = CategoryForm(id: Option<string>, name: string, description: Option<string>, isActive: bool)

  /** A stored reason; it carries no audit fields. Type is "In", "Out",
      "Both" or null for reasons from before types existed. */
  datatype Reason = Reason(name: string, description: Option<string>, reasonType: Option<string>)

  /** The Reasons Create form binds Name, Description and Type; Edit also
      binds Id. */
  datatype ReasonForm = ReasonForm(id: Option<string>, name: string, description: Option<string>, reasonType: Option<string>)

  /** One entry of the append-only stock ledger. The reason is a weak
      reference to a Reason id: it may be null or name a deleted reason. */
  datatype StockMovement = StockMovement(
    productId: string,
    quantityChange: int,
    movementType: Option<string>,
    reasonId: Option<string>,
    remarks: Option<string>,
    timestamp: int,
    userName: Option<string>)

  /** The fields of a StockMovement that the StockIn and StockOut forms
      bind; the action sets the quantity, the time and the user itself. */
  datatype MovementForm = MovementForm(
    productId: Option<string>,
    movementType: Option<string>,
    reasonId: Option<string>,
    remarks: Option<string>)

  function CategoryName(c: Category): string {
    c.name
  }

  predicate CategoryIsActive(c: Category) {
    c.isActive
  }

  function ReasonName(r: Reason): string {
    r.name
  }
}
