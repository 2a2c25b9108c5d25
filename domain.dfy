/** Identifiers and money shared by expense creation and the balance summary. */
module Domain {

  /** Users, groups and expenses are identified by uuid strings. */
  type UserId = string
  type GroupId = string
  type ExpenseId = string

  /** Money in integer cents: every amount column is numeric(12,2), so a
      stored amount is a whole number of cents. */
  type Cents = int
}
