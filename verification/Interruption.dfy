/** How a migration run can end.  MySQL commits DDL statement by statement, so a process that
    dies leaves every statement completed so far in place. */
module Interruption {

  datatype Outcome =
    | Done
    | Interrupted                 // the process died before the next statement
    | Rejected                    // the database refused a statement
    | Raised(message: string)     // the migration raised RuntimeError

  /** How many more statements complete before the process dies. */
  datatype Fuel = Unlimited | Statements(left: nat)

  predicate Affords(fuel: Fuel, n: nat) {
    fuel.Unlimited? || fuel.left >= n
  }

  /** One statement fewer to complete. */
  function Spent(fuel: Fuel): (less: Fuel)
    requires Affords(fuel, 1)
    ensures forall n: nat :: Affords(less, n) <==> Affords(fuel, n + 1)
  {
    if fuel.Unlimited? then fuel else Statements(fuel.left - 1)
  }
}
