/** The service's unit-test scenarios, stated over the model: a two-member
    group "group1" and a 2000-unit lunch paid by its first member. */
module Scenarios {
  import opened Results
  import opened Domain
  import opened Stores
  import opened ExpenseService

  const Group1: Group := Group("group1", ["一郎", "二郎"])
  const Lunch: Expense := Expense("group1", "ランチ", 2000, "一郎")

  /** A member's expense on an existing group is saved exactly as given. */
  lemma LunchIsSaved(earlier: seq<Expense>)
    ensures AddExpense(Store(map["group1" := Group1], earlier), Lunch) ==
            Success(Store(map["group1" := Group1], earlier + [Lunch]))
  {
  }

  /** Without the group, registration fails with the not-found error. */
  lemma LunchWithoutGroupRejected(earlier: seq<Expense>)
    ensures AddExpense(Store(map[], earlier), Lunch) == Failure(GroupNotFound("group1"))
  {
  }

  /** A payer who is not among the members is rejected. */
  lemma OutsiderPayerRejected(earlier: seq<Expense>)
    ensures AddExpense(Store(map["group1" := Group1], earlier), Lunch.(payer := "四郎")) == Failure(PayerNotMember)
  {
  }

  /** Settling a group that is not stored fails with the not-found error. */
  lemma SettlingMissingGroupRejected(st: Store, settle: SettlementFn)
    requires "missing-group" !in st.groups
    ensures GetSettlements(st, "missing-group", settle) == Failure(GroupNotFound("missing-group"))
  {
  }
}
