/** The expense service: guarded registration of an expense, and the
    hand-off of one group's expenses to the settlement calculation. */
module ExpenseService {
  import opened Results
  import opened Domain
  import opened Sequences
  import opened Stores

  /** The settlement calculation takes a group's expenses and its members
      and returns payment instructions. Its code is not part of this model,
      so the service is parameterised over any such function. */
  type SettlementFn = (seq<Expense>, seq<string>) -> seq<Settlement>

  /** The guard `AddExpense` applies: the group exists and the payer is, by
      exact string equality, one of its members. Amount and label play no part. */
  predicate Admissible(groups: map<string, Group>, expense: Expense)
  {
    expense.groupName in groups && expense.payer in groups[expense.groupName].members
  }

  /** The stored expenses whose group name is exactly `groupName`, kept in
      store order. */
  function ExpensesOfGroup(expenses: seq<Expense>, groupName: string): (r: seq<Expense>)
    ensures |r| <= |expenses|
    ensures forall i | 0 <= i < |r| :: r[i].groupName == groupName
    ensures forall e | e in expenses && e.groupName == groupName :: e in r
    ensures forall e | e in r :: e in expenses
  {
    if |expenses| == 0 then []
    else if expenses[0].groupName == groupName then
      [expenses[0]] + ExpensesOfGroup(expenses[1..], groupName)
    else
      ExpensesOfGroup(expenses[1..], groupName)
  }

  /** Registers `expense`: a missing group is reported first, whatever the
      payer; then a payer outside the member list; otherwise the expense is
      saved unmodified at the end of the store. A failure leaves no new store. */
  function AddExpense(st: Store, expense: Expense): (r: Result<Store, ServiceError>)
    ensures r == Failure(GroupNotFound(expense.groupName)) <==> expense.groupName !in st.groups
    ensures r == Failure(PayerNotMember) <==>
              expense.groupName in st.groups && expense.payer !in st.groups[expense.groupName].members
    ensures r.Success? <==> Admissible(st.groups, expense)
    ensures r.Success? ==> r.value.groups == st.groups
    ensures r.Success? ==> r.value.expenses == st.expenses + [expense]
  {
    match GetGroupByName(st, expense.groupName)
    case None => Failure(GroupNotFound(expense.groupName))
    case Some(group) =>
      if !Includes(group.members, expense.payer) then Failure(PayerNotMember)
      else Success(SaveExpense(st, expense))
  }

  /** The settlements of group `groupName`: not found when no such group is
      stored; otherwise `settle` applied to exactly that group's expenses, in
      store order, and to its member list as stored. Reads the store only. */
  function GetSettlements(st: Store, groupName: string, settle: SettlementFn): (r: Result<seq<Settlement>, ServiceError>)
    ensures r.Failure? <==> groupName !in st.groups
    ensures r.Failure? ==> r.error == GroupNotFound(groupName)
    ensures r.Success? ==>
              r.value == settle(ExpensesOfGroup(st.expenses, groupName), st.groups[groupName].members)
  {
    match GetGroupByName(st, groupName)
    case None => Failure(GroupNotFound(groupName))
    case Some(group) =>
      var expenses := ExpensesOfGroup(LoadExpenses(st), groupName);
      Success(settle(expenses, group.members))
  }
}
