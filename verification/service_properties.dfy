/** Properties relating several calls of the expense service, or a call to
    the state the store is kept in. */
module ServiceProperties {
  import opened Results
  import opened Domain
  import opened Stores
  import opened ExpenseService
  import GroupFilter

  /** A registration that passes the guards keeps every stored expense
      attached to a stored group and paid by one of its members. */
  lemma AddExpensePreservesConsistency(st: Store, expense: Expense)
    requires Consistent(st)
    ensures AddExpense(st, expense).Success? ==> Consistent(AddExpense(st, expense).value)
  {
  }

  /** Whether a registration is accepted depends on the group name and the
      payer only: any amount, negative or zero included, and any label are
      accepted alike. */
  lemma AddExpenseIgnoresAmountAndLabel(st: Store, expense: Expense, amount: int, description: string)
    ensures AddExpense(st, expense.(amount := amount, expenseName := description)).Success? ==
            AddExpense(st, expense).Success?
  {
  }

  /** After a successful registration the settlements of the expense's own
      group receive it as their last expense, and every other group's
      settlements are exactly what they were. */
  lemma {:induction false} SettlementsAfterAdd(st: Store, expense: Expense, groupName: string, settle: SettlementFn)
    requires AddExpense(st, expense).Success?
    ensures groupName == expense.groupName ==>
              GetSettlements(AddExpense(st, expense).value, groupName, settle) ==
              Success(settle(ExpensesOfGroup(st.expenses, groupName) + [expense], st.groups[groupName].members))
    ensures groupName != expense.groupName ==>
              GetSettlements(AddExpense(st, expense).value, groupName, settle) == GetSettlements(st, groupName, settle)
  {
    var st' := AddExpense(st, expense).value;
    GroupFilter.FilterAppend(st.expenses, [expense], groupName);
    if groupName != expense.groupName {
      assert ExpensesOfGroup([expense], groupName) == [];
      assert ExpensesOfGroup(st'.expenses, groupName) == ExpensesOfGroup(st.expenses, groupName);
    } else {
      assert ExpensesOfGroup([expense], groupName) == [expense];
    }
  }

  /** In a consistent store, every expense handed to the settlement
      calculation was paid by one of the members handed with it. */
  lemma SettlementInputsConsistent(st: Store, groupName: string)
    requires Consistent(st)
    requires groupName in st.groups
    ensures forall e | e in ExpensesOfGroup(st.expenses, groupName) :: e.payer in st.groups[groupName].members
  {
  }
}
