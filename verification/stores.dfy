/** An in-memory stand-in for the group service and the expense repository.
    Their code is not part of this model: the lookup is a keyed map, loading
    yields the whole list, and saving is modelled as an append, as the group
    repository's save (read the list, add the record, write it back) suggests. */
module Stores {
  import opened Results
  import opened Domain

  /** Everything both repositories hold: groups by name, and every stored
      expense in the order it was saved. */
  datatype Store = Store(groups: map<string, Group>, expenses: seq<Expense>)

  /** The group service's lookup by name; an absent group is a normal outcome.
      In a store whose groups sit under their own names, a found group
      carries the requested name. */
  function GetGroupByName(st: Store, name: string): (r: Option<Group>)
    ensures r.Some? <==> name in st.groups
    ensures r.Some? ==> r.value == st.groups[name]
    ensures KeyedByName(st) && r.Some? ==> r.value.name == name
  {
    if name in st.groups then Some(st.groups[name]) else None
  }

  /** Every stored expense, of every group, in saved order, with no
      filtering by group: the service filters the result itself. */
  function LoadExpenses(st: Store): seq<Expense>
  {
    st.expenses
  }

  /** Saving, modelled as an append: earlier records and their order
      survive and the new record comes last. */
  function SaveExpense(st: Store, expense: Expense): (st': Store)
    ensures st'.groups == st.groups
    ensures |st'.expenses| == |st.expenses| + 1
    ensures st'.expenses[..|st.expenses|] == st.expenses
    ensures st'.expenses[|st.expenses|] == expense
  {
    st.(expenses := st.expenses + [expense])
  }

  /** A save is seen by the next load as the old list plus the new record,
      and no group lookup changes. */
  lemma SaveThenLoad(st: Store, expense: Expense, name: string)
    ensures LoadExpenses(SaveExpense(st, expense)) == LoadExpenses(st) + [expense]
    ensures GetGroupByName(SaveExpense(st, expense), name) == GetGroupByName(st, name)
  {
  }

  /** Groups are stored under their own name. */
  ghost predicate KeyedByName(st: Store)
  {
    forall name | name in st.groups :: st.groups[name].name == name
  }

  /** Every stored expense belongs to a stored group and was paid by one of
      that group's members: the state the service's checks maintain. */
  ghost predicate Consistent(st: Store)
  {
    && KeyedByName(st)
    && forall i | 0 <= i < |st.expenses| ::
         && st.expenses[i].groupName in st.groups
         && st.expenses[i].payer in st.groups[st.expenses[i].groupName].members
  }
}
