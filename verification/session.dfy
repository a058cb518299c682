/** The expense service driven by a sequence of requests against one store:
    each request either reads the store or, when accepted, appends one
    expense; nothing else ever changes. */
module Session {
  import opened Results
  import opened Domain
  import opened Stores
  import opened ExpenseService
  import ServiceProperties

  datatype Command = AddExpenseCommand(expense: Expense) | GetSettlementsCommand(groupName: string)

  /** What the caller sees: the registration went through, the settlement
      list, or the error the service raised. */
  datatype Reply = Added | Settlements(settlements: seq<Settlement>) | Failed(error: ServiceError)

  datatype Outcome = Outcome(store: Store, replies: seq<Reply>)

  /** The reply a registration gets, decided by the groups alone: an
      acknowledgement when admissible, otherwise the not-found error when the
      group is missing and the payer error when it is not. */
  function RegistrationReply(groups: map<string, Group>, expense: Expense): Reply
  {
    if Admissible(groups, expense) then Added
    else if expense.groupName !in groups then Failed(GroupNotFound(expense.groupName))
    else Failed(PayerNotMember)
  }

  /** One request. A rejected registration and every settlement query leave
      the store as it was; an accepted registration appends its expense;
      groups are never touched. */
  function Step(st: Store, command: Command, settle: SettlementFn): (o: Outcome)
    ensures |o.replies| == 1
    ensures o.store.groups == st.groups
    ensures command.GetSettlementsCommand? || o.replies[0].Failed? ==> o.store == st
    ensures command.AddExpenseCommand? ==>
              (o.replies[0] == Added <==> Admissible(st.groups, command.expense))
    ensures command.AddExpenseCommand? ==> o.replies[0] == RegistrationReply(st.groups, command.expense)
    ensures command.AddExpenseCommand? && !Admissible(st.groups, command.expense) ==> o.store == st
    ensures command.AddExpenseCommand? && Admissible(st.groups, command.expense) ==>
              o.store.expenses == st.expenses + [command.expense]
    ensures command.GetSettlementsCommand? ==>
              (o.replies[0].Failed? <==> command.groupName !in st.groups)
    ensures command.GetSettlementsCommand? && command.groupName !in st.groups ==>
              o.replies[0] == Failed(GroupNotFound(command.groupName))
    ensures command.GetSettlementsCommand? && command.groupName in st.groups ==>
              o.replies[0] == Settlements(settle(ExpensesOfGroup(st.expenses, command.groupName),
                                                 st.groups[command.groupName].members))
  {
    match command
    case AddExpenseCommand(expense) =>
      (match AddExpense(st, expense)
       case Success(st') => Outcome(st', [Added])
       case Failure(err) => Outcome(st, [Failed(err)]))
    case GetSettlementsCommand(groupName) =>
      (match GetSettlements(st, groupName, settle)
       case Success(settlements) => Outcome(st, [Settlements(settlements)])
       case Failure(err) => Outcome(st, [Failed(err)]))
  }

  /** The requests in order, each against the store the previous one left. */
  function Run(st: Store, commands: seq<Command>, settle: SettlementFn): (o: Outcome)
    ensures |o.replies| == |commands|
    ensures o.store.groups == st.groups
    decreases |commands|
  {
    if |commands| == 0 then Outcome(st, [])
    else
      var first := Step(st, commands[0], settle);
      var rest := Run(first.store, commands[1..], settle);
      Outcome(rest.store, first.replies + rest.replies)
  }

  /** The registrations among `commands` that pass the guard against
      `groups`, in request order. */
  function AdmittedExpenses(groups: map<string, Group>, commands: seq<Command>): (r: seq<Expense>)
    ensures |r| <= |commands|
    ensures forall i | 0 <= i < |r| :: Admissible(groups, r[i])
    decreases |commands|
  {
    if |commands| == 0 then []
    else
      var head := if commands[0].AddExpenseCommand? && Admissible(groups, commands[0].expense)
                  then [commands[0].expense] else [];
      head + AdmittedExpenses(groups, commands[1..])
  }

  /** After any run the store holds the old expenses followed by exactly the
      admissible registrations in request order: settlement queries and
      rejected registrations leave no trace, and since groups never change
      each registration's fate is decided by the groups alone. */
  lemma {:induction false} RunAppendsAdmitted(st: Store, commands: seq<Command>, settle: SettlementFn)
    ensures Run(st, commands, settle).store == Store(st.groups, st.expenses + AdmittedExpenses(st.groups, commands))
    decreases |commands|
  {
    if |commands| == 0 {
      assert st.expenses + [] == st.expenses;
    } else {
      var first := Step(st, commands[0], settle);
      RunAppendsAdmitted(first.store, commands[1..], settle);
      var head := if commands[0].AddExpenseCommand? && Admissible(st.groups, commands[0].expense)
                  then [commands[0].expense] else [];
      assert first.store.expenses == st.expenses + head;
      assert st.expenses + head + AdmittedExpenses(st.groups, commands[1..]) ==
             st.expenses + (head + AdmittedExpenses(st.groups, commands[1..]));
    }
  }

  /** Each registration's reply, and whether each settlement query fails, is
      decided by the groups the run started with: a registration gets its
      acknowledgement or its error exactly as the groups dictate, and a query
      fails, with the not-found error, exactly when its group is not stored. */
  lemma {:induction false} RunReplies(st: Store, commands: seq<Command>, settle: SettlementFn, i: nat)
    requires i < |commands|
    ensures commands[i].AddExpenseCommand? ==>
              (Run(st, commands, settle).replies[i] == Added <==> Admissible(st.groups, commands[i].expense))
    ensures commands[i].AddExpenseCommand? ==>
              Run(st, commands, settle).replies[i] == RegistrationReply(st.groups, commands[i].expense)
    ensures commands[i].GetSettlementsCommand? ==>
              (Run(st, commands, settle).replies[i].Failed? <==> commands[i].groupName !in st.groups)
    ensures commands[i].GetSettlementsCommand? && commands[i].groupName !in st.groups ==>
              Run(st, commands, settle).replies[i] == Failed(GroupNotFound(commands[i].groupName))
    decreases |commands|
  {
    var first := Step(st, commands[0], settle);
    if i > 0 {
      RunReplies(first.store, commands[1..], settle, i - 1);
    }
  }

  /** A run started from a consistent store ends in a consistent store. */
  lemma {:induction false} RunPreservesConsistency(st: Store, commands: seq<Command>, settle: SettlementFn)
    requires Consistent(st)
    ensures Consistent(Run(st, commands, settle).store)
    decreases |commands|
  {
    if |commands| > 0 {
      var first := Step(st, commands[0], settle);
      if commands[0].AddExpenseCommand? {
        ServiceProperties.AddExpensePreservesConsistency(st, commands[0].expense);
      }
      RunPreservesConsistency(first.store, commands[1..], settle);
    }
  }
}
