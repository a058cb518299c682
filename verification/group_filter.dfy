/** What the group filter in `getSettlements` hands on: precisely the
    matching expenses, each as often as it is stored, in store order. */
module GroupFilter {
  import opened Domain
  import opened Sequences
  import opened ExpenseService

  /** Filtering the concatenation of two stores is filtering each in turn:
      the relative order of the stored expenses is never changed. */
  lemma {:induction false} FilterAppend(a: seq<Expense>, b: seq<Expense>, groupName: string)
    ensures ExpensesOfGroup(a + b, groupName) == ExpensesOfGroup(a, groupName) + ExpensesOfGroup(b, groupName)
    decreases |a|
  {
    if |a| == 0 {
      assert a + b == b;
    } else {
      assert (a + b)[1..] == a[1..] + b;
      FilterAppend(a[1..], b, groupName);
    }
  }

  /** The filter keeps each matching expense as many times as it is stored
      and drops every other one. */
  lemma {:induction false} FilterMultiplicity(expenses: seq<Expense>, groupName: string, e: Expense)
    ensures multiset(ExpensesOfGroup(expenses, groupName))[e] ==
            if e.groupName == groupName then multiset(expenses)[e] else 0
    decreases |expenses|
  {
    if |expenses| == 0 {
    } else {
      FilterMultiplicity(expenses[1..], groupName, e);
      assert expenses == [expenses[0]] + expenses[1..];
    }
  }

  /** The filter's result is a subsequence of the store. */
  lemma {:induction false} FilterIsSubsequence(expenses: seq<Expense>, groupName: string)
    ensures IsSubsequence(ExpensesOfGroup(expenses, groupName), expenses)
    decreases |expenses|
  {
    if |expenses| == 0 {
    } else {
      FilterIsSubsequence(expenses[1..], groupName);
      var r := ExpensesOfGroup(expenses, groupName);
      if expenses[0].groupName == groupName {
        assert r[0] == expenses[0] && r[1..] == ExpensesOfGroup(expenses[1..], groupName);
      }
    }
  }

  /** No subsequence of the store whose expenses all belong to the group is
      longer than the filter's result, and one as long is that result: the
      filter returns the single longest matching subsequence. */
  lemma {:induction false} FilterIsLongestMatchingSubsequence(r: seq<Expense>, expenses: seq<Expense>, groupName: string)
    requires IsSubsequence(r, expenses)
    requires forall i | 0 <= i < |r| :: r[i].groupName == groupName
    ensures |r| <= |ExpensesOfGroup(expenses, groupName)|
    ensures |r| == |ExpensesOfGroup(expenses, groupName)| ==> r == ExpensesOfGroup(expenses, groupName)
    decreases |expenses|
  {
    if |r| == 0 {
    } else if r[0] == expenses[0] && IsSubsequence(r[1..], expenses[1..]) {
      FilterIsLongestMatchingSubsequence(r[1..], expenses[1..], groupName);
      assert r == [r[0]] + r[1..];
    } else {
      FilterIsLongestMatchingSubsequence(r, expenses[1..], groupName);
    }
  }

  /** Filtering twice by the same name changes nothing more. */
  lemma {:induction false} FilterIdempotent(expenses: seq<Expense>, groupName: string)
    ensures ExpensesOfGroup(ExpensesOfGroup(expenses, groupName), groupName) == ExpensesOfGroup(expenses, groupName)
    decreases |expenses|
  {
    if |expenses| == 0 {
    } else {
      FilterIdempotent(expenses[1..], groupName);
      var r := ExpensesOfGroup(expenses, groupName);
      if expenses[0].groupName == groupName {
        assert r[1..] == ExpensesOfGroup(expenses[1..], groupName);
      }
    }
  }
}
