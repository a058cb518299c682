/** The entities the expense service works on: groups of members, expenses
    paid by one member, and the payment instructions a settlement produces. */
module Domain {

  /** A named set of participants; `members` keeps the order it was created
      with, and that order is what the settlement calculation receives. */
  datatype Group = Group(name: string, members: seq<string>)

  /** One payment made by `payer` on behalf of the group `groupName`.
      `amount` is whatever number the caller supplied: the service does not
      check its sign or size. */
  datatype Expense = Expense(groupName: string, expenseName: string, amount: int, payer: string)

  /** One instructed payment from a debtor to a creditor. */
  datatype Settlement = Settlement(from: string, to: string, amount: int)

  /** The two errors the expense service raises. The group-not-found message
      names the missing group; the payer message carries no data. */
  datatype ServiceError = GroupNotFound(groupName: string) | PayerNotMember
}
