/**
 * The database session of backend/app/database.py: one object holding every
 * table, which a request's service call reads and changes. A request runs in
 * one session that is committed at the end or rolled back on any exception,
 * so a service call that fails leaves the tables as they were; the service
 * methods state this on each error path.
 */
module Database {
  import opened Schema
  import opened Ledger

  class Db {
    var accounts: seq<Account>
    var txns: seq<Txn>
    var categories: seq<Category>
    var budgets: seq<Budget>
    var debts: seq<Debt>

    /** Each account's balance when it was created. */
    ghost var opening: map<string, int>
    /** What transfers have added to (or taken from) each account's balance. */
    ghost var transferNet: map<string, int>

    constructor ()
      ensures accounts == [] && txns == [] && categories == [] && budgets == [] && debts == []
      ensures LedgerValid() && CategoriesValid() && BudgetsValid() && DebtsValid()
    {
      accounts, txns, categories, budgets, debts := [], [], [], [], [];
      opening, transferNet := map[], map[];
    }

    ghost predicate LedgerValid()
      reads this`accounts, this`txns, this`opening, this`transferNet
    {
      Consistent(accounts, txns, opening, transferNet)
    }

    ghost predicate CategoriesValid()
      reads this`categories
    {
      UniqueIds(categories, CategoryId)
    }

    ghost predicate BudgetsValid()
      reads this`budgets
    {
      UniqueIds(budgets, BudgetId) && BudgetKeysUnique(budgets)
    }

    ghost predicate DebtsValid()
      reads this`debts
    {
      UniqueIds(debts, DebtId)
    }
  }
}
