/**
 * The table rows of backend/app/models. Amounts are integer cents: every
 * money column is an exact `Numeric(15, 2)`. Ids are the rows' uuid strings;
 * `createdAt` is the `datetime.utcnow()` reading taken when the row was added.
 */
module Schema {
  import opened Common
  import opened Dates
  import opened Seqs

  datatype AccountType = Card | Bank | Cash | EWallet

  datatype Account = Account(
    id: string, userId: string, name: string, kind: AccountType, currency: string,
    balance: int, color: Option<string>, icon: Option<string>, createdAt: int)

  datatype TxnType = Income | Expense | Transfer

  datatype Txn = Txn(
    id: string, userId: string, accountId: string, categoryId: Option<string>,
    kind: TxnType, amount: int, description: Option<string>, date: Date,
    relatedId: Option<string>, createdAt: int)

  datatype CategoryType = CategoryIncome | CategoryExpense

  /** A category row; `userId` is nullable in the table. */
  datatype Category = Category(
    id: string, userId: Option<string>, name: string, kind: CategoryType,
    icon: Option<string>, color: Option<string>, isDefault: bool)

  datatype Budget = Budget(
    id: string, userId: string, categoryId: Option<string>, kind: CategoryType,
    month: int, year: int, planned: int)

  /** DEBT (the user owes `personName`) and RECEIVABLE (`personName` owes the user). */
  datatype DebtType = Payable | Receivable

  datatype DebtStatus = Open | Closed

  datatype Debt = Debt(
    id: string, userId: string, kind: DebtType, personName: string, amount: int,
    currency: string, description: Option<string>, status: DebtStatus,
    dueDate: Option<Date>, createdAt: int)

  /** The columns of `uq_budget_user_cat_type_period`. */
  datatype BudgetKey = BudgetKey(userId: string, categoryId: Option<string>, kind: CategoryType, month: int, year: int)

  function KeyOf(b: Budget): BudgetKey {
    BudgetKey(b.userId, b.categoryId, b.kind, b.month, b.year)
  }

  /** No two budgets share (user, category, type, month, year). */
  ghost predicate BudgetKeysUnique(budgets: seq<Budget>) {
    forall i, j :: 0 <= i < j < |budgets| ==> KeyOf(budgets[i]) != KeyOf(budgets[j])
  }

  /** The id column is a primary key: no two rows share it. */
  ghost predicate UniqueIds<T>(rows: seq<T>, id: T -> string) {
    forall i, j :: 0 <= i < j < |rows| ==> id(rows[i]) != id(rows[j])
  }

  /** The ids present in a table. */
  function Ids<T(==)>(rows: seq<T>, id: T -> string): set<string> {
    set x | x in rows :: id(x)
  }

  function AccountId(a: Account): string { a.id }
  function TxnId(t: Txn): string { t.id }
  function CategoryId(c: Category): string { c.id }
  function BudgetId(b: Budget): string { b.id }
  function DebtId(d: Debt): string { d.id }
  function TxnAmount(t: Txn): int { t.amount }

  lemma IdAt<T>(rows: seq<T>, id: T -> string, k: nat)
    requires k < |rows|
    ensures id(rows[k]) in Ids(rows, id)
  {
    assert rows[k] in rows;
  }

  /** The index of the row with id `x`. */
  lemma IdIndex<T>(rows: seq<T>, id: T -> string, x: string) returns (k: nat)
    requires x in Ids(rows, id)
    ensures k < |rows| && id(rows[k]) == x
  {
    var r :| r in rows && id(r) == x;
    var j :| 0 <= j < |rows| && rows[j] == r;
    k := j;
  }

  /** The index of the row whose id is `x` (a `select ... where id == x`). */
  function FindById<T>(rows: seq<T>, id: T -> string, x: string): (r: Option<nat>)
    ensures r.Some? ==> r.value < |rows| && id(rows[r.value]) == x
  {
    IndexWhere(rows, (y: T) => id(y) == x)
  }

  /** The lookup finds a row exactly when the id is present. */
  lemma FindByIdSpec<T>(rows: seq<T>, id: T -> string, x: string)
    ensures FindById(rows, id, x).Some? <==> x in Ids(rows, id)
  {
    if x in Ids(rows, id) {
      var k := IdIndex(rows, id, x);
    }
    if FindById(rows, id, x).Some? {
      IdAt(rows, id, FindById(rows, id, x).value);
    }
  }

  /** Two rows with the same id in a table with unique ids are the same row. */
  lemma SameId<T>(rows: seq<T>, id: T -> string, i: nat, j: nat)
    requires UniqueIds(rows, id) && i < |rows| && j < |rows|
    requires id(rows[i]) == id(rows[j])
    ensures i == j
  {
  }

  /** Inserting a row with a fresh id. */
  lemma IdsAppend<T>(rows: seq<T>, id: T -> string, r: T)
    requires UniqueIds(rows, id) && id(r) !in Ids(rows, id)
    ensures UniqueIds(rows + [r], id)
    ensures Ids(rows + [r], id) == Ids(rows, id) + {id(r)}
  {
    var s := rows + [r];
    forall i, j | 0 <= i < j < |s| ensures id(s[i]) != id(s[j]) {
      if j == |rows| { IdAt(rows, id, i); }
    }
    assert forall x :: x in s <==> x in rows || x == r;
  }

  /** Deleting the row at index `k`. */
  lemma IdsRemove<T>(rows: seq<T>, id: T -> string, k: nat)
    requires UniqueIds(rows, id) && k < |rows|
    ensures UniqueIds(RemoveAt(rows, k), id)
    ensures Ids(RemoveAt(rows, k), id) == Ids(rows, id) - {id(rows[k])}
  {
    var s := RemoveAt(rows, k);
    forall i, j | 0 <= i < j < |s| ensures id(s[i]) != id(s[j]) {
      var i', j' := if i < k then i else i + 1, if j < k then j else j + 1;
      assert id(rows[i']) != id(rows[j']);
    }
    forall x | x in Ids(rows, id) - {id(rows[k])} ensures x in Ids(s, id) {
      var m := IdIndex(rows, id, x);
      assert m != k;
      IdAt(s, id, if m < k then m else m - 1);
    }
    forall x | x in Ids(s, id) ensures x in Ids(rows, id) - {id(rows[k])} {
      var m := IdIndex(s, id, x);
      var m' := if m < k then m else m + 1;
      IdAt(rows, id, m');
      assert m' != k;
      assert id(rows[m']) != id(rows[k]) by {
        if m' < k { } else { }
      }
    }
  }

  /** Rewriting the row at index `k` without changing its id. */
  lemma IdsRewrite<T>(rows: seq<T>, id: T -> string, k: nat, r: T)
    requires UniqueIds(rows, id) && k < |rows| && id(r) == id(rows[k])
    ensures UniqueIds(rows[k := r], id)
    ensures Ids(rows[k := r], id) == Ids(rows, id)
  {
    var s := rows[k := r];
    assert forall i :: 0 <= i < |s| ==> id(s[i]) == id(rows[i]);
    forall x | x in Ids(rows, id) ensures x in Ids(s, id) {
      var m := IdIndex(rows, id, x);
      IdAt(s, id, m);
    }
    forall x | x in Ids(s, id) ensures x in Ids(rows, id) {
      var m := IdIndex(s, id, x);
      IdAt(rows, id, m);
    }
  }

  /** A non-empty table is its first row and the rest. */
  lemma IdsCons<T>(rows: seq<T>, id: T -> string)
    requires rows != []
    ensures Ids(rows, id) == {id(rows[0])} + Ids(rows[1..], id)
    ensures UniqueIds(rows, id) ==> UniqueIds(rows[1..], id) && id(rows[0]) !in Ids(rows[1..], id)
  {
    var tail := rows[1..];
    assert rows == [rows[0]] + tail;
    if UniqueIds(rows, id) {
      forall i, j | 0 <= i < j < |tail| ensures id(tail[i]) != id(tail[j]) {
        assert id(rows[i + 1]) != id(rows[j + 1]);
      }
      forall y | y in tail ensures id(y) != id(rows[0]) {
        var n :| 0 <= n < |tail| && tail[n] == y;
        assert id(rows[0]) != id(rows[n + 1]);
      }
    }
  }

  /** Keeping only some rows (a DELETE ... WHERE, or a cascade). */
  lemma {:induction false} IdsFilter<T(!new)>(rows: seq<T>, id: T -> string, p: T -> bool)
    requires UniqueIds(rows, id)
    ensures UniqueIds(Filter(rows, p), id)
    ensures Ids(Filter(rows, p), id) <= Ids(rows, id)
    decreases |rows|
  {
    if rows != [] {
      var tail := rows[1..];
      IdsCons(rows, id);
      IdsFilter(tail, id, p);
      var rest := Filter(tail, p);
      if p(rows[0]) {
        assert Filter(rows, p) == [rows[0]] + rest;
        IdsAppendFront(rest, id, rows[0]);
      } else {
        assert Filter(rows, p) == rest;
      }
    }
  }

  lemma IdsAppendFront<T>(rows: seq<T>, id: T -> string, r: T)
    requires UniqueIds(rows, id) && id(r) !in Ids(rows, id)
    ensures UniqueIds([r] + rows, id)
  {
    var s := [r] + rows;
    forall i, j | 0 <= i < j < |s| ensures id(s[i]) != id(s[j]) {
      if i == 0 { IdAt(rows, id, j - 1); }
      else { assert id(rows[i - 1]) != id(rows[j - 1]); }
    }
  }
}
