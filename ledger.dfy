/**
 * Balance arithmetic of backend/app/services/transaction_service.py:
 * the signed effect `_update_balance` applies to an account for one row,
 * the net effect of a whole transaction table on one account, and the
 * consistency the services keep between cached balances and rows.
 */
module Ledger {
  import opened Common
  import opened Schema
  import opened Seqs

  /** The change `_update_balance` makes to the balance: +amount for INCOME,
      -amount for EXPENSE, nothing for TRANSFER (it falls through both branches).
      `_reverse_balance` makes the opposite change. */
  function Effect(kind: TxnType, amount: int): (r: int)
    ensures kind == Transfer ==> r == 0
    ensures kind == Income ==> r == amount
    ensures kind == Expense ==> r == -amount
  {
    match kind
    case Income => amount
    case Expense => -amount
    case Transfer => 0
  }

  /** What row `t` contributes to the balance of account `a`. */
  function Contribution(t: Txn, a: string): int {
    if t.accountId == a then Effect(t.kind, t.amount) else 0
  }

  /** The signed sum of the rows of account `a`. */
  function Net(rows: seq<Txn>, a: string): int
    decreases |rows|
  {
    if rows == [] then 0 else Contribution(rows[0], a) + Net(rows[1..], a)
  }

  lemma {:induction false} NetAppend(rows: seq<Txn>, t: Txn, a: string)
    ensures Net(rows + [t], a) == Net(rows, a) + Contribution(t, a)
    decreases |rows|
  {
    if rows == [] {
      assert rows + [t] == [t];
    } else {
      assert (rows + [t])[1..] == rows[1..] + [t];
      NetAppend(rows[1..], t, a);
    }
  }

  lemma {:induction false} NetUpdate(rows: seq<Txn>, i: nat, t: Txn, a: string)
    requires i < |rows|
    ensures Net(rows[i := t], a) == Net(rows, a) - Contribution(rows[i], a) + Contribution(t, a)
    decreases |rows|
  {
    if i > 0 {
      assert rows[i := t][1..] == rows[1..][i - 1 := t];
      NetUpdate(rows[1..], i - 1, t, a);
    } else {
      assert rows[i := t][1..] == rows[1..];
    }
  }

  lemma {:induction false} NetRemove(rows: seq<Txn>, i: nat, a: string)
    requires i < |rows|
    ensures Net(RemoveAt(rows, i), a) == Net(rows, a) - Contribution(rows[i], a)
    decreases |rows|
  {
    var r := RemoveAt(rows, i);
    if i > 0 {
      var tail := RemoveAt(rows[1..], i - 1);
      assert r == [rows[0]] + tail by {
        assert r == rows[..i] + rows[i + 1..];
        assert tail == rows[1..][..i - 1] + rows[1..][i..];
        assert rows[..i] == [rows[0]] + rows[1..][..i - 1];
        assert rows[i + 1..] == rows[1..][i..];
      }
      assert r[1..] == tail;
      NetRemove(rows[1..], i - 1, a);
    } else {
      assert r == rows[1..];
    }
  }

  /** An account that no row references has net zero. */
  lemma {:induction false} NetUnreferenced(rows: seq<Txn>, a: string)
    requires forall i :: 0 <= i < |rows| ==> rows[i].accountId != a
    ensures Net(rows, a) == 0
    decreases |rows|
  {
    if rows != [] {
      NetUnreferenced(rows[1..], a);
    }
  }

  function NotOn(x: string): Txn -> bool {
    (t: Txn) => t.accountId != x
  }

  /** Deleting every row of account `x` (the cascade of `delete_account`)
      leaves every other account's net as it was. */
  lemma {:induction false} NetWithoutAccount(rows: seq<Txn>, x: string, a: string)
    requires a != x
    ensures Net(Filter(rows, NotOn(x)), a) == Net(rows, a)
    decreases |rows|
  {
    if rows != [] {
      NetWithoutAccount(rows[1..], x, a);
      if rows[0].accountId != x {
        assert Filter(rows, NotOn(x)) == [rows[0]] + Filter(rows[1..], NotOn(x));
        assert ([rows[0]] + Filter(rows[1..], NotOn(x)))[1..] == Filter(rows[1..], NotOn(x));
      }
    }
  }

  /** The account row `acc` after `delta` is added to its balance if its id is `id`. */
  function Adjust(acc: Account, id: string, delta: int): Account {
    if acc.id == id then acc.(balance := acc.balance + delta) else acc
  }

  /** The accounts table after `delta` is added to the balance of account `id`. */
  function Credit(accounts: seq<Account>, id: string, delta: int): (r: seq<Account>)
    ensures |r| == |accounts|
    ensures forall i {:trigger r[i]} :: 0 <= i < |r| ==> r[i] == Adjust(accounts[i], id, delta)
  {
    seq(|accounts|, i requires 0 <= i < |accounts| => Adjust(accounts[i], id, delta))
  }

  /** Crediting the same account by `delta` and then `-delta` is no change:
      `_reverse_balance` undoes `_update_balance`. */
  lemma CreditInverse(accounts: seq<Account>, id: string, delta: int)
    ensures Credit(Credit(accounts, id, delta), id, -delta) == accounts
  {
    var r := Credit(Credit(accounts, id, delta), id, -delta);
    assert forall i :: 0 <= i < |r| ==> r[i] == accounts[i];
  }

  /** Crediting the row at index `i` is writing that one row. */
  lemma CreditAt(accounts: seq<Account>, i: nat, delta: int)
    requires i < |accounts|
    requires UniqueIds(accounts, AccountId)
    ensures Credit(accounts, accounts[i].id, delta)
         == accounts[i := accounts[i].(balance := accounts[i].balance + delta)]
  {
    var r := Credit(accounts, accounts[i].id, delta);
    forall j | 0 <= j < |accounts| && j != i
      ensures r[j] == accounts[j]
    {
      assert AccountId(accounts[i]) != AccountId(accounts[j]) by {
        if i < j { } else { }
      }
    }
  }

  lemma CreditAbsent(accounts: seq<Account>, id: string, delta: int)
    requires id !in Ids(accounts, AccountId)
    ensures Credit(accounts, id, delta) == accounts
  {
    var r := Credit(accounts, id, delta);
    forall j | 0 <= j < |accounts| ensures r[j] == accounts[j] {
      assert AccountId(accounts[j]) in Ids(accounts, AccountId);
    }
  }

  /** Every row of the credited table is some row of the original, adjusted. */
  lemma CreditPreimage(accounts: seq<Account>, id: string, delta: int, b: Account) returns (a: Account)
    requires b in Credit(accounts, id, delta)
    ensures a in accounts && b == Adjust(a, id, delta)
  {
    var r := Credit(accounts, id, delta);
    var k :| 0 <= k < |r| && r[k] == b;
    a := accounts[k];
  }

  /** Crediting changes no id. */
  lemma CreditKeepsIds(accounts: seq<Account>, id: string, delta: int)
    ensures Ids(Credit(accounts, id, delta), AccountId) == Ids(accounts, AccountId)
    ensures UniqueIds(accounts, AccountId) ==> UniqueIds(Credit(accounts, id, delta), AccountId)
  {
    var r := Credit(accounts, id, delta);
    assert forall k :: 0 <= k < |r| ==> AccountId(r[k]) == AccountId(accounts[k]);
    forall x | x in Ids(accounts, AccountId) ensures x in Ids(r, AccountId) {
      var k := IdIndex(accounts, AccountId, x);
      IdAt(r, AccountId, k);
    }
    forall x | x in Ids(r, AccountId) ensures x in Ids(accounts, AccountId) {
      var k := IdIndex(r, AccountId, x);
      IdAt(accounts, AccountId, k);
    }
  }

  /** Crediting with no change (a TRANSFER row's effect) leaves the table as it is. */
  lemma CreditZero(accounts: seq<Account>, id: string)
    ensures Credit(accounts, id, 0) == accounts
  {
    var r := Credit(accounts, id, 0);
    assert forall i :: 0 <= i < |r| ==> r[i] == accounts[i];
  }

  /** The balance of account `id`, when the table has it. */
  function BalanceOf(accounts: seq<Account>, id: string): Option<int> {
    match FindById(accounts, AccountId, id)
    case None => None
    case Some(k) => Some(accounts[k].balance)
  }

  /** Crediting `id` by `delta` moves the balance of `id` by `delta` and no
      other account's balance at all. */
  lemma CreditBalance(accounts: seq<Account>, id: string, delta: int, x: string)
    requires UniqueIds(accounts, AccountId)
    ensures BalanceOf(Credit(accounts, id, delta), x).Some? <==> x in Ids(accounts, AccountId)
    ensures x in Ids(accounts, AccountId) ==>
              BalanceOf(Credit(accounts, id, delta), x).value
              == BalanceOf(accounts, x).value + (if x == id then delta else 0)
  {
    var r := Credit(accounts, id, delta);
    CreditKeepsIds(accounts, id, delta);
    FindByIdSpec(accounts, AccountId, x);
    FindByIdSpec(r, AccountId, x);
    if x in Ids(accounts, AccountId) {
      var k := FindById(accounts, AccountId, x).value;
      var k' := FindById(r, AccountId, x).value;
      assert AccountId(accounts[k']) == x;
      SameId(accounts, AccountId, k, k');
    }
  }

  /** The sum of all balances in an accounts table. */
  function TotalBalance(accounts: seq<Account>): int
    decreases |accounts|
  {
    if accounts == [] then 0 else accounts[0].balance + TotalBalance(accounts[1..])
  }

  /** Crediting an account that is present once moves the total by exactly `delta`. */
  lemma {:induction false} TotalCredit(accounts: seq<Account>, id: string, delta: int)
    requires UniqueIds(accounts, AccountId)
    ensures TotalBalance(Credit(accounts, id, delta))
         == TotalBalance(accounts) + (if id in Ids(accounts, AccountId) then delta else 0)
    decreases |accounts|
  {
    if accounts != [] {
      var tail := accounts[1..];
      IdsCons(accounts, AccountId);
      TotalCredit(tail, id, delta);
      assert Credit(accounts, id, delta)[1..] == Credit(tail, id, delta);
    }
  }

  /** A transfer between two present, distinct accounts keeps the sum of all balances. */
  lemma TransferKeepsTotal(accounts: seq<Account>, from: string, to: string, amount: int)
    requires UniqueIds(accounts, AccountId)
    requires from in Ids(accounts, AccountId) && to in Ids(accounts, AccountId)
    ensures TotalBalance(Credit(Credit(accounts, from, -amount), to, amount)) == TotalBalance(accounts)
  {
    TotalCredit(accounts, from, -amount);
    CreditKeepsIds(accounts, from, -amount);
    TotalCredit(Credit(accounts, from, -amount), to, amount);
  }

  /** The cached balance of `a` is its opening balance, plus the net of the
      transfers made through it, plus the signed sum of its rows. */
  ghost predicate BalanceMatches(a: Account, txns: seq<Txn>,
                                 opening: map<string, int>, transferNet: map<string, int>)
  {
    && a.id in opening && a.id in transferNet
    && a.balance == opening[a.id] + transferNet[a.id] + Net(txns, a.id)
  }

  /** The consistency between balances and rows that every service call keeps:
      ids are unique, every row's account exists, and every cached balance matches. */
  ghost predicate Consistent(accounts: seq<Account>, txns: seq<Txn>,
                             opening: map<string, int>, transferNet: map<string, int>)
  {
    && UniqueIds(accounts, AccountId)
    && UniqueIds(txns, TxnId)
    && (forall i :: 0 <= i < |txns| ==> txns[i].accountId in Ids(accounts, AccountId))
    && (forall a :: a in accounts ==> BalanceMatches(a, txns, opening, transferNet))
  }

  /** Adding one row and applying its effect to its account (create_transaction) keeps consistency. */
  lemma ConsistentAfterAppend(accounts: seq<Account>, txns: seq<Txn>,
                              opening: map<string, int>, transferNet: map<string, int>, t: Txn)
    requires Consistent(accounts, txns, opening, transferNet)
    requires t.id !in Ids(txns, TxnId)
    requires t.accountId in Ids(accounts, AccountId)
    ensures Consistent(Credit(accounts, t.accountId, Effect(t.kind, t.amount)), txns + [t], opening, transferNet)
  {
    var delta := Effect(t.kind, t.amount);
    var acc := Credit(accounts, t.accountId, delta);
    var rows := txns + [t];
    CreditKeepsIds(accounts, t.accountId, delta);
    IdsAppend(txns, TxnId, t);
    forall b | b in acc ensures BalanceMatches(b, rows, opening, transferNet) {
      var a := CreditPreimage(accounts, t.accountId, delta, b);
      assert BalanceMatches(a, txns, opening, transferNet);
      NetAppend(txns, t, a.id);
    }
  }

  /** Taking one row away and reversing its effect (delete_transaction) keeps consistency. */
  lemma ConsistentAfterRemove(accounts: seq<Account>, txns: seq<Txn>,
                              opening: map<string, int>, transferNet: map<string, int>, k: nat)
    requires Consistent(accounts, txns, opening, transferNet)
    requires k < |txns|
    ensures Consistent(Credit(accounts, txns[k].accountId, -Effect(txns[k].kind, txns[k].amount)),
                       RemoveAt(txns, k), opening, transferNet)
  {
    var t := txns[k];
    var delta := -Effect(t.kind, t.amount);
    var acc := Credit(accounts, t.accountId, delta);
    var rows := RemoveAt(txns, k);
    CreditKeepsIds(accounts, t.accountId, delta);
    IdsRemove(txns, TxnId, k);
    forall b | b in acc ensures BalanceMatches(b, rows, opening, transferNet) {
      var a := CreditPreimage(accounts, t.accountId, delta, b);
      assert BalanceMatches(a, txns, opening, transferNet);
      NetRemove(txns, k, a.id);
    }
  }

  /** The rows of `txns[k := t]` are `t` and rows of `txns`. */
  lemma RewriteMembers<T>(rows: seq<T>, k: nat, t: T, x: T)
    requires k < |rows| && x in rows[k := t]
    ensures x == t || x in rows
  {
    var m :| 0 <= m < |rows| && rows[k := t][m] == x;
    if m != k { assert rows[m] == x; }
  }

  /** Rewriting one row, reversing its old effect and applying the new one
      (update_transaction) keeps consistency. */
  lemma ConsistentAfterRewrite(accounts: seq<Account>, txns: seq<Txn>,
                               opening: map<string, int>, transferNet: map<string, int>, k: nat, t: Txn)
    requires Consistent(accounts, txns, opening, transferNet)
    requires k < |txns| && t.id == txns[k].id
    requires t.accountId in Ids(accounts, AccountId)
    ensures Consistent(
              Credit(Credit(accounts, txns[k].accountId, -Effect(txns[k].kind, txns[k].amount)),
                     t.accountId, Effect(t.kind, t.amount)),
              txns[k := t], opening, transferNet)
  {
    var s := txns[k];
    var acc := Credit(Credit(accounts, s.accountId, -Effect(s.kind, s.amount)), t.accountId, Effect(t.kind, t.amount));
    IdsRewrite(txns, TxnId, k, t);
    RewriteRefs(accounts, txns, k, t, txns[k := t]);
    forall b | b in acc ensures BalanceMatches(b, txns[k := t], opening, transferNet) {
      RewriteBalance(accounts, txns, opening, transferNet, k, t, b);
    }
  }

  /** After a rewrite every row still references an existing account. */
  lemma RewriteRefs(accounts: seq<Account>, txns: seq<Txn>, k: nat, t: Txn, rows: seq<Txn>)
    requires forall i :: 0 <= i < |txns| ==> txns[i].accountId in Ids(accounts, AccountId)
    requires k < |txns| && t.accountId in Ids(accounts, AccountId) && rows == txns[k := t]
    ensures var acc := Credit(Credit(accounts, txns[k].accountId, -Effect(txns[k].kind, txns[k].amount)),
                              t.accountId, Effect(t.kind, t.amount));
            && (UniqueIds(accounts, AccountId) ==> UniqueIds(acc, AccountId))
            && forall i :: 0 <= i < |rows| ==> rows[i].accountId in Ids(acc, AccountId)
  {
    var s := txns[k];
    var mid := Credit(accounts, s.accountId, -Effect(s.kind, s.amount));
    CreditKeepsIds(accounts, s.accountId, -Effect(s.kind, s.amount));
    CreditKeepsIds(mid, t.accountId, Effect(t.kind, t.amount));
  }

  lemma RewriteBalance(accounts: seq<Account>, txns: seq<Txn>,
                       opening: map<string, int>, transferNet: map<string, int>, k: nat, t: Txn, b: Account)
    requires forall a :: a in accounts ==> BalanceMatches(a, txns, opening, transferNet)
    requires k < |txns|
    requires b in Credit(Credit(accounts, txns[k].accountId, -Effect(txns[k].kind, txns[k].amount)),
                         t.accountId, Effect(t.kind, t.amount))
    ensures BalanceMatches(b, txns[k := t], opening, transferNet)
  {
    var s := txns[k];
    var a := CreditTwice(accounts, s.accountId, -Effect(s.kind, s.amount), t.accountId, Effect(t.kind, t.amount), b);
    assert BalanceMatches(a, txns, opening, transferNet);
    NetUpdate(txns, k, t, a.id);
  }

  /** Every row of a twice-credited table is some row of the original with
      both credits applied. */
  lemma CreditTwice(accounts: seq<Account>, x: string, d1: int, y: string, d2: int, b: Account)
    returns (a: Account)
    requires b in Credit(Credit(accounts, x, d1), y, d2)
    ensures a in accounts && a.id == b.id
    ensures b.balance == a.balance + (if a.id == x then d1 else 0) + (if a.id == y then d2 else 0)
  {
    var m := CreditPreimage(Credit(accounts, x, d1), y, d2, b);
    a := CreditPreimage(accounts, x, d1, m);
  }

  /** Adding two TRANSFER legs and moving `amount` from one account to another
      (create_transfer) keeps consistency, the move being recorded in `transferNet`.
      The resulting tables are parameters, so that a caller holding them can
      use the conclusion as it stands. */
  lemma ConsistentAfterTransfer(accounts: seq<Account>, txns: seq<Txn>,
                                opening: map<string, int>, transferNet: map<string, int>,
                                out: Txn, inc: Txn, amount: int,
                                accounts': seq<Account>, txns': seq<Txn>, transferNet': map<string, int>)
    requires Consistent(accounts, txns, opening, transferNet)
    requires out.kind == Transfer && inc.kind == Transfer
    requires out.id != inc.id && out.id !in Ids(txns, TxnId) && inc.id !in Ids(txns, TxnId)
    requires out.accountId != inc.accountId
    requires out.accountId in Ids(accounts, AccountId) && inc.accountId in Ids(accounts, AccountId)
    requires accounts' == Credit(Credit(accounts, out.accountId, -amount), inc.accountId, amount)
    requires txns' == txns + [out] + [inc]
    requires out.accountId in transferNet && inc.accountId in transferNet
    requires transferNet' == transferNet[out.accountId := transferNet[out.accountId] - amount]
                                        [inc.accountId := transferNet[inc.accountId] + amount]
    ensures Consistent(accounts', txns', opening, transferNet')
  {
    TwoLegs(txns, out, inc);
    TransferRefs(accounts, txns, out, inc, amount);
    forall b | b in accounts' ensures BalanceMatches(b, txns', opening, transferNet') {
      TransferBalance(accounts, txns, opening, transferNet, out, inc, amount, b);
    }
  }

  /** After a transfer every row still references an existing account. */
  lemma TransferRefs(accounts: seq<Account>, txns: seq<Txn>, out: Txn, inc: Txn, amount: int)
    requires forall i :: 0 <= i < |txns| ==> txns[i].accountId in Ids(accounts, AccountId)
    requires out.accountId in Ids(accounts, AccountId) && inc.accountId in Ids(accounts, AccountId)
    ensures var acc := Credit(Credit(accounts, out.accountId, -amount), inc.accountId, amount);
            && (UniqueIds(accounts, AccountId) ==> UniqueIds(acc, AccountId))
            && forall i :: 0 <= i < |txns + [out] + [inc]| ==> (txns + [out] + [inc])[i].accountId in Ids(acc, AccountId)
  {
    var mid := Credit(accounts, out.accountId, -amount);
    CreditKeepsIds(accounts, out.accountId, -amount);
    CreditKeepsIds(mid, inc.accountId, amount);
  }

  /** Appending two rows with fresh, distinct ids keeps ids unique. */
  lemma TwoLegs(txns: seq<Txn>, out: Txn, inc: Txn)
    requires UniqueIds(txns, TxnId)
    requires out.id != inc.id && out.id !in Ids(txns, TxnId) && inc.id !in Ids(txns, TxnId)
    ensures UniqueIds(txns + [out] + [inc], TxnId)
  {
    IdsAppend(txns, TxnId, out);
    IdsAppend(txns + [out], TxnId, inc);
  }

  lemma TransferBalance(accounts: seq<Account>, txns: seq<Txn>,
                        opening: map<string, int>, transferNet: map<string, int>,
                        out: Txn, inc: Txn, amount: int, b: Account)
    requires forall a :: a in accounts ==> BalanceMatches(a, txns, opening, transferNet)
    requires out.kind == Transfer && inc.kind == Transfer && out.accountId != inc.accountId
    requires out.accountId in transferNet && inc.accountId in transferNet
    requires b in Credit(Credit(accounts, out.accountId, -amount), inc.accountId, amount)
    ensures BalanceMatches(b, txns + [out] + [inc], opening,
                           transferNet[out.accountId := transferNet[out.accountId] - amount]
                                      [inc.accountId := transferNet[inc.accountId] + amount])
  {
    var a := CreditTwice(accounts, out.accountId, -amount, inc.accountId, amount, b);
    assert BalanceMatches(a, txns, opening, transferNet);
    NetAppend(txns, out, a.id);
    NetAppend(txns + [out], inc, a.id);
  }

  /** Adding an account with a fresh id (create_account) keeps consistency. */
  lemma ConsistentAfterOpen(accounts: seq<Account>, txns: seq<Txn>,
                            opening: map<string, int>, transferNet: map<string, int>, a: Account)
    requires Consistent(accounts, txns, opening, transferNet)
    requires a.id !in Ids(accounts, AccountId)
    ensures Consistent(accounts + [a], txns, opening[a.id := a.balance], transferNet[a.id := 0])
  {
    var op, tn := opening[a.id := a.balance], transferNet[a.id := 0];
    IdsAppend(accounts, AccountId, a);
    forall i | 0 <= i < |txns| ensures txns[i].accountId != a.id {
      assert txns[i] in txns;
    }
    NetUnreferenced(txns, a.id);
    forall b | b in accounts + [a] ensures BalanceMatches(b, txns, op, tn) {
      if b != a {
        assert BalanceMatches(b, txns, opening, transferNet);
        assert b.id != a.id by { assert b.id in Ids(accounts, AccountId); }
      }
    }
  }

  /** Rewriting an account row without touching its id or balance (update_account) keeps consistency. */
  lemma ConsistentAfterEdit(accounts: seq<Account>, txns: seq<Txn>,
                            opening: map<string, int>, transferNet: map<string, int>, k: nat, a: Account)
    requires Consistent(accounts, txns, opening, transferNet)
    requires k < |accounts| && a.id == accounts[k].id && a.balance == accounts[k].balance
    ensures Consistent(accounts[k := a], txns, opening, transferNet)
  {
    IdsRewrite(accounts, AccountId, k, a);
    assert BalanceMatches(accounts[k], txns, opening, transferNet);
    forall b | b in accounts[k := a] ensures BalanceMatches(b, txns, opening, transferNet) {
      RewriteMembers(accounts, k, a, b);
    }
  }

  /** Deleting an account together with all of its rows (delete_account and its
      cascade) keeps consistency. */
  lemma ConsistentAfterClose(accounts: seq<Account>, txns: seq<Txn>,
                             opening: map<string, int>, transferNet: map<string, int>, k: nat)
    requires Consistent(accounts, txns, opening, transferNet)
    requires k < |accounts|
    ensures Consistent(RemoveAt(accounts, k), Filter(txns, NotOn(accounts[k].id)), opening, transferNet)
  {
    var x := accounts[k].id;
    var acc := RemoveAt(accounts, k);
    var rows := Filter(txns, NotOn(x));
    IdsRemove(accounts, AccountId, k);
    IdsFilter(txns, TxnId, NotOn(x));
    forall b | b in acc ensures BalanceMatches(b, rows, opening, transferNet) {
      assert BalanceMatches(b, txns, opening, transferNet);
      assert b.id in Ids(acc, AccountId);
      NetWithoutAccount(txns, x, b.id);
    }
  }
}
