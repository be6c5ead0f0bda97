/**
 * backend/app/services/transaction_service.py: INCOME, EXPENSE and TRANSFER
 * rows, the cached account balances they move, and the paginated listing.
 *
 * Every state-changing operation is a method on the session `Db`; an error
 * path restores the tables it touched, as the request's rollback does. The
 * fresh uuids and `utcnow()` readings the rows get are parameters.
 */
module TransactionService {
  import opened Common
  import opened Dates
  import opened Seqs
  import opened Schema
  import opened Ledger
  import opened Database

  const AccountNotFound := HttpError(404, "Account not found")
  const TransactionNotFound := HttpError(404, "Transaction not found")
  const SameAccount := HttpError(400, "Cannot transfer to the same account")
  const SourceNotFound := HttpError(404, "Source account not found")
  const DestinationNotFound := HttpError(404, "Destination account not found")

  /** The `TransactionCreate` request body. */
  datatype TransactionCreate = TransactionCreate(
    accountId: string, categoryId: Option<string>, kind: TxnType, amount: int,
    description: Option<string>, date: Date)

  /** The `TransactionUpdate` request body after `model_dump(exclude_unset=True)`:
      every field is left out, or given, possibly as an explicit null. */
  datatype TransactionUpdate = TransactionUpdate(
    accountId: Patch<Option<string>>, categoryId: Patch<Option<string>>,
    kind: Patch<Option<TxnType>>, amount: Patch<Option<int>>,
    description: Patch<Option<string>>, date: Patch<Option<Date>>)

  /** The `TransferCreate` request body. */
  datatype TransferCreate = TransferCreate(
    fromAccountId: string, toAccountId: string, amount: int,
    description: Option<string>, date: Date)

  /** The optional filters of `get_transactions`. */
  datatype TxnQuery = TxnQuery(
    dateFrom: Option<Date>, dateTo: Option<Date>, categoryId: Option<string>,
    kind: Option<TxnType>, accountId: Option<string>)

  /** One page of a listing and the number of all matching rows. */
  datatype Page = Page(items: seq<Txn>, total: nat)

  // ---------------------------------------------------------------------
  // Balance updates
  // ---------------------------------------------------------------------

  /** `_update_balance`: look the account up by id alone (not by owner) and
      apply the row's effect; a missing account is a 404. */
  method UpdateBalance(db: Db, accountId: string, amount: int, kind: TxnType) returns (r: Result<()>)
    requires UniqueIds(db.accounts, AccountId)
    modifies db`accounts
    ensures r.Ok? <==> accountId in Ids(old(db.accounts), AccountId)
    ensures r.Err? ==> r.error == AccountNotFound && db.accounts == old(db.accounts)
    ensures r.Ok? ==> db.accounts == Credit(old(db.accounts), accountId, Effect(kind, amount))
  {
    FindByIdSpec(db.accounts, AccountId, accountId);
    var found := FindById(db.accounts, AccountId, accountId);
    if found.None? {
      return Err(AccountNotFound);
    }
    var i := found.value;
    var account := db.accounts[i];
    CreditAt(db.accounts, i, Effect(kind, amount));
    if kind == Income {
      db.accounts := db.accounts[i := account.(balance := account.balance + amount)];
    } else if kind == Expense {
      db.accounts := db.accounts[i := account.(balance := account.balance - amount)];
    } else {
      assert db.accounts == db.accounts[i := account.(balance := account.balance + 0)];
    }
    return Ok(());
  }

  /** `_reverse_balance`: undo the row's effect; a missing account is
      silently skipped. */
  method ReverseBalance(db: Db, accountId: string, amount: int, kind: TxnType)
    requires UniqueIds(db.accounts, AccountId)
    modifies db`accounts
    ensures accountId !in Ids(old(db.accounts), AccountId) ==> db.accounts == old(db.accounts)
    ensures db.accounts == Credit(old(db.accounts), accountId, -Effect(kind, amount))
  {
    FindByIdSpec(db.accounts, AccountId, accountId);
    var found := FindById(db.accounts, AccountId, accountId);
    if found.None? {
      CreditAbsent(db.accounts, accountId, -Effect(kind, amount));
      return;
    }
    var i := found.value;
    var account := db.accounts[i];
    CreditAt(db.accounts, i, -Effect(kind, amount));
    if kind == Income {
      db.accounts := db.accounts[i := account.(balance := account.balance - amount)];
    } else if kind == Expense {
      db.accounts := db.accounts[i := account.(balance := account.balance + amount)];
    } else {
      assert db.accounts == db.accounts[i := account.(balance := account.balance + 0)];
    }
  }

  /** TRANSFER rows fall through both branches of the balance updates:
      creating, updating or deleting one moves no balance. */
  lemma TransferMovesNothing(accounts: seq<Account>, t: Txn)
    requires t.kind == Transfer
    ensures Credit(accounts, t.accountId, Effect(t.kind, t.amount)) == accounts
    ensures Credit(accounts, t.accountId, -Effect(t.kind, t.amount)) == accounts
  {
    CreditZero(accounts, t.accountId);
  }

  /** Creating an INCOME row raises its account's balance by `amount`, an
      EXPENSE row lowers it by `amount`, and no other balance moves. */
  lemma CreateMovesOneBalance(accounts: seq<Account>, data: TransactionCreate, x: string)
    requires UniqueIds(accounts, AccountId) && x in Ids(accounts, AccountId)
    ensures var after := BalanceOf(Credit(accounts, data.accountId, Effect(data.kind, data.amount)), x);
            after.Some? &&
            after.value == BalanceOf(accounts, x).value
              + (if x != data.accountId then 0
                 else if data.kind == Income then data.amount
                 else if data.kind == Expense then -data.amount
                 else 0)
  {
    CreditBalance(accounts, data.accountId, Effect(data.kind, data.amount), x);
  }

  /** Deleting a row reverses exactly what creating it applied. */
  lemma DeleteUndoesCreate(accounts: seq<Account>, txns: seq<Txn>, t: Txn)
    ensures RemoveAt(txns + [t], |txns|) == txns
    ensures Credit(Credit(accounts, t.accountId, Effect(t.kind, t.amount)), t.accountId, -Effect(t.kind, t.amount)) == accounts
  {
    assert (txns + [t])[..|txns|] == txns;
    CreditInverse(accounts, t.accountId, Effect(t.kind, t.amount));
  }

  // ---------------------------------------------------------------------
  // Single rows
  // ---------------------------------------------------------------------

  /** The row `create_transaction` builds. */
  function NewTxn(userId: string, data: TransactionCreate, id: string, now: int): Txn {
    Txn(id, userId, data.accountId, data.categoryId, data.kind, data.amount,
        data.description, data.date, None, now)
  }

  /** `create_transaction`: add the row, then apply its effect. */
  method CreateTransaction(db: Db, userId: string, data: TransactionCreate, id: string, now: int)
    returns (r: Result<Txn>)
    requires db.LedgerValid()
    requires id !in Ids(db.txns, TxnId)
    modifies db`txns, db`accounts
    ensures db.LedgerValid()
    ensures r.Err? <==> data.accountId !in Ids(old(db.accounts), AccountId)
    ensures r.Err? ==> r.error == AccountNotFound && db.txns == old(db.txns) && db.accounts == old(db.accounts)
    ensures r.Ok? ==> r.value == NewTxn(userId, data, id, now)
    ensures r.Ok? ==> db.txns == old(db.txns) + [r.value]
    ensures r.Ok? ==> db.accounts == Credit(old(db.accounts), data.accountId, Effect(data.kind, data.amount))
  {
    var before := db.txns;
    var t := NewTxn(userId, data, id, now);
    db.txns := db.txns + [t];
    var applied := UpdateBalance(db, data.accountId, data.amount, data.kind);
    if applied.Err? {
      db.txns := before;
      return Err(applied.error);
    }
    ConsistentAfterAppend(old(db.accounts), before, db.opening, db.transferNet, t);
    return Ok(t);
  }

  /** The index of the user's row with id `id`. */
  function FindTxn(txns: seq<Txn>, userId: string, id: string): (r: Option<nat>)
    ensures r.Some? ==> r.value < |txns| && txns[r.value].id == id && txns[r.value].userId == userId
    ensures r.None? <==> forall k :: 0 <= k < |txns| ==> !(txns[k].id == id && txns[k].userId == userId)
  {
    IndexWhere(txns, (t: Txn) => t.id == id && t.userId == userId)
  }

  /** `get_transaction`: the user's row with that id, or a 404. Another user's
      row is not found either. */
  function GetTransaction(txns: seq<Txn>, userId: string, id: string): (r: Result<Txn>)
    ensures r.Ok? <==> exists k :: 0 <= k < |txns| && txns[k].id == id && txns[k].userId == userId
    ensures r.Ok? ==> r.value in txns && r.value.id == id && r.value.userId == userId
    ensures r.Err? ==> r.error == TransactionNotFound
  {
    match FindTxn(txns, userId, id)
    case None => Err(TransactionNotFound)
    case Some(k) => Ok(txns[k])
  }

  /** The `setattr` loop of `update_transaction`: given fields are written,
      left-out fields keep their values; an explicit null in a NOT NULL
      column (account, type, amount, date) is rejected by the database at the
      next flush. */
  function ApplyUpdate(t: Txn, data: TransactionUpdate): (r: Result<Txn>)
    ensures r.Err? <==> NullsRequired(data.accountId) || NullsRequired(data.kind)
                        || NullsRequired(data.amount) || NullsRequired(data.date)
    ensures r.Err? ==> r.error == IntegrityError
    ensures r.Ok? ==> r.value.id == t.id && r.value.userId == t.userId
                      && r.value.relatedId == t.relatedId && r.value.createdAt == t.createdAt
    ensures r.Ok? ==> (data.accountId.Keep? ==> r.value.accountId == t.accountId)
                      && (data.accountId.Put? ==> data.accountId.value == Some(r.value.accountId))
    ensures r.Ok? ==> (data.kind.Keep? ==> r.value.kind == t.kind)
                      && (data.kind.Put? ==> data.kind.value == Some(r.value.kind))
    ensures r.Ok? ==> (data.amount.Keep? ==> r.value.amount == t.amount)
                      && (data.amount.Put? ==> data.amount.value == Some(r.value.amount))
    ensures r.Ok? ==> (data.date.Keep? ==> r.value.date == t.date)
                      && (data.date.Put? ==> data.date.value == Some(r.value.date))
    ensures r.Ok? ==> (data.categoryId.Keep? ==> r.value.categoryId == t.categoryId)
                      && (data.categoryId.Put? ==> r.value.categoryId == data.categoryId.value)
    ensures r.Ok? ==> (data.description.Keep? ==> r.value.description == t.description)
                      && (data.description.Put? ==> r.value.description == data.description.value)
  {
    if NullsRequired(data.accountId) || NullsRequired(data.kind)
       || NullsRequired(data.amount) || NullsRequired(data.date)
    then Err(IntegrityError)
    else
      Ok(t.(accountId := PatchedRequired(t.accountId, data.accountId),
            categoryId := Patched(t.categoryId, data.categoryId),
            kind := PatchedRequired(t.kind, data.kind),
            amount := PatchedRequired(t.amount, data.amount),
            description := Patched(t.description, data.description),
            date := PatchedRequired(t.date, data.date)))
  }

  /** An update that gives no field changes nothing. */
  lemma EmptyUpdateKeepsRow(t: Txn)
    ensures ApplyUpdate(t, TransactionUpdate(Keep, Keep, Keep, Keep, Keep, Keep)) == Ok(t)
  {
  }

  /** The effect of `update_transaction` on the tables once the row at index
      `k` was found: the ledger rows and balances after it, or its error. */
  function UpdateOutcome(accounts: seq<Account>, txns: seq<Txn>, k: nat, data: TransactionUpdate)
    : Result<(Txn, seq<Account>, seq<Txn>)>
    requires k < |txns|
  {
    var t := txns[k];
    match ApplyUpdate(t, data)
    case Err(e) => Err(e)
    case Ok(u) =>
      if u.accountId !in Ids(accounts, AccountId) then Err(AccountNotFound)
      else Ok((u, Credit(Credit(accounts, t.accountId, -Effect(t.kind, t.amount)), u.accountId, Effect(u.kind, u.amount)),
               txns[k := u]))
  }

  /** A successful update takes the old effect off the old account and puts
      the new effect on the new account, which may be the same one; no other
      balance moves. */
  lemma UpdateMovesBalances(accounts: seq<Account>, txns: seq<Txn>, k: nat, data: TransactionUpdate, x: string)
    requires k < |txns| && UniqueIds(accounts, AccountId) && x in Ids(accounts, AccountId)
    requires UpdateOutcome(accounts, txns, k, data).Ok?
    ensures var o := UpdateOutcome(accounts, txns, k, data).value;
            var t := txns[k];
            BalanceOf(o.1, x).Some?
            && BalanceOf(o.1, x).value == BalanceOf(accounts, x).value
                 - (if x == t.accountId then Effect(t.kind, t.amount) else 0)
                 + (if x == o.0.accountId then Effect(o.0.kind, o.0.amount) else 0)
  {
    var t := txns[k];
    var u := UpdateOutcome(accounts, txns, k, data).value.0;
    var mid := Credit(accounts, t.accountId, -Effect(t.kind, t.amount));
    CreditBalance(accounts, t.accountId, -Effect(t.kind, t.amount), x);
    CreditKeepsIds(accounts, t.accountId, -Effect(t.kind, t.amount));
    CreditBalance(mid, u.accountId, Effect(u.kind, u.amount), x);
  }

  /** `update_transaction` after the lookup: reverse the old effect (old
      account, amount and type), patch the row, then apply the new effect to
      the new account. */
  method UpdateAt(db: Db, k: nat, data: TransactionUpdate) returns (r: Result<Txn>)
    requires k < |db.txns|
    requires db.LedgerValid()
    modifies db`txns, db`accounts
    ensures db.LedgerValid()
    ensures match UpdateOutcome(old(db.accounts), old(db.txns), k, data)
            case Err(e) => r == Err(e) && db.txns == old(db.txns) && db.accounts == old(db.accounts)
            case Ok(o) => r == Ok(o.0) && db.accounts == o.1 && db.txns == o.2
  {
    var t := db.txns[k];
    var accountsBefore, txnsBefore := db.accounts, db.txns;
    CreditKeepsIds(db.accounts, t.accountId, -Effect(t.kind, t.amount));
    ReverseBalance(db, t.accountId, t.amount, t.kind);
    var patched := ApplyUpdate(t, data);
    if patched.Err? {
      db.accounts := accountsBefore;
      return Err(patched.error);
    }
    var u := patched.value;
    db.txns := db.txns[k := u];
    var applied := UpdateBalance(db, u.accountId, u.amount, u.kind);
    if applied.Err? {
      db.accounts, db.txns := accountsBefore, txnsBefore;
      return Err(applied.error);
    }
    ConsistentAfterRewrite(accountsBefore, txnsBefore, db.opening, db.transferNet, k, u);
    return Ok(u);
  }

  /** `update_transaction`: find the user's row, then update it. */
  method UpdateTransaction(db: Db, userId: string, id: string, data: TransactionUpdate)
    returns (r: Result<Txn>)
    requires db.LedgerValid()
    modifies db`txns, db`accounts
    ensures db.LedgerValid()
    ensures FindTxn(old(db.txns), userId, id).None? ==> r == Err(TransactionNotFound) && unchanged(db)
    ensures FindTxn(old(db.txns), userId, id).Some? ==>
              match UpdateOutcome(old(db.accounts), old(db.txns), FindTxn(old(db.txns), userId, id).value, data)
              case Err(e) => r == Err(e) && db.txns == old(db.txns) && db.accounts == old(db.accounts)
              case Ok(o) => r == Ok(o.0) && db.accounts == o.1 && db.txns == o.2
  {
    var found := FindTxn(db.txns, userId, id);
    if found.None? {
      return Err(TransactionNotFound);
    }
    r := UpdateAt(db, found.value, data);
  }

  /** `delete_transaction` after the lookup: reverse the effect of the row at
      index `k` and delete the row. */
  method DeleteAt(db: Db, k: nat)
    requires k < |db.txns|
    requires db.LedgerValid()
    modifies db`txns, db`accounts
    ensures db.LedgerValid()
    ensures db.txns == RemoveAt(old(db.txns), k)
    ensures db.accounts == Credit(old(db.accounts), old(db.txns)[k].accountId,
                                  -Effect(old(db.txns)[k].kind, old(db.txns)[k].amount))
  {
    var t := db.txns[k];
    ConsistentAfterRemove(db.accounts, db.txns, db.opening, db.transferNet, k);
    ReverseBalance(db, t.accountId, t.amount, t.kind);
    db.txns := RemoveAt(db.txns, k);
  }

  /** `delete_transaction`: find the user's row, then delete it. */
  method DeleteTransaction(db: Db, userId: string, id: string) returns (r: Result<()>)
    requires db.LedgerValid()
    modifies db`txns, db`accounts
    ensures db.LedgerValid()
    ensures r.Err? <==> FindTxn(old(db.txns), userId, id).None?
    ensures r.Err? ==> r.error == TransactionNotFound && unchanged(db)
    ensures r.Ok? ==>
              var k := FindTxn(old(db.txns), userId, id).value;
              && db.txns == RemoveAt(old(db.txns), k)
              && db.accounts == Credit(old(db.accounts), old(db.txns)[k].accountId,
                                       -Effect(old(db.txns)[k].kind, old(db.txns)[k].amount))
  {
    var found := FindTxn(db.txns, userId, id);
    if found.None? {
      return Err(TransactionNotFound);
    }
    DeleteAt(db, found.value);
    return Ok(());
  }

  // ---------------------------------------------------------------------
  // Transfers
  // ---------------------------------------------------------------------

  /** The two linked TRANSFER legs `create_transfer` stores: the same amount
      and date, each pointing at the other, with "Transfer out" / "Transfer in"
      when the description is missing or empty. */
  function TransferLegs(userId: string, data: TransferCreate, outId: string, inId: string,
                        outAt: int, inAt: int): (legs: (Txn, Txn))
    ensures legs.0.id == outId && legs.1.id == inId
    ensures legs.0.userId == userId && legs.1.userId == userId
    ensures legs.0.accountId == data.fromAccountId && legs.1.accountId == data.toAccountId
    ensures legs.0.kind == Transfer && legs.1.kind == Transfer
    ensures legs.0.amount == data.amount && legs.1.amount == data.amount
    ensures legs.0.date == data.date && legs.1.date == data.date
    ensures legs.0.relatedId == Some(legs.1.id) && legs.1.relatedId == Some(legs.0.id)
    ensures legs.0.categoryId.None? && legs.1.categoryId.None?
    ensures legs.0.description == Some(if Truthy(data.description) then data.description.value else "Transfer out")
    ensures legs.1.description == Some(if Truthy(data.description) then data.description.value else "Transfer in")
  {
    var outgoing := Txn(outId, userId, data.fromAccountId, None, Transfer, data.amount,
                        Some(if Truthy(data.description) then data.description.value else "Transfer out"),
                        data.date, None, outAt);
    var incoming := Txn(inId, userId, data.toAccountId, None, Transfer, data.amount,
                        Some(if Truthy(data.description) then data.description.value else "Transfer in"),
                        data.date, Some(outgoing.id), inAt);
    (outgoing.(relatedId := Some(incoming.id)), incoming)
  }

  /** The balance moves of `create_transfer`: `amount` leaves the account at
      index `i` and arrives at the account at index `j`. */
  method MoveAmount(db: Db, i: nat, j: nat, x: string, y: string, amount: int)
    requires i < |db.accounts| && j < |db.accounts| && i != j
    requires db.accounts[i].id == x && db.accounts[j].id == y
    requires UniqueIds(db.accounts, AccountId)
    modifies db`accounts, db`transferNet
    requires x in db.transferNet && y in db.transferNet
    ensures db.accounts == Credit(Credit(old(db.accounts), x, -amount), y, amount)
    ensures db.transferNet == old(db.transferNet)[x := old(db.transferNet)[x] - amount][y := old(db.transferNet)[y] + amount]
  {
    var fromAccount := db.accounts[i];
    CreditAt(db.accounts, i, -amount);
    CreditKeepsIds(db.accounts, fromAccount.id, -amount);
    db.accounts := db.accounts[i := fromAccount.(balance := fromAccount.balance - amount)];
    var toAccount := db.accounts[j];
    CreditAt(db.accounts, j, amount);
    db.accounts := db.accounts[j := toAccount.(balance := toAccount.balance + amount)];
    db.transferNet := db.transferNet[x := db.transferNet[x] - amount][y := db.transferNet[y] + amount];
  }

  /** The balance moves of `create_transfer` once both legs are in place:
      they restore the ledger invariant. */
  method CommitTransfer(db: Db, i: nat, j: nat, amount: int, ghost before: seq<Txn>, out: Txn, inc: Txn,
                        ghost accounts: seq<Account>)
    requires db.accounts == accounts
    requires Consistent(db.accounts, before, db.opening, db.transferNet)
    requires db.txns == before + [out] + [inc]
    requires out.kind == Transfer && inc.kind == Transfer
    requires out.id != inc.id && out.id !in Ids(before, TxnId) && inc.id !in Ids(before, TxnId)
    requires i < |db.accounts| && j < |db.accounts| && i != j
    requires db.accounts[i].id == out.accountId && db.accounts[j].id == inc.accountId
    modifies db`accounts, db`transferNet
    ensures db.LedgerValid()
    ensures db.accounts == Credit(Credit(accounts, out.accountId, -amount), inc.accountId, amount)
  {
    ghost var accounts0, transferNet0 := db.accounts, db.transferNet;
    assert BalanceMatches(db.accounts[i], before, db.opening, db.transferNet);
    assert BalanceMatches(db.accounts[j], before, db.opening, db.transferNet);
    IdAt(db.accounts, AccountId, i);
    IdAt(db.accounts, AccountId, j);
    MoveAmount(db, i, j, out.accountId, inc.accountId, amount);
    ConsistentAfterTransfer(accounts0, before, db.opening, transferNet0, out, inc, amount,
                            db.accounts, db.txns, db.transferNet);
  }

  /** The inserts of `create_transfer`: the outgoing leg, then the incoming
      leg (which already points at the outgoing one), then the link from the
      outgoing leg to the incoming one. */
  method AddLegs(db: Db, outgoing: Txn, incoming: Txn)
    modifies db`txns
    ensures db.txns == old(db.txns) + [outgoing.(relatedId := Some(incoming.id))] + [incoming]
  {
    var at := |db.txns|;
    db.txns := db.txns + [outgoing];
    db.txns := db.txns + [incoming];
    db.txns := db.txns[at := outgoing.(relatedId := Some(incoming.id))];
  }

  /** The two account lookups of `create_transfer` (by id alone): the
      indices of the source and destination accounts, or the 404 of the
      first one missing. */
  function TransferAccounts(accounts: seq<Account>, data: TransferCreate): (r: Result<(nat, nat)>)
    ensures r.Err? <==> data.fromAccountId !in Ids(accounts, AccountId) || data.toAccountId !in Ids(accounts, AccountId)
    ensures data.fromAccountId !in Ids(accounts, AccountId) ==> r == Err(SourceNotFound)
    ensures data.fromAccountId in Ids(accounts, AccountId) && data.toAccountId !in Ids(accounts, AccountId)
            ==> r == Err(DestinationNotFound)
    ensures r.Ok? ==> r.value.0 < |accounts| && accounts[r.value.0].id == data.fromAccountId
                      && r.value.1 < |accounts| && accounts[r.value.1].id == data.toAccountId
  {
    FindByIdSpec(accounts, AccountId, data.fromAccountId);
    FindByIdSpec(accounts, AccountId, data.toAccountId);
    match FindById(accounts, AccountId, data.fromAccountId)
    case None => Err(SourceNotFound)
    case Some(i) =>
      match FindById(accounts, AccountId, data.toAccountId)
      case None => Err(DestinationNotFound)
      case Some(j) => Ok((i, j))
  }

  /** `create_transfer` once the two legs are built: add them, look up both
      accounts, then move `amount` from one to the other. A missing account
      fails after the legs were added, and the rollback removes them again. */
  method AddTransfer(db: Db, data: TransferCreate, out: Txn, inc: Txn) returns (r: Result<()>)
    requires db.LedgerValid()
    requires data.fromAccountId != data.toAccountId
    requires out.accountId == data.fromAccountId && inc.accountId == data.toAccountId
    requires out.kind == Transfer && inc.kind == Transfer && out.relatedId == Some(inc.id)
    requires out.id != inc.id && out.id !in Ids(db.txns, TxnId) && inc.id !in Ids(db.txns, TxnId)
    modifies db`txns, db`accounts, db`transferNet
    ensures db.LedgerValid()
    ensures r.Err? <==> TransferAccounts(old(db.accounts), data).Err?
    ensures r.Err? ==> r == Err(TransferAccounts(old(db.accounts), data).error)
                       && db.txns == old(db.txns) && db.accounts == old(db.accounts)
                       && db.transferNet == old(db.transferNet)
    ensures r.Ok? ==> && db.txns == old(db.txns) + [out] + [inc]
                      && db.accounts == Credit(Credit(old(db.accounts), out.accountId, -data.amount),
                                               inc.accountId, data.amount)
  {
    var before := db.txns;
    ghost var accounts0 := db.accounts;
    AddLegs(db, out.(relatedId := None), inc);
    var found := TransferAccounts(db.accounts, data);
    if found.Err? {
      db.txns := before;
      return Err(found.error);
    }
    CommitTransfer(db, found.value.0, found.value.1, data.amount, before, out, inc, accounts0);
    return Ok(());
  }

  /** `create_transfer`: reject a same-account transfer, then store the two
      linked legs and move the amount. */
  method CreateTransfer(db: Db, userId: string, data: TransferCreate, outId: string, inId: string,
                        outAt: int, inAt: int) returns (r: Result<(Txn, Txn)>)
    requires db.LedgerValid()
    requires outId != inId && outId !in Ids(db.txns, TxnId) && inId !in Ids(db.txns, TxnId)
    modifies db`txns, db`accounts, db`transferNet
    ensures db.LedgerValid()
    ensures r.Err? ==> db.txns == old(db.txns) && db.accounts == old(db.accounts)
                       && db.transferNet == old(db.transferNet)
    ensures data.fromAccountId == data.toAccountId ==> r == Err(SameAccount)
    ensures data.fromAccountId != data.toAccountId ==>
              match TransferAccounts(old(db.accounts), data)
              case Err(e) => r == Err(e)
              case Ok(_) =>
                && r == Ok(TransferLegs(userId, data, outId, inId, outAt, inAt))
                && db.txns == old(db.txns) + [r.value.0] + [r.value.1]
                && db.accounts == Credit(Credit(old(db.accounts), data.fromAccountId, -data.amount),
                                         data.toAccountId, data.amount)
  {
    if data.fromAccountId == data.toAccountId {
      return Err(SameAccount);
    }
    var legs := TransferLegs(userId, data, outId, inId, outAt, inAt);
    var added := AddTransfer(db, data, legs.0, legs.1);
    if added.Err? {
      return Err(added.error);
    }
    return Ok(legs);
  }

  /** A transfer between two distinct accounts lowers the source by `amount`,
      raises the destination by `amount`, and moves no other balance. */
  lemma TransferMovesTwoBalances(accounts: seq<Account>, data: TransferCreate, x: string)
    requires UniqueIds(accounts, AccountId) && x in Ids(accounts, AccountId)
    requires data.fromAccountId != data.toAccountId
    ensures var after := BalanceOf(Credit(Credit(accounts, data.fromAccountId, -data.amount),
                                          data.toAccountId, data.amount), x);
            after.Some?
            && after.value == BalanceOf(accounts, x).value
                 + (if x == data.fromAccountId then -data.amount
                    else if x == data.toAccountId then data.amount
                    else 0)
  {
    var mid := Credit(accounts, data.fromAccountId, -data.amount);
    CreditBalance(accounts, data.fromAccountId, -data.amount, x);
    CreditKeepsIds(accounts, data.fromAccountId, -data.amount);
    CreditBalance(mid, data.toAccountId, data.amount, x);
  }

  // ---------------------------------------------------------------------
  // Listing
  // ---------------------------------------------------------------------

  /** The WHERE clause of `get_transactions`: the user's rows, restricted by
      each filter that is given (the string filters only when non-empty). */
  predicate Matches(t: Txn, userId: string, q: TxnQuery) {
    && t.userId == userId
    && (q.dateFrom.Some? ==> Le(q.dateFrom.value, t.date))
    && (q.dateTo.Some? ==> Le(t.date, q.dateTo.value))
    && (Truthy(q.categoryId) ==> t.categoryId == q.categoryId)
    && (q.kind.Some? ==> t.kind == q.kind.value)
    && (Truthy(q.accountId) ==> t.accountId == q.accountId.value)
  }

  /** ORDER BY date DESC, created_at DESC: `a` may come before `b`. */
  predicate NewerOrSame(a: Txn, b: Txn) {
    Lt(b.date, a.date) || (a.date == b.date && b.createdAt <= a.createdAt)
  }

  function NewestFirst(): (Txn, Txn) -> bool {
    (a: Txn, b: Txn) => NewerOrSame(a, b)
  }

  lemma NewestFirstOrders()
    ensures TotalPreorder(NewestFirst())
  {
    forall a: Txn, b: Txn, c: Txn | NewerOrSame(a, b) && NewerOrSame(b, c)
      ensures NewerOrSame(a, c)
    {
    }
  }

  /** The matching rows in listing order, before OFFSET and LIMIT. */
  function Ordered(txns: seq<Txn>, userId: string, q: TxnQuery): (r: seq<Txn>)
    ensures forall t :: t in r <==> t in txns && Matches(t, userId, q)
    ensures forall i, j :: 0 <= i < j < |r| ==> NewerOrSame(r[i], r[j])
    ensures multiset(r) == multiset(Filter(txns, (t: Txn) => Matches(t, userId, q)))
  {
    NewestFirstOrders();
    var r := SortBy(Filter(txns, (t: Txn) => Matches(t, userId, q)), NewestFirst());
    SameMembers(r, Filter(txns, (t: Txn) => Matches(t, userId, q)));
    r
  }

  /** The number of rows before page `page` (from 1) of `size` rows. */
  function Offset(page: nat, size: nat): nat
    requires page >= 1
  {
    (page - 1) * size
  }

  /** `get_transactions`: page `page` (from 1) of `size` matching rows in
      listing order, and the count of all matching rows. */
  function GetTransactions(txns: seq<Txn>, userId: string, q: TxnQuery, page: nat, size: nat): (r: Page)
    requires page >= 1
    ensures forall t :: t in r.items ==> t in txns && Matches(t, userId, q)
    ensures forall i, j :: 0 <= i < j < |r.items| ==> NewerOrSame(r.items[i], r.items[j])
    ensures |r.items| <= size
    ensures r.total == |Ordered(txns, userId, q)|
    ensures |r.items| == if Offset(page, size) >= r.total then 0
                         else if Offset(page, size) + size <= r.total then size
                         else r.total - Offset(page, size)
    ensures forall i :: 0 <= i < |r.items| ==> r.items[i] == Ordered(txns, userId, q)[Offset(page, size) + i]
  {
    var all := Ordered(txns, userId, q);
    var items := Window(all, Offset(page, size), size);
    assert forall t :: t in items ==> t in all;
    Page(items, |all|)
  }

  /** The count is the number of matching rows, whatever the page. */
  lemma TotalIgnoresPage(txns: seq<Txn>, userId: string, q: TxnQuery, p1: nat, s1: nat, p2: nat, s2: nat)
    requires p1 >= 1 && p2 >= 1
    ensures GetTransactions(txns, userId, q, p1, s1).total == GetTransactions(txns, userId, q, p2, s2).total
    ensures GetTransactions(txns, userId, q, p1, s1).total == |Filter(txns, (t: Txn) => Matches(t, userId, q))|
  {
    var f := Filter(txns, (t: Txn) => Matches(t, userId, q));
    assert |multiset(Ordered(txns, userId, q))| == |multiset(f)|;
  }
}
