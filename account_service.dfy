/**
 * backend/app/services/account_service.py: the user's accounts, looked up
 * by id and owner. An account's balance is set once, when it is created;
 * afterwards only transactions move it, since the update body has no
 * balance field. Deleting an account deletes its transactions with it (the
 * `cascade="all, delete-orphan"` of the `transactions` relationship).
 */
module AccountService {
  import opened Common
  import opened Seqs
  import opened Schema
  import opened Ledger
  import opened Database

  const AccountNotFound := HttpError(404, "Account not found")

  /** The `AccountCreate` request body. `currency` and `balance` are `None`
      when left out of the request, and then take their defaults. */
  datatype AccountCreate = AccountCreate(
    name: string, kind: AccountType, currency: Option<string>, balance: Option<int>,
    color: Option<string>, icon: Option<string>)

  const DefaultCurrency := "UZS"
  const DefaultBalance := 0

  /** The `AccountUpdate` request body after `model_dump(exclude_unset=True)`.
      It has no balance field. */
  datatype AccountUpdate = AccountUpdate(
    name: Patch<Option<string>>, kind: Patch<Option<AccountType>>, currency: Patch<Option<string>>,
    color: Patch<Option<string>>, icon: Patch<Option<string>>)

  /** The row `create_account` adds. */
  function NewAccount(userId: string, data: AccountCreate, id: string, now: int): (a: Account)
    ensures a.id == id && a.userId == userId && a.createdAt == now
    ensures a.name == data.name && a.kind == data.kind && a.color == data.color && a.icon == data.icon
    ensures a.balance == (if data.balance.Some? then data.balance.value else DefaultBalance)
    ensures a.currency == (if data.currency.Some? then data.currency.value else DefaultCurrency)
  {
    Account(id, userId, data.name, data.kind, data.currency.GetOr(DefaultCurrency),
            data.balance.GetOr(DefaultBalance), data.color, data.icon, now)
  }

  /** `create_account`: add the row with the given opening balance. */
  method CreateAccount(db: Db, userId: string, data: AccountCreate, id: string, now: int)
    returns (r: Account)
    requires db.LedgerValid()
    requires id !in Ids(db.accounts, AccountId)
    modifies db`accounts, db`opening, db`transferNet
    ensures db.LedgerValid()
    ensures r == NewAccount(userId, data, id, now)
    ensures db.accounts == old(db.accounts) + [r]
  {
    r := NewAccount(userId, data, id, now);
    ConsistentAfterOpen(db.accounts, db.txns, db.opening, db.transferNet, r);
    db.accounts := db.accounts + [r];
    db.opening := db.opening[id := r.balance];
    db.transferNet := db.transferNet[id := 0];
  }

  /** ORDER BY created_at DESC: `a` may come before `b`. */
  predicate NewerAccount(a: Account, b: Account) {
    b.createdAt <= a.createdAt
  }

  function NewestAccountFirst(): (Account, Account) -> bool {
    (a: Account, b: Account) => NewerAccount(a, b)
  }

  lemma NewestAccountFirstOrders()
    ensures TotalPreorder(NewestAccountFirst())
  {
  }

  function OwnedBy(userId: string): Account -> bool {
    (a: Account) => a.userId == userId
  }

  /** `get_accounts`: the user's accounts, newest first. */
  function GetAccounts(accounts: seq<Account>, userId: string): (r: seq<Account>)
    ensures forall a :: a in r <==> a in accounts && a.userId == userId
    ensures forall i, j :: 0 <= i < j < |r| ==> r[j].createdAt <= r[i].createdAt
    ensures multiset(r) == multiset(Filter(accounts, OwnedBy(userId)))
  {
    NewestAccountFirstOrders();
    var r := SortBy(Filter(accounts, OwnedBy(userId)), NewestAccountFirst());
    SameMembers(r, Filter(accounts, OwnedBy(userId)));
    r
  }

  /** The index of the user's account with id `id`. */
  function FindAccount(accounts: seq<Account>, userId: string, id: string): (r: Option<nat>)
    ensures r.Some? ==> r.value < |accounts| && accounts[r.value].id == id && accounts[r.value].userId == userId
    ensures r.None? <==> forall k :: 0 <= k < |accounts| ==> !(accounts[k].id == id && accounts[k].userId == userId)
  {
    IndexWhere(accounts, (a: Account) => a.id == id && a.userId == userId)
  }

  /** `get_account`: the user's account with that id, or a 404. Another
      user's account is not found either. */
  function GetAccount(accounts: seq<Account>, userId: string, id: string): (r: Result<Account>)
    ensures r.Ok? <==> exists k :: 0 <= k < |accounts| && accounts[k].id == id && accounts[k].userId == userId
    ensures r.Ok? ==> r.value in accounts && r.value.id == id && r.value.userId == userId
    ensures r.Err? ==> r.error == AccountNotFound
  {
    match FindAccount(accounts, userId, id)
    case None => Err(AccountNotFound)
    case Some(k) => Ok(accounts[k])
  }

  /** The `setattr` loop of `update_account`: given fields are written and
      left-out fields kept; an explicit null in a NOT NULL column (name, type,
      currency) is rejected at the flush. */
  function ApplyAccountUpdate(a: Account, data: AccountUpdate): (r: Result<Account>)
    ensures r.Err? <==> NullsRequired(data.name) || NullsRequired(data.kind) || NullsRequired(data.currency)
    ensures r.Err? ==> r.error == IntegrityError
    ensures r.Ok? ==> r.value.id == a.id && r.value.userId == a.userId
                      && r.value.balance == a.balance && r.value.createdAt == a.createdAt
    ensures r.Ok? ==> (data.name.Keep? ==> r.value.name == a.name)
                      && (data.name.Put? ==> data.name.value == Some(r.value.name))
    ensures r.Ok? ==> (data.kind.Keep? ==> r.value.kind == a.kind)
                      && (data.kind.Put? ==> data.kind.value == Some(r.value.kind))
    ensures r.Ok? ==> (data.currency.Keep? ==> r.value.currency == a.currency)
                      && (data.currency.Put? ==> data.currency.value == Some(r.value.currency))
    ensures r.Ok? ==> (data.color.Keep? ==> r.value.color == a.color)
                      && (data.color.Put? ==> r.value.color == data.color.value)
    ensures r.Ok? ==> (data.icon.Keep? ==> r.value.icon == a.icon)
                      && (data.icon.Put? ==> r.value.icon == data.icon.value)
  {
    if NullsRequired(data.name) || NullsRequired(data.kind) || NullsRequired(data.currency)
    then Err(IntegrityError)
    else
      Ok(a.(name := PatchedRequired(a.name, data.name),
            kind := PatchedRequired(a.kind, data.kind),
            currency := PatchedRequired(a.currency, data.currency),
            color := Patched(a.color, data.color),
            icon := Patched(a.icon, data.icon)))
  }

  /** An update that gives no field changes nothing. */
  lemma EmptyAccountUpdateKeepsRow(a: Account)
    ensures ApplyAccountUpdate(a, AccountUpdate(Keep, Keep, Keep, Keep, Keep)) == Ok(a)
  {
  }

  /** `update_account`: find the user's account, then patch it. */
  method UpdateAccount(db: Db, userId: string, id: string, data: AccountUpdate) returns (r: Result<Account>)
    requires db.LedgerValid()
    modifies db`accounts
    ensures db.LedgerValid()
    ensures r.Err? ==> db.accounts == old(db.accounts)
    ensures FindAccount(old(db.accounts), userId, id).None? ==> r == Err(AccountNotFound)
    ensures FindAccount(old(db.accounts), userId, id).Some? ==>
              var k := FindAccount(old(db.accounts), userId, id).value;
              match ApplyAccountUpdate(old(db.accounts)[k], data)
              case Err(e) => r == Err(e)
              case Ok(a) => r == Ok(a) && db.accounts == old(db.accounts)[k := a]
  {
    var found := FindAccount(db.accounts, userId, id);
    if found.None? {
      return Err(AccountNotFound);
    }
    var k := found.value;
    var patched := ApplyAccountUpdate(db.accounts[k], data);
    if patched.Err? {
      return Err(patched.error);
    }
    ConsistentAfterEdit(db.accounts, db.txns, db.opening, db.transferNet, k, patched.value);
    db.accounts := db.accounts[k := patched.value];
    return Ok(patched.value);
  }

  /** `delete_account`: find the user's account, then delete it and, by the
      cascade, every transaction on it. */
  method DeleteAccount(db: Db, userId: string, id: string) returns (r: Result<()>)
    requires db.LedgerValid()
    modifies db`accounts, db`txns
    ensures db.LedgerValid()
    ensures r.Err? <==> FindAccount(old(db.accounts), userId, id).None?
    ensures r.Err? ==> r.error == AccountNotFound && db.accounts == old(db.accounts) && db.txns == old(db.txns)
    ensures r.Ok? ==>
              && db.accounts == RemoveAt(old(db.accounts), FindAccount(old(db.accounts), userId, id).value)
              && db.txns == Filter(old(db.txns), NotOn(id))
  {
    var found := FindAccount(db.accounts, userId, id);
    if found.None? {
      return Err(AccountNotFound);
    }
    var k := found.value;
    ConsistentAfterClose(db.accounts, db.txns, db.opening, db.transferNet, k);
    db.txns := Filter(db.txns, NotOn(id));
    db.accounts := RemoveAt(db.accounts, k);
    return Ok(());
  }
}
