/**
 * backend/app/services/debt_service.py: money the user owes (DEBT) or is
 * owed (RECEIVABLE). A debt starts OPEN and can be closed once; the update
 * body leaves its type and status alone.
 */
module DebtService {
  import opened Common
  import opened Dates
  import opened Seqs
  import opened Schema
  import opened Database

  const DebtNotFound := HttpError(404, "Debt not found")
  const AlreadyClosed := HttpError(400, "Debt is already closed")
  const DefaultCurrency := "UZS"

  /** The `DebtCreate` request body; `currency` is `None` when left out. */
  datatype DebtCreate = DebtCreate(
    kind: DebtType, personName: string, amount: int, currency: Option<string>,
    description: Option<string>, dueDate: Option<Date>)

  /** The `DebtUpdate` request body after `model_dump(exclude_unset=True)`.
      It has neither a type nor a status field. */
  datatype DebtUpdate = DebtUpdate(
    personName: Patch<Option<string>>, amount: Patch<Option<int>>, currency: Patch<Option<string>>,
    description: Patch<Option<string>>, dueDate: Patch<Option<Date>>)

  /** The row `create_debt` adds: the given fields, status OPEN (the column default). */
  function NewDebt(userId: string, data: DebtCreate, id: string, now: int): (d: Debt)
    ensures d.id == id && d.userId == userId && d.createdAt == now
    ensures d.kind == data.kind && d.personName == data.personName && d.amount == data.amount
    ensures d.currency == (if data.currency.Some? then data.currency.value else DefaultCurrency)
    ensures d.description == data.description && d.dueDate == data.dueDate
    ensures d.status == Open
  {
    Debt(id, userId, data.kind, data.personName, data.amount, data.currency.GetOr(DefaultCurrency),
         data.description, Open, data.dueDate, now)
  }

  /** `create_debt`: add the row. */
  method CreateDebt(db: Db, userId: string, data: DebtCreate, id: string, now: int) returns (r: Debt)
    requires db.DebtsValid()
    requires id !in Ids(db.debts, DebtId)
    modifies db`debts
    ensures db.DebtsValid()
    ensures r == NewDebt(userId, data, id, now)
    ensures db.debts == old(db.debts) + [r]
  {
    r := NewDebt(userId, data, id, now);
    IdsAppend(db.debts, DebtId, r);
    db.debts := db.debts + [r];
  }

  /** The WHERE clause of `get_debts`: the user's rows, of the given type and
      the given status when they are given. */
  predicate DebtMatches(d: Debt, userId: string, kind: Option<DebtType>, status: Option<DebtStatus>) {
    d.userId == userId && (kind.Some? ==> d.kind == kind.value) && (status.Some? ==> d.status == status.value)
  }

  predicate NewerDebt(a: Debt, b: Debt) {
    b.createdAt <= a.createdAt
  }

  function NewestDebtFirst(): (Debt, Debt) -> bool {
    (a: Debt, b: Debt) => NewerDebt(a, b)
  }

  lemma NewestDebtFirstOrders()
    ensures TotalPreorder(NewestDebtFirst())
  {
  }

  /** `get_debts`: the matching debts, newest first. */
  function GetDebts(debts: seq<Debt>, userId: string, kind: Option<DebtType>, status: Option<DebtStatus>)
    : (r: seq<Debt>)
    ensures forall d :: d in r <==> d in debts && DebtMatches(d, userId, kind, status)
    ensures forall i, j :: 0 <= i < j < |r| ==> r[j].createdAt <= r[i].createdAt
    ensures multiset(r) == multiset(Filter(debts, (d: Debt) => DebtMatches(d, userId, kind, status)))
  {
    NewestDebtFirstOrders();
    var r := SortBy(Filter(debts, (d: Debt) => DebtMatches(d, userId, kind, status)), NewestDebtFirst());
    SameMembers(r, Filter(debts, (d: Debt) => DebtMatches(d, userId, kind, status)));
    r
  }

  /** The index of the user's debt with id `id`. */
  function FindDebt(debts: seq<Debt>, userId: string, id: string): (r: Option<nat>)
    ensures r.Some? ==> r.value < |debts| && debts[r.value].id == id && debts[r.value].userId == userId
    ensures r.None? <==> forall k :: 0 <= k < |debts| ==> !(debts[k].id == id && debts[k].userId == userId)
  {
    IndexWhere(debts, (d: Debt) => d.id == id && d.userId == userId)
  }

  /** `get_debt`: the user's debt with that id, or a 404. */
  function GetDebt(debts: seq<Debt>, userId: string, id: string): (r: Result<Debt>)
    ensures r.Ok? <==> exists k :: 0 <= k < |debts| && debts[k].id == id && debts[k].userId == userId
    ensures r.Ok? ==> r.value in debts && r.value.id == id && r.value.userId == userId
    ensures r.Err? ==> r.error == DebtNotFound
  {
    match FindDebt(debts, userId, id)
    case None => Err(DebtNotFound)
    case Some(k) => Ok(debts[k])
  }

  /** The `setattr` loop of `update_debt`: given fields written, left-out
      fields kept, an explicit null in a NOT NULL column (person name,
      amount, currency) rejected at the flush. */
  function ApplyDebtUpdate(d: Debt, data: DebtUpdate): (r: Result<Debt>)
    ensures r.Err? <==> NullsRequired(data.personName) || NullsRequired(data.amount) || NullsRequired(data.currency)
    ensures r.Err? ==> r.error == IntegrityError
    ensures r.Ok? ==> r.value.id == d.id && r.value.userId == d.userId && r.value.kind == d.kind
                      && r.value.status == d.status && r.value.createdAt == d.createdAt
    ensures r.Ok? ==> (data.personName.Keep? ==> r.value.personName == d.personName)
                      && (data.personName.Put? ==> data.personName.value == Some(r.value.personName))
    ensures r.Ok? ==> (data.amount.Keep? ==> r.value.amount == d.amount)
                      && (data.amount.Put? ==> data.amount.value == Some(r.value.amount))
    ensures r.Ok? ==> (data.currency.Keep? ==> r.value.currency == d.currency)
                      && (data.currency.Put? ==> data.currency.value == Some(r.value.currency))
    ensures r.Ok? ==> (data.description.Keep? ==> r.value.description == d.description)
                      && (data.description.Put? ==> r.value.description == data.description.value)
    ensures r.Ok? ==> (data.dueDate.Keep? ==> r.value.dueDate == d.dueDate)
                      && (data.dueDate.Put? ==> r.value.dueDate == data.dueDate.value)
  {
    if NullsRequired(data.personName) || NullsRequired(data.amount) || NullsRequired(data.currency)
    then Err(IntegrityError)
    else
      Ok(d.(personName := PatchedRequired(d.personName, data.personName),
            amount := PatchedRequired(d.amount, data.amount),
            currency := PatchedRequired(d.currency, data.currency),
            description := Patched(d.description, data.description),
            dueDate := Patched(d.dueDate, data.dueDate)))
  }

  /** `update_debt`: find the user's debt, then patch it. */
  method UpdateDebt(db: Db, userId: string, id: string, data: DebtUpdate) returns (r: Result<Debt>)
    requires db.DebtsValid()
    modifies db`debts
    ensures db.DebtsValid()
    ensures r.Err? ==> db.debts == old(db.debts)
    ensures FindDebt(old(db.debts), userId, id).None? ==> r == Err(DebtNotFound)
    ensures FindDebt(old(db.debts), userId, id).Some? ==>
              var k := FindDebt(old(db.debts), userId, id).value;
              match ApplyDebtUpdate(old(db.debts)[k], data)
              case Err(e) => r == Err(e)
              case Ok(d) => r == Ok(d) && db.debts == old(db.debts)[k := d]
  {
    var found := FindDebt(db.debts, userId, id);
    if found.None? {
      return Err(DebtNotFound);
    }
    var k := found.value;
    var patched := ApplyDebtUpdate(db.debts[k], data);
    if patched.Err? {
      return Err(patched.error);
    }
    IdsRewrite(db.debts, DebtId, k, patched.value);
    db.debts := db.debts[k := patched.value];
    return Ok(patched.value);
  }

  /** The status change of `close_debt` on one row: OPEN becomes CLOSED and
      nothing else changes; CLOSED is an error. */
  function Close(d: Debt): (r: Result<Debt>)
    ensures r.Err? <==> d.status == Closed
    ensures r.Err? ==> r.error == AlreadyClosed
    ensures r.Ok? ==> r.value == d.(status := Closed)
  {
    if d.status == Closed then Err(AlreadyClosed) else Ok(d.(status := Closed))
  }

  /** Closing is not idempotent: a second close of the same debt fails. */
  lemma CloseTwiceFails(d: Debt)
    requires Close(d).Ok?
    ensures Close(Close(d).value) == Err(AlreadyClosed)
  {
  }

  /** `close_debt`: find the user's debt, then close it. */
  method CloseDebt(db: Db, userId: string, id: string) returns (r: Result<Debt>)
    requires db.DebtsValid()
    modifies db`debts
    ensures db.DebtsValid()
    ensures r.Err? ==> db.debts == old(db.debts)
    ensures FindDebt(old(db.debts), userId, id).None? ==> r == Err(DebtNotFound)
    ensures FindDebt(old(db.debts), userId, id).Some? ==>
              var k := FindDebt(old(db.debts), userId, id).value;
              match Close(old(db.debts)[k])
              case Err(e) => r == Err(e)
              case Ok(d) => r == Ok(d) && db.debts == old(db.debts)[k := d]
  {
    var found := FindDebt(db.debts, userId, id);
    if found.None? {
      return Err(DebtNotFound);
    }
    var k := found.value;
    var closed := Close(db.debts[k]);
    if closed.Err? {
      return Err(closed.error);
    }
    IdsRewrite(db.debts, DebtId, k, closed.value);
    db.debts := db.debts[k := closed.value];
    return Ok(closed.value);
  }
}
