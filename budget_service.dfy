/**
 * backend/app/services/budget_service.py: a planned amount per (user,
 * category or none, type, month, year), and the comparison of each of a
 * month's budgets with what was actually spent or earned.
 */
module BudgetService {
  import opened Common
  import opened Dates
  import opened Seqs
  import opened Schema
  import opened Database

  const BudgetNotFound := HttpError(404, "Budget not found")
  const BudgetExists := HttpError(400, "Budget for this category and period already exists")
  /** The display name of a budget without a category. */
  const OverallName := "Overall"

  /** The `BudgetCreate` request body; `categoryId` is `None` for an overall budget. */
  datatype BudgetCreate = BudgetCreate(
    categoryId: Option<string>, kind: CategoryType, month: int, year: int, planned: int)

  /** The (user, category, type, month, year) that `create_budget` looks up.
      Comparing `category_id` with None renders as IS NULL, so an overall
      budget collides with another overall budget. */
  function RequestKey(userId: string, data: BudgetCreate): BudgetKey {
    BudgetKey(userId, data.categoryId, data.kind, data.month, data.year)
  }

  /** The row `create_budget` adds. */
  function NewBudget(userId: string, data: BudgetCreate, id: string): (b: Budget)
    ensures b.id == id && b.planned == data.planned
    ensures KeyOf(b) == RequestKey(userId, data)
  {
    Budget(id, userId, data.categoryId, data.kind, data.month, data.year, data.planned)
  }

  /** The index of the budget with key `key`. */
  function FindByKey(budgets: seq<Budget>, key: BudgetKey): (r: Option<nat>)
    ensures r.Some? ==> r.value < |budgets| && KeyOf(budgets[r.value]) == key
    ensures r.None? <==> forall k :: 0 <= k < |budgets| ==> KeyOf(budgets[k]) != key
  {
    IndexWhere(budgets, (b: Budget) => KeyOf(b) == key)
  }

  /** Adding a budget whose key is new keeps the keys unique. */
  lemma KeysAppend(budgets: seq<Budget>, b: Budget)
    requires BudgetKeysUnique(budgets)
    requires forall k :: 0 <= k < |budgets| ==> KeyOf(budgets[k]) != KeyOf(b)
    ensures BudgetKeysUnique(budgets + [b])
  {
    var s := budgets + [b];
    forall i, j | 0 <= i < j < |s| ensures KeyOf(s[i]) != KeyOf(s[j]) {
      if j < |budgets| {
        assert KeyOf(budgets[i]) != KeyOf(budgets[j]);
      }
    }
  }

  /** Rewriting a budget without touching its key keeps the keys unique. */
  lemma KeysRewrite(budgets: seq<Budget>, k: nat, b: Budget)
    requires BudgetKeysUnique(budgets) && k < |budgets| && KeyOf(b) == KeyOf(budgets[k])
    ensures BudgetKeysUnique(budgets[k := b])
  {
    var s := budgets[k := b];
    forall i, j | 0 <= i < j < |s| ensures KeyOf(s[i]) != KeyOf(s[j]) {
      assert KeyOf(s[i]) == KeyOf(budgets[i]) && KeyOf(s[j]) == KeyOf(budgets[j]);
    }
  }

  /** Removing a budget keeps the keys unique. */
  lemma KeysRemove(budgets: seq<Budget>, k: nat)
    requires BudgetKeysUnique(budgets) && k < |budgets|
    ensures BudgetKeysUnique(RemoveAt(budgets, k))
  {
    var s := RemoveAt(budgets, k);
    forall i, j | 0 <= i < j < |s| ensures KeyOf(s[i]) != KeyOf(s[j]) {
      var i' := if i < k then i else i + 1;
      var j' := if j < k then j else j + 1;
      assert s[i] == budgets[i'] && s[j] == budgets[j'];
    }
  }

  /** `create_budget`: refuse a second budget for the same key, otherwise add one. */
  method CreateBudget(db: Db, userId: string, data: BudgetCreate, id: string) returns (r: Result<Budget>)
    requires db.BudgetsValid()
    requires id !in Ids(db.budgets, BudgetId)
    modifies db`budgets
    ensures db.BudgetsValid()
    ensures r.Err? <==> exists k :: 0 <= k < |old(db.budgets)| && KeyOf(old(db.budgets)[k]) == RequestKey(userId, data)
    ensures r.Err? ==> r.error == BudgetExists && db.budgets == old(db.budgets)
    ensures r.Ok? ==> r.value == NewBudget(userId, data, id) && db.budgets == old(db.budgets) + [r.value]
  {
    var existing := FindByKey(db.budgets, RequestKey(userId, data));
    if existing.Some? {
      return Err(BudgetExists);
    }
    var b := NewBudget(userId, data, id);
    IdsAppend(db.budgets, BudgetId, b);
    KeysAppend(db.budgets, b);
    db.budgets := db.budgets + [b];
    return Ok(b);
  }

  /** The WHERE clause of `get_budgets`. */
  predicate InPeriod(b: Budget, userId: string, month: int, year: int) {
    b.userId == userId && b.month == month && b.year == year
  }

  function PeriodOf(userId: string, month: int, year: int): Budget -> bool {
    (b: Budget) => InPeriod(b, userId, month, year)
  }

  /** `get_budgets`: the user's budgets of that month and year, in table order. */
  function GetBudgets(budgets: seq<Budget>, userId: string, month: int, year: int): (r: seq<Budget>)
    ensures forall b :: b in r <==> b in budgets && InPeriod(b, userId, month, year)
    ensures multiset(r) <= multiset(budgets)
  {
    Filter(budgets, PeriodOf(userId, month, year))
  }

  /** The (category, type) of a budget within one user's month. */
  function Slot(b: Budget): (Option<string>, CategoryType) {
    (b.categoryId, b.kind)
  }

  /** Because keys are unique, a month's budgets never repeat a (category, type). */
  lemma GetBudgetsSlotsUnique(budgets: seq<Budget>, userId: string, month: int, year: int)
    requires BudgetKeysUnique(budgets)
    ensures InjectiveOn(GetBudgets(budgets, userId, month, year), Slot)
  {
    FilterInjective(budgets, PeriodOf(userId, month, year), KeyOf);
    var r := GetBudgets(budgets, userId, month, year);
    forall i, j | 0 <= i < j < |r| ensures Slot(r[i]) != Slot(r[j]) {
      assert KeyOf(r[i]) != KeyOf(r[j]);
      assert InPeriod(r[i], userId, month, year) && InPeriod(r[j], userId, month, year);
    }
  }

  /** The index of the user's budget with id `id`. */
  function FindBudget(budgets: seq<Budget>, userId: string, id: string): (r: Option<nat>)
    ensures r.Some? ==> r.value < |budgets| && budgets[r.value].id == id && budgets[r.value].userId == userId
    ensures r.None? <==> forall k :: 0 <= k < |budgets| ==> !(budgets[k].id == id && budgets[k].userId == userId)
  {
    IndexWhere(budgets, (b: Budget) => b.id == id && b.userId == userId)
  }

  /** `get_budget`: the user's budget with that id, or a 404. */
  function GetBudget(budgets: seq<Budget>, userId: string, id: string): (r: Result<Budget>)
    ensures r.Ok? <==> exists k :: 0 <= k < |budgets| && budgets[k].id == id && budgets[k].userId == userId
    ensures r.Ok? ==> r.value in budgets && r.value.id == id && r.value.userId == userId
    ensures r.Err? ==> r.error == BudgetNotFound
  {
    match FindBudget(budgets, userId, id)
    case None => Err(BudgetNotFound)
    case Some(k) => Ok(budgets[k])
  }

  /** The planned amount after `update_budget`: a `None` (left out or null) keeps it. */
  function Replan(b: Budget, planned: Option<int>): (r: Budget)
    ensures r.id == b.id && KeyOf(r) == KeyOf(b)
    ensures r.planned == planned.GetOr(b.planned)
  {
    if planned.Some? then b.(planned := planned.value) else b
  }

  /** `update_budget`: find the user's budget, then replace its planned amount. */
  method UpdateBudget(db: Db, userId: string, id: string, planned: Option<int>) returns (r: Result<Budget>)
    requires db.BudgetsValid()
    modifies db`budgets
    ensures db.BudgetsValid()
    ensures r.Err? <==> FindBudget(old(db.budgets), userId, id).None?
    ensures r.Err? ==> r.error == BudgetNotFound && db.budgets == old(db.budgets)
    ensures r.Ok? ==>
              var k := FindBudget(old(db.budgets), userId, id).value;
              r.value == Replan(old(db.budgets)[k], planned) && db.budgets == old(db.budgets)[k := r.value]
  {
    var found := FindBudget(db.budgets, userId, id);
    if found.None? {
      return Err(BudgetNotFound);
    }
    var k := found.value;
    var b := Replan(db.budgets[k], planned);
    IdsRewrite(db.budgets, BudgetId, k, b);
    KeysRewrite(db.budgets, k, b);
    db.budgets := db.budgets[k := b];
    return Ok(b);
  }

  /** `delete_budget`: find the user's budget, then remove that row alone. */
  method DeleteBudget(db: Db, userId: string, id: string) returns (r: Result<()>)
    requires db.BudgetsValid()
    modifies db`budgets
    ensures db.BudgetsValid()
    ensures r.Err? <==> FindBudget(old(db.budgets), userId, id).None?
    ensures r.Err? ==> r.error == BudgetNotFound && db.budgets == old(db.budgets)
    ensures r.Ok? ==> db.budgets == RemoveAt(old(db.budgets), FindBudget(old(db.budgets), userId, id).value)
  {
    var found := FindBudget(db.budgets, userId, id);
    if found.None? {
      return Err(BudgetNotFound);
    }
    IdsRemove(db.budgets, BudgetId, found.value);
    KeysRemove(db.budgets, found.value);
    db.budgets := RemoveAt(db.budgets, found.value);
    return Ok(());
  }

  /** One `BudgetComparison` without its percentage. */
  datatype Comparison = Comparison(categoryName: string, planned: int, actual: int)

  /** The transaction type a budget's category type is compared with. */
  function TxnTypeOf(kind: CategoryType): TxnType {
    if kind == CategoryExpense then Expense else Income
  }

  /** The WHERE clause of the per-budget sum: the user's transactions of the
      matching type in that month and year, and of the budget's category
      when its `category_id` is truthy. */
  predicate CountsToward(t: Txn, userId: string, b: Budget, month: int, year: int) {
    && t.userId == userId && t.kind == TxnTypeOf(b.kind)
    && t.date.month == month && t.date.year == year
    && (Truthy(b.categoryId) ==> t.categoryId == b.categoryId)
  }

  function Counts(userId: string, b: Budget, month: int, year: int): Txn -> bool {
    (t: Txn) => CountsToward(t, userId, b, month, year)
  }

  /** The `actual` of a budget: the exact sum over the counted transactions, 0 when there are none. */
  function Actual(txns: seq<Txn>, userId: string, b: Budget, month: int, year: int): int {
    SumWhere(txns, Counts(userId, b, month, year), TxnAmount)
  }

  /** A transaction the budget does not count leaves its actual alone. */
  lemma ActualIgnores(txns: seq<Txn>, t: Txn, userId: string, b: Budget, month: int, year: int)
    requires !CountsToward(t, userId, b, month, year)
    ensures Actual(txns + [t], userId, b, month, year) == Actual(txns, userId, b, month, year)
  {
    SumWhereAppend(txns, [t], Counts(userId, b, month, year), TxnAmount);
  }

  /** A transaction the budget counts adds its amount to the actual. */
  lemma ActualAdds(txns: seq<Txn>, t: Txn, userId: string, b: Budget, month: int, year: int)
    requires CountsToward(t, userId, b, month, year)
    ensures Actual(txns + [t], userId, b, month, year) == Actual(txns, userId, b, month, year) + t.amount
  {
    SumWhereAppend(txns, [t], Counts(userId, b, month, year), TxnAmount);
  }

  /** With non-negative amounts, a category's actual never exceeds the
      overall actual of the same type and period. */
  lemma CategoryWithinOverall(txns: seq<Txn>, userId: string, b: Budget, overall: Budget, month: int, year: int)
    requires b.kind == overall.kind && !Truthy(overall.categoryId)
    requires forall i :: 0 <= i < |txns| ==> txns[i].amount >= 0
    ensures Actual(txns, userId, b, month, year) <= Actual(txns, userId, overall, month, year)
  {
    SumWhereMono(txns, Counts(userId, b, month, year), Counts(userId, overall, month, year), TxnAmount);
  }

  /** The display name: the name of the category the budget refers to, or
      "Overall" when it has none or that category does not exist. */
  function DisplayName(categories: seq<Category>, b: Budget): (r: string)
    ensures b.categoryId.None? ==> r == OverallName
    ensures b.categoryId.Some? && b.categoryId.value !in Ids(categories, CategoryId) ==> r == OverallName
    ensures b.categoryId.Some? && b.categoryId.value in Ids(categories, CategoryId) ==>
              exists k :: 0 <= k < |categories| && categories[k].id == b.categoryId.value && r == categories[k].name
  {
    match b.categoryId
    case None => OverallName
    case Some(c) =>
      FindByIdSpec(categories, CategoryId, c);
      match FindById(categories, CategoryId, c)
      case None => OverallName
      case Some(k) => categories[k].name
  }

  /** The comparison row of one budget. */
  function Compare(categories: seq<Category>, txns: seq<Txn>, userId: string, month: int, year: int, b: Budget)
    : Comparison
  {
    Comparison(DisplayName(categories, b), b.planned, Actual(txns, userId, b, month, year))
  }

  /** `get_budget_comparison`: one row per budget of the month, in the order
      `get_budgets` returns them, each with that budget's name, planned
      amount and actual sum. */
  method GetBudgetComparison(db: Db, userId: string, month: int, year: int) returns (r: seq<Comparison>)
    ensures var budgets := GetBudgets(db.budgets, userId, month, year);
            && |r| == |budgets|
            && forall i :: 0 <= i < |r| ==> r[i] == Compare(db.categories, db.txns, userId, month, year, budgets[i])
  {
    var budgets := GetBudgets(db.budgets, userId, month, year);
    var categories, txns := db.categories, db.txns;
    r := [];
    var i := 0;
    while i < |budgets|
      invariant 0 <= i <= |budgets| && |r| == i
      invariant forall j :: 0 <= j < i ==> r[j] == Compare(categories, txns, userId, month, year, budgets[j])
    {
      r := r + [Compare(categories, txns, userId, month, year, budgets[i])];
      i := i + 1;
    }
  }
}
