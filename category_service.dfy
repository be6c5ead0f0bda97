/**
 * backend/app/services/category_service.py: the preset categories every new
 * user gets, the user's own categories, and their listing (defaults first,
 * then by name).
 */
module CategoryService {
  import opened Common
  import opened Seqs
  import opened Schema
  import opened Database

  /** One entry of a preset list: name, icon and color. */
  datatype Preset = Preset(name: string, icon: string, color: string)

  const DefaultExpenseCategories: seq<Preset> := [
    Preset("Food", "restaurant", "#FF6B6B"),
    Preset("Transport", "directions-car", "#4ECDC4"),
    Preset("Shopping", "shopping-bag", "#45B7D1"),
    Preset("Bills", "receipt", "#96CEB4"),
    Preset("Health", "local-hospital", "#FFEAA7"),
    Preset("Entertainment", "movie", "#DDA0DD"),
    Preset("Education", "school", "#98D8C8"),
    Preset("Other", "more-horiz", "#B0BEC5")
  ]

  const DefaultIncomeCategories: seq<Preset> := [
    Preset("Salary", "work", "#2ECC71"),
    Preset("Freelance", "laptop", "#3498DB"),
    Preset("Gift", "card-giftcard", "#E74C3C"),
    Preset("Investment", "trending-up", "#9B59B6"),
    Preset("Other", "more-horiz", "#B0BEC5")
  ]

  /** The number of rows one seeding adds. */
  const SeedCount := |DefaultExpenseCategories| + |DefaultIncomeCategories|

  /** The row seeded from a preset. */
  function PresetRow(userId: string, id: string, p: Preset, kind: CategoryType): Category {
    Category(id, Some(userId), p.name, kind, Some(p.icon), Some(p.color), true)
  }

  /** The rows one preset list gives, with fresh uuids `ids`. */
  function PresetRows(userId: string, ids: seq<string>, presets: seq<Preset>, kind: CategoryType): (r: seq<Category>)
    requires |ids| == |presets|
    ensures |r| == |presets|
    ensures forall k :: 0 <= k < |r| ==> r[k] == PresetRow(userId, ids[k], presets[k], kind)
  {
    seq(|presets|, k requires 0 <= k < |presets| => PresetRow(userId, ids[k], presets[k], kind))
  }

  /** The rows `seed_default_categories` adds, in the order it adds them:
      the expense presets, then the income presets; `ids` are their fresh uuids. */
  function SeedRows(userId: string, ids: seq<string>): (r: seq<Category>)
    requires |ids| == SeedCount
    ensures |r| == SeedCount
    ensures forall k :: 0 <= k < |r| ==> r[k].id == ids[k]
    ensures forall k :: 0 <= k < |DefaultExpenseCategories| ==>
              r[k] == PresetRow(userId, ids[k], DefaultExpenseCategories[k], CategoryExpense)
    ensures forall k :: |DefaultExpenseCategories| <= k < SeedCount ==>
              r[k] == PresetRow(userId, ids[k], DefaultIncomeCategories[k - |DefaultExpenseCategories|], CategoryIncome)
  {
    var n := |DefaultExpenseCategories|;
    PresetRowsConcat(userId, ids, DefaultExpenseCategories, CategoryExpense, DefaultIncomeCategories, CategoryIncome);
    PresetRows(userId, ids[..n], DefaultExpenseCategories, CategoryExpense)
    + PresetRows(userId, ids[n..], DefaultIncomeCategories, CategoryIncome)
  }

  /** The rows of two preset lists put together: the first list's rows, then the second's. */
  lemma PresetRowsConcat(userId: string, ids: seq<string>, a: seq<Preset>, ka: CategoryType,
                         b: seq<Preset>, kb: CategoryType)
    requires |ids| == |a| + |b|
    ensures var r := PresetRows(userId, ids[..|a|], a, ka) + PresetRows(userId, ids[|a|..], b, kb);
            && |r| == |ids|
            && (forall k :: 0 <= k < |a| ==> r[k] == PresetRow(userId, ids[k], a[k], ka))
            && (forall k :: |a| <= k < |ids| ==> r[k] == PresetRow(userId, ids[k], b[k - |a|], kb))
  {
    var e := PresetRows(userId, ids[..|a|], a, ka);
    var i := PresetRows(userId, ids[|a|..], b, kb);
    forall k | 0 <= k < |a| ensures (e + i)[k] == PresetRow(userId, ids[k], a[k], ka) {
      assert (e + i)[k] == e[k];
    }
    forall k | |a| <= k < |ids| ensures (e + i)[k] == PresetRow(userId, ids[k], b[k - |a|], kb) {
      assert (e + i)[k] == i[k - |a|];
      assert ids[|a|..][k - |a|] == ids[k];
    }
  }

  /** An id that is in neither part of a table is not in the whole. */
  lemma FreshAfter(rows: seq<Category>, added: seq<Category>, x: string)
    requires x !in Ids(rows, CategoryId)
    requires forall k :: 0 <= k < |added| ==> added[k].id != x
    ensures x !in Ids(rows + added, CategoryId)
  {
    if x in Ids(rows + added, CategoryId) {
      var m := IdIndex(rows + added, CategoryId, x);
    }
  }

  /** One loop of `seed_default_categories`: add a row for each preset of a
      list, with the type of that list. */
  method AddPresets(db: Db, userId: string, ids: seq<string>, presets: seq<Preset>, kind: CategoryType)
    requires db.CategoriesValid()
    requires |ids| == |presets| && Distinct(ids)
    requires forall k :: 0 <= k < |ids| ==> ids[k] !in Ids(db.categories, CategoryId)
    modifies db`categories
    ensures db.CategoriesValid()
    ensures db.categories == old(db.categories) + PresetRows(userId, ids, presets, kind)
  {
    ghost var rows := PresetRows(userId, ids, presets, kind);
    for i := 0 to |presets|
      invariant db.categories == old(db.categories) + rows[..i]
      invariant db.CategoriesValid()
    {
      var p := presets[i];
      var category := PresetRow(userId, ids[i], p, kind);
      FreshAfter(old(db.categories), rows[..i], ids[i]);
      IdsAppend(db.categories, CategoryId, category);
      assert rows[..i + 1] == rows[..i] + [category];
      db.categories := db.categories + [category];
    }
    assert rows[..|presets|] == rows;
  }

  /** `seed_default_categories`: add 8 expense and 5 income presets for the
      user, all marked default. It does not look at what is already there. */
  method SeedDefaultCategories(db: Db, userId: string, ids: seq<string>)
    requires db.CategoriesValid()
    requires |ids| == SeedCount && Distinct(ids)
    requires forall k :: 0 <= k < |ids| ==> ids[k] !in Ids(db.categories, CategoryId)
    modifies db`categories
    ensures db.CategoriesValid()
    ensures db.categories == old(db.categories) + SeedRows(userId, ids)
  {
    var n := |DefaultExpenseCategories|;
    SplitIds(db.categories, userId, ids, n);
    AddPresets(db, userId, ids[..n], DefaultExpenseCategories, CategoryExpense);
    AddPresets(db, userId, ids[n..], DefaultIncomeCategories, CategoryIncome);
  }

  /** Splitting the fresh ids between the two loops: each part is distinct,
      and the second part is still fresh once the first loop has added its rows. */
  lemma SplitIds(rows: seq<Category>, userId: string, ids: seq<string>, n: nat)
    requires n <= |ids| && Distinct(ids)
    requires forall k :: 0 <= k < |ids| ==> ids[k] !in Ids(rows, CategoryId)
    ensures Distinct(ids[..n]) && Distinct(ids[n..])
    ensures forall k :: 0 <= k < n ==> ids[..n][k] !in Ids(rows, CategoryId)
    ensures forall presets: seq<Preset>, kind: CategoryType, k: nat | |presets| == n && k < |ids| - n ::
              ids[n..][k] !in Ids(rows + PresetRows(userId, ids[..n], presets, kind), CategoryId)
  {
    var tail := ids[n..];
    forall i, j | 0 <= i < j < |tail| ensures tail[i] != tail[j] {
      assert ids[n + i] != ids[n + j];
    }
    forall presets: seq<Preset>, kind: CategoryType, k: nat | |presets| == n && k < |ids| - n
      ensures tail[k] !in Ids(rows + PresetRows(userId, ids[..n], presets, kind), CategoryId)
    {
      var added := PresetRows(userId, ids[..n], presets, kind);
      assert tail[k] == ids[n + k];
      forall m | 0 <= m < |added| ensures added[m].id != tail[k] {
        assert added[m].id == ids[m];
      }
      FreshAfter(rows, added, tail[k]);
    }
  }

  /** The user's preset rows of one type. */
  function UserDefaults(userId: string, kind: CategoryType): Category -> bool {
    (c: Category) => c.userId == Some(userId) && c.kind == kind && c.isDefault
  }

  /** The rows of one preset list are the user's defaults of that list's
      type and of no other type. */
  lemma PresetRowsKinds(userId: string, ids: seq<string>, presets: seq<Preset>, kind: CategoryType, other: CategoryType)
    requires |ids| == |presets| && other != kind
    ensures Filter(PresetRows(userId, ids, presets, kind), UserDefaults(userId, kind))
            == PresetRows(userId, ids, presets, kind)
    ensures Filter(PresetRows(userId, ids, presets, kind), UserDefaults(userId, other)) == []
  {
    FilterAll(PresetRows(userId, ids, presets, kind), UserDefaults(userId, kind));
    FilterNone(PresetRows(userId, ids, presets, kind), UserDefaults(userId, other));
  }

  /** One seeding adds exactly 8 expense and 5 income categories for the
      user, all of them default. */
  lemma SeedAdds(rows: seq<Category>, userId: string, ids: seq<string>)
    requires |ids| == SeedCount
    ensures |Filter(rows + SeedRows(userId, ids), UserDefaults(userId, CategoryExpense))|
            == |Filter(rows, UserDefaults(userId, CategoryExpense))| + 8
    ensures |Filter(rows + SeedRows(userId, ids), UserDefaults(userId, CategoryIncome))|
            == |Filter(rows, UserDefaults(userId, CategoryIncome))| + 5
  {
    var n := |DefaultExpenseCategories|;
    var e := PresetRows(userId, ids[..n], DefaultExpenseCategories, CategoryExpense);
    var i := PresetRows(userId, ids[n..], DefaultIncomeCategories, CategoryIncome);
    assert SeedRows(userId, ids) == e + i;
    FilterAppend(rows, e + i, UserDefaults(userId, CategoryExpense));
    FilterAppend(rows, e + i, UserDefaults(userId, CategoryIncome));
    FilterAppend(e, i, UserDefaults(userId, CategoryExpense));
    FilterAppend(e, i, UserDefaults(userId, CategoryIncome));
    PresetRowsKinds(userId, ids[..n], DefaultExpenseCategories, CategoryExpense, CategoryIncome);
    PresetRowsKinds(userId, ids[n..], DefaultIncomeCategories, CategoryIncome, CategoryExpense);
  }

  /** Seeding twice adds the presets twice. */
  lemma SeedTwice(rows: seq<Category>, userId: string, ids1: seq<string>, ids2: seq<string>)
    requires |ids1| == SeedCount && |ids2| == SeedCount
    ensures |Filter(rows + SeedRows(userId, ids1) + SeedRows(userId, ids2), UserDefaults(userId, CategoryExpense))|
            == |Filter(rows, UserDefaults(userId, CategoryExpense))| + 16
    ensures |Filter(rows + SeedRows(userId, ids1) + SeedRows(userId, ids2), UserDefaults(userId, CategoryIncome))|
            == |Filter(rows, UserDefaults(userId, CategoryIncome))| + 10
  {
    SeedAdds(rows, userId, ids1);
    SeedAdds(rows + SeedRows(userId, ids1), userId, ids2);
  }

  /** The `CategoryCreate` request body. */
  datatype CategoryCreate = CategoryCreate(name: string, kind: CategoryType, icon: Option<string>, color: Option<string>)

  /** `create_category`: add one non-default category of the given type. */
  method CreateCategory(db: Db, userId: string, data: CategoryCreate, id: string) returns (r: Category)
    requires db.CategoriesValid()
    requires id !in Ids(db.categories, CategoryId)
    modifies db`categories
    ensures db.CategoriesValid()
    ensures r == Category(id, Some(userId), data.name, data.kind, data.icon, data.color, false)
    ensures db.categories == old(db.categories) + [r]
  {
    r := Category(id, Some(userId), data.name, data.kind, data.icon, data.color, false);
    IdsAppend(db.categories, CategoryId, r);
    db.categories := db.categories + [r];
  }

  /** ORDER BY is_default DESC, name: `a` may come before `b`. */
  predicate DefaultsThenName(a: Category, b: Category) {
    (a.isDefault && !b.isDefault) || (a.isDefault == b.isDefault && StrLe(a.name, b.name))
  }

  function CategoryOrder(): (Category, Category) -> bool {
    (a: Category, b: Category) => DefaultsThenName(a, b)
  }

  lemma CategoryOrderTotal()
    ensures TotalPreorder(CategoryOrder())
  {
    forall a: Category, b: Category ensures DefaultsThenName(a, b) || DefaultsThenName(b, a) {
      StrLeTotal(a.name, b.name);
    }
    forall a: Category, b: Category, c: Category | DefaultsThenName(a, b) && DefaultsThenName(b, c)
      ensures DefaultsThenName(a, c)
    {
      if a.isDefault == b.isDefault && b.isDefault == c.isDefault {
        StrLeTrans(a.name, b.name, c.name);
      }
    }
  }

  /** The WHERE clause of `get_categories`: the user's rows, of `catType` when it is given. */
  function Listed(userId: string, catType: Option<CategoryType>): Category -> bool {
    (c: Category) => c.userId == Some(userId) && (catType.Some? ==> c.kind == catType.value)
  }

  /** `get_categories`: the user's categories (of one type when asked), the
      defaults first, each group by name. */
  function GetCategories(categories: seq<Category>, userId: string, catType: Option<CategoryType>): (r: seq<Category>)
    ensures forall c :: c in r <==> c in categories && c.userId == Some(userId)
                                    && (catType.Some? ==> c.kind == catType.value)
    ensures forall i, j :: 0 <= i < j < |r| ==> r[i].isDefault || !r[j].isDefault
    ensures forall i, j :: 0 <= i < j < |r| && r[i].isDefault == r[j].isDefault ==> StrLe(r[i].name, r[j].name)
    ensures multiset(r) == multiset(Filter(categories, Listed(userId, catType)))
  {
    CategoryOrderTotal();
    var r := SortBy(Filter(categories, Listed(userId, catType)), CategoryOrder());
    SameMembers(r, Filter(categories, Listed(userId, catType)));
    SortedByCategoryOrder(r);
    r
  }

  lemma SortedByCategoryOrder(r: seq<Category>)
    requires Sorted(r, CategoryOrder())
    ensures forall i, j :: 0 <= i < j < |r| ==> r[i].isDefault || !r[j].isDefault
    ensures forall i, j :: 0 <= i < j < |r| && r[i].isDefault == r[j].isDefault ==> StrLe(r[i].name, r[j].name)
  {
    forall i, j | 0 <= i < j < |r| ensures DefaultsThenName(r[i], r[j]) {
      assert CategoryOrder()(r[i], r[j]);
    }
  }
}
