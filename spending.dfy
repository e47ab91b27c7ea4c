/** The aggregations of the Spending page (src/pages/Spending.tsx): totals per
    category in order of first appearance, the monthly trend in calendar
    order, and the budget-used percentage. */
module Spending {
  import opened Optional
  import opened JsNumber

  /** A stored transaction as the page reads it. `category` is "" when the
      field is missing or empty (falsy); `createdMonth` is the month, 0 to 11,
      of `createdAt`, None when the document has no `createdAt`. */
  datatype StoredTx = StoredTx(category: string, amount: Num, createdMonth: Option<int>)

  /** `Number(tx.amount || 0)`: a stored NaN or 0 counts as 0. */
  function Contribution(tx: StoredTx): real {
    OrZero(tx.amount)
  }

  // ----------------------------------------------------------- category meta

  datatype Meta = Meta(color: string, budget: real)

  const CategoryMeta: map<string, Meta> := map[
    "Food & Dining" := Meta("hsl(25, 50%, 35%)", 15000.0),
    "Rent" := Meta("hsl(38, 90%, 50%)", 25000.0),
    "Transportation" := Meta("hsl(35, 60%, 45%)", 10000.0),
    "Shopping" := Meta("hsl(30, 40%, 55%)", 8000.0),
    "Utilities" := Meta("hsl(20, 35%, 40%)", 6000.0),
    "Entertainment" := Meta("hsl(45, 70%, 55%)", 5000.0)
  ]

  const DefaultColor: string := "hsl(30, 40%, 55%)"

  /** `meta.budget || 0`: zero exactly for a category without meta. */
  function Budget(category: string): (b: real)
    ensures b >= 0.0
    ensures b == 0.0 <==> category !in CategoryMeta
  {
    if category in CategoryMeta then CategoryMeta[category].budget else 0.0
  }

  /** `meta.color || "hsl(30, 40%, 55%)"`. */
  function Color(category: string): (c: string)
    ensures category !in CategoryMeta ==> c == DefaultColor
  {
    if category in CategoryMeta then CategoryMeta[category].color else DefaultColor
  }

  // ----------------------------------------------------- category aggregation

  datatype CategoryEntry = CategoryEntry(name: string, value: real, budget: real, color: string)

  /** The sum of the contributions of the transactions of one category. */
  function CategoryTotal(txs: seq<StoredTx>, c: string): real {
    if txs == [] then 0.0
    else
      var rest := CategoryTotal(txs[..|txs| - 1], c);
      if txs[|txs| - 1].category == c then rest + Contribution(txs[|txs| - 1]) else rest
  }

  /** The categories, each once, in order of first appearance; a falsy
      category is skipped. */
  function CategoryOrder(txs: seq<StoredTx>): seq<string> {
    if txs == [] then []
    else
      var order := CategoryOrder(txs[..|txs| - 1]);
      var c := txs[|txs| - 1].category;
      if c == "" || c in order then order else order + [c]
  }

  predicate Distinct(s: seq<string>) {
    forall i, j :: 0 <= i < j < |s| ==> s[i] != s[j]
  }

  /** No category is listed twice, "" is never listed, and the listed
      categories are exactly the non-empty categories of the transactions. */
  lemma {:induction false} CategoryOrderFacts(txs: seq<StoredTx>)
    ensures Distinct(CategoryOrder(txs))
    ensures "" !in CategoryOrder(txs)
    ensures forall i :: 0 <= i < |txs| && txs[i].category != "" ==> txs[i].category in CategoryOrder(txs)
    ensures forall c :: c in CategoryOrder(txs) ==> exists i :: 0 <= i < |txs| && txs[i].category == c
  {
    if txs != [] {
      var init := txs[..|txs| - 1];
      CategoryOrderFacts(init);
      assert forall i :: 0 <= i < |init| ==> init[i] == txs[i];
      var order := CategoryOrder(init);
      var c := txs[|txs| - 1].category;
      if c != "" && c !in order {
        forall c' | c' in order + [c]
          ensures exists i :: 0 <= i < |txs| && txs[i].category == c'
        {
          if c' == c {
            assert txs[|txs| - 1].category == c';
          } else {
            assert c' in order;
            var i :| 0 <= i < |init| && init[i].category == c';
            assert txs[i].category == c';
          }
        }
      }
    }
  }

  /** Appearance order is stable: the order of a prefix of the transactions
      is a prefix of the order of all of them. */
  lemma {:induction false} CategoryOrderGrows(txs: seq<StoredTx>, n: nat)
    requires n <= |txs|
    ensures CategoryOrder(txs[..n]) <= CategoryOrder(txs)
    decreases |txs|
  {
    if n < |txs| {
      var init := txs[..|txs| - 1];
      assert init[..n] == txs[..n];
      CategoryOrderGrows(init, n);
      assert CategoryOrder(init) <= CategoryOrder(txs);
    } else {
      assert txs[..n] == txs;
    }
  }

  /** A category that no transaction carries totals to 0. */
  lemma {:induction false} CategoryTotalAbsent(txs: seq<StoredTx>, c: string)
    requires forall i :: 0 <= i < |txs| ==> txs[i].category != c
    ensures CategoryTotal(txs, c) == 0.0
  {
    if txs != [] {
      var init := txs[..|txs| - 1];
      assert forall i :: 0 <= i < |init| ==> init[i] == txs[i];
      CategoryTotalAbsent(init, c);
    }
  }

  function EntryFor(c: string, txs: seq<StoredTx>): CategoryEntry {
    CategoryEntry(c, CategoryTotal(txs, c), Budget(c), Color(c))
  }

  /** One more transaction adds its contribution to its own category's
      entry and leaves every other entry as it was. */
  lemma EntryStep(txs: seq<StoredTx>, i: int, c: string)
    requires 0 <= i < |txs|
    ensures EntryFor(c, txs[..i + 1]) ==
      if txs[i].category == c
      then EntryFor(c, txs[..i]).(value := EntryFor(c, txs[..i]).value + Contribution(txs[i]))
      else EntryFor(c, txs[..i])
  {
    assert txs[..i + 1][..i] == txs[..i];
  }

  function Entries(order: seq<string>, txs: seq<StoredTx>): (es: seq<CategoryEntry>)
    ensures |es| == |order|
    ensures forall k :: 0 <= k < |order| ==> es[k] == EntryFor(order[k], txs)
  {
    if order == [] then [] else Entries(order[..|order| - 1], txs) + [EntryFor(order[|order| - 1], txs)]
  }

  /** `Object.values(categoryMap)` after the aggregation. */
  function CategoryData(txs: seq<StoredTx>): seq<CategoryEntry> {
    Entries(CategoryOrder(txs), txs)
  }

  /** One entry per distinct category that some transaction carries, each
      holding that category's total, budget and colour. */
  lemma CategoryDataFacts(txs: seq<StoredTx>)
    ensures forall k :: 0 <= k < |CategoryData(txs)| ==>
      var e := CategoryData(txs)[k];
      e.name != "" && e.value == CategoryTotal(txs, e.name) && e.budget == Budget(e.name) && e.color == Color(e.name)
    ensures forall k, l :: 0 <= k < l < |CategoryData(txs)| ==> CategoryData(txs)[k].name != CategoryData(txs)[l].name
    ensures forall i :: 0 <= i < |txs| && txs[i].category != "" ==>
      exists k :: 0 <= k < |CategoryData(txs)| && CategoryData(txs)[k].name == txs[i].category
    ensures forall k :: 0 <= k < |CategoryData(txs)| ==>
      exists i :: 0 <= i < |txs| && txs[i].category == CategoryData(txs)[k].name
  {
    CategoryOrderFacts(txs);
    var order := CategoryOrder(txs);
    var data := CategoryData(txs);
    forall k | 0 <= k < |data| ensures data[k] == EntryFor(order[k], txs) && order[k] in order {
    }
    forall i | 0 <= i < |txs| && txs[i].category != ""
      ensures exists k :: 0 <= k < |data| && data[k].name == txs[i].category
    {
      var k :| 0 <= k < |order| && order[k] == txs[i].category;
      assert data[k].name == order[k];
    }
  }

  /** The map and key order hold the entries of the first `i` transactions. */
  ghost predicate Aggregated(categoryMap: map<string, CategoryEntry>, order: seq<string>, txs: seq<StoredTx>, i: int)
    requires 0 <= i <= |txs|
  {
    order == CategoryOrder(txs[..i]) &&
    (forall c :: c in categoryMap <==> c in order) &&
    (forall c :: c in categoryMap ==> categoryMap[c] == EntryFor(c, txs[..i]))
  }

  /** The `forEach` callback for transaction `i`: skip it when it has no
      category, create its entry on first sight, then add its amount. */
  method AddTransaction(categoryMap: map<string, CategoryEntry>, order: seq<string>, txs: seq<StoredTx>, i: int)
    returns (categoryMap': map<string, CategoryEntry>, order': seq<string>)
    requires 0 <= i < |txs| && Aggregated(categoryMap, order, txs, i)
    ensures Aggregated(categoryMap', order', txs, i + 1)
  {
    var tx := txs[i];
    assert txs[..i + 1][..i] == txs[..i];
    CategoryOrderFacts(txs[..i]);
    categoryMap', order' := categoryMap, order;
    if tx.category != "" {
      var amount := OrZero(tx.amount);
      if tx.category !in categoryMap' {
        categoryMap' := categoryMap'[tx.category := CategoryEntry(tx.category, 0.0, Budget(tx.category), Color(tx.category))];
        order' := order' + [tx.category];
      }
      var entry := categoryMap'[tx.category];
      categoryMap' := categoryMap'[tx.category := entry.(value := entry.value + amount)];
    }
    forall c | c in categoryMap'
      ensures categoryMap'[c] == EntryFor(c, txs[..i + 1])
    {
      EntryStep(txs, i, c);
      if c !in categoryMap {
        CategoryTotalAbsent(txs[..i], c);
      }
    }
  }

  /** The category aggregation loop, then `Object.values`. */
  method AggregateCategories(txs: seq<StoredTx>) returns (data: seq<CategoryEntry>)
    ensures data == CategoryData(txs)
  {
    var categoryMap: map<string, CategoryEntry> := map[];
    var order: seq<string> := [];
    var i := 0;
    while i < |txs|
      invariant 0 <= i <= |txs|
      invariant Aggregated(categoryMap, order, txs, i)
    {
      categoryMap, order := AddTransaction(categoryMap, order, txs, i);
      i := i + 1;
    }
    assert txs[..i] == txs;

    data := [];
    var j := 0;
    while j < |order|
      invariant 0 <= j <= |order|
      invariant data == Entries(order[..j], txs)
    {
      assert order[..j + 1][..j] == order[..j];
      data := data + [categoryMap[order[j]]];
      j := j + 1;
    }
    assert order[..j] == order;
  }

  // --------------------------------------------------------------- totals

  /** `categoryData.reduce((sum, c) => sum + Number(c.value || 0), 0)`. */
  function TotalSpending(data: seq<CategoryEntry>): (total: real)
    ensures (forall k :: 0 <= k < |data| ==> data[k].value >= 0.0) ==> total >= 0.0
  {
    if data == [] then 0.0 else TotalSpending(data[..|data| - 1]) + OrZero(Finite(data[|data| - 1].value))
  }

  /** `categoryData.reduce((sum, c) => sum + Number(c.budget || 0), 0)`. */
  function TotalBudget(data: seq<CategoryEntry>): (total: real)
    ensures (forall k :: 0 <= k < |data| ==> data[k].budget >= 0.0) ==> total >= 0.0
    ensures (forall k :: 0 <= k < |data| ==> data[k].budget == 0.0) ==> total == 0.0
  {
    if data == [] then 0.0 else TotalBudget(data[..|data| - 1]) + OrZero(Finite(data[|data| - 1].budget))
  }

  /** The total of every transaction that carries a category. */
  function CategorisedTotal(txs: seq<StoredTx>): real {
    if txs == [] then 0.0
    else
      var rest := CategorisedTotal(txs[..|txs| - 1]);
      if txs[|txs| - 1].category != "" then rest + Contribution(txs[|txs| - 1]) else rest
  }

  /** The category totals, summed in the given order. */
  function TotalOver(order: seq<string>, txs: seq<StoredTx>): real {
    if order == [] then 0.0 else TotalOver(order[..|order| - 1], txs) + CategoryTotal(txs, order[|order| - 1])
  }

  /** One more transaction of category `c` adds its contribution to the
      total over an order that lists `c` once, and nothing to one that does
      not list it. */
  lemma {:induction false} TotalOverSnoc(order: seq<string>, txs: seq<StoredTx>, t: StoredTx)
    requires Distinct(order)
    ensures TotalOver(order, txs + [t]) ==
      TotalOver(order, txs) + (if t.category in order then Contribution(t) else 0.0)
  {
    if order != [] {
      var init := order[..|order| - 1];
      var last := order[|order| - 1];
      TotalOverSnoc(init, txs, t);
      assert (txs + [t])[..|txs + [t]| - 1] == txs;
      assert t.category in order <==> t.category in init || t.category == last;
      assert t.category == last ==> t.category !in init;
    }
  }

  lemma TotalSpendingOfEntries(order: seq<string>, txs: seq<StoredTx>)
    ensures TotalSpending(Entries(order, txs)) == TotalOver(order, txs)
  {
    if order != [] {
      var es := Entries(order, txs);
      assert es[..|es| - 1] == Entries(order[..|order| - 1], txs);
      TotalSpendingOfEntries(order[..|order| - 1], txs);
    }
  }

  /** Total spending is the sum of the amounts of all categorised
      transactions: nothing is lost or counted twice by the grouping. */
  lemma {:induction false} TotalSpendingIsCategorisedTotal(txs: seq<StoredTx>)
    ensures TotalSpending(CategoryData(txs)) == CategorisedTotal(txs)
  {
    TotalSpendingOfEntries(CategoryOrder(txs), txs);
    TotalOverIsCategorisedTotal(txs);
  }

  lemma {:induction false} TotalOverIsCategorisedTotal(txs: seq<StoredTx>)
    ensures TotalOver(CategoryOrder(txs), txs) == CategorisedTotal(txs)
  {
    if txs != [] {
      var init := txs[..|txs| - 1];
      var t := txs[|txs| - 1];
      var order := CategoryOrder(init);
      TotalOverIsCategorisedTotal(init);
      assert Distinct(order) && "" !in order by {
        CategoryOrderFacts(init);
      }
      TotalOverSnoc(order, init, t);
      assert init + [t] == txs;
      if t.category != "" && t.category !in order {
        assert forall i :: 0 <= i < |init| ==> init[i].category != t.category by {
          CategoryOrderFacts(init);
        }
        CategoryTotalAbsent(init, t.category);
        assert CategoryOrder(txs) == order + [t.category];
        assert (order + [t.category])[..|order|] == order;
      }
    }
  }

  /** An uncategorised transaction changes nothing on the page. */
  lemma UncategorisedIgnored(txs: seq<StoredTx>, amount: Num, month: Option<int>)
    ensures CategoryData(txs + [StoredTx("", amount, month)]) == CategoryData(txs)
  {
    var t := StoredTx("", amount, month);
    var all := txs + [t];
    assert all[..|all| - 1] == txs;
    var order := CategoryOrder(txs);
    assert CategoryOrder(all) == order;
    forall k | 0 <= k < |order|
      ensures EntryFor(order[k], all) == EntryFor(order[k], txs)
    {
      CategoryOrderFacts(txs);
      assert order[k] != "";
    }
  }

  /** Budget used: `totalBudget ? Math.round(totalSpending / totalBudget * 100) : 0`. */
  function BudgetUsed(totalSpending: real, totalBudget: real): (r: int)
    ensures totalBudget == 0.0 ==> r == 0
  {
    if totalBudget != 0.0 then Round(totalSpending / totalBudget * 100.0) else 0
  }

  /** Spending within a positive budget shows between 0% and 100%, and
      spending the whole budget shows exactly 100%. */
  lemma BudgetUsedBounds(totalSpending: real, totalBudget: real)
    requires totalBudget > 0.0 && 0.0 <= totalSpending <= totalBudget
    ensures 0 <= BudgetUsed(totalSpending, totalBudget) <= 100
    ensures totalSpending == totalBudget ==> BudgetUsed(totalSpending, totalBudget) == 100
  {
    var q := totalSpending / totalBudget;
    assert q * totalBudget == totalSpending;
    if q > 1.0 {
      MulPositive(q - 1.0, totalBudget);
      assert false;
    }
    if q < 0.0 {
      MulPositive(-q, totalBudget);
      assert false;
    }
    if totalSpending == totalBudget {
      assert q == 1.0;
    }
    RoundMonotone(0.0, q * 100.0);
    RoundMonotone(q * 100.0, 100.0);
    RoundWhole(0);
    RoundWhole(100);
  }

  // ------------------------------------------------------------ monthly trend

  /** A point of the trend. `month` is the calendar index of the short
      month name the page shows: 0 for "Jan" through 11 for "Dec". */
  datatype MonthPoint = MonthPoint(month: nat, spending: real)

  /** The sum for one month over the transactions that have `createdAt`. */
  function MonthTotal(txs: seq<StoredTx>, m: int): real {
    if txs == [] then 0.0
    else
      var rest := MonthTotal(txs[..|txs| - 1], m);
      if txs[|txs| - 1].createdMonth == Some(m) then OrZero(Finite(rest)) + Contribution(txs[|txs| - 1]) else rest
  }

  /** A month no transaction was created in sums to 0, so it never shows
      on the trend. */
  lemma {:induction false} MonthTotalOfEmptyMonth(txs: seq<StoredTx>, m: int)
    requires forall i :: 0 <= i < |txs| ==> txs[i].createdMonth != Some(m)
    ensures MonthTotal(txs, m) == 0.0
  {
    if txs != [] {
      MonthTotalOfEmptyMonth(txs[..|txs| - 1], m);
    }
  }

  /** The months before `n` whose sum is truthy, in calendar order. */
  function TrendUpTo(txs: seq<StoredTx>, n: nat): seq<MonthPoint>
    requires n <= 12
  {
    if n == 0 then []
    else
      TrendUpTo(txs, n - 1) +
      (if MonthTotal(txs, n - 1) != 0.0 then [MonthPoint(n - 1, MonthTotal(txs, n - 1))] else [])
  }

  /** The trend is in calendar order without repeats, and every point
      carries its month's non-zero sum. */
  lemma {:induction false} TrendOrdered(txs: seq<StoredTx>, n: nat)
    requires n <= 12
    ensures forall k :: 0 <= k < |TrendUpTo(txs, n)| ==> TrendUpTo(txs, n)[k].month < n
    ensures forall k, l :: 0 <= k < l < |TrendUpTo(txs, n)| ==>
      TrendUpTo(txs, n)[k].month < TrendUpTo(txs, n)[l].month
    ensures forall k :: 0 <= k < |TrendUpTo(txs, n)| ==>
      TrendUpTo(txs, n)[k].spending == MonthTotal(txs, TrendUpTo(txs, n)[k].month) &&
      TrendUpTo(txs, n)[k].spending != 0.0
  {
    if n > 0 {
      TrendOrdered(txs, n - 1);
      var prev := TrendUpTo(txs, n - 1);
      var t := TrendUpTo(txs, n);
      assert forall k :: 0 <= k < |prev| ==> t[k] == prev[k];
    }
  }

  /** Every month before `n` with a non-zero sum is on the trend. */
  lemma {:induction false} TrendComplete(txs: seq<StoredTx>, n: nat)
    requires n <= 12
    ensures forall m :: 0 <= m < n && MonthTotal(txs, m) != 0.0 ==>
      exists k :: 0 <= k < |TrendUpTo(txs, n)| && TrendUpTo(txs, n)[k].month == m
  {
    if n > 0 {
      TrendComplete(txs, n - 1);
      var prev := TrendUpTo(txs, n - 1);
      var t := TrendUpTo(txs, n);
      assert t[..|prev|] == prev;
      forall m | 0 <= m < n && MonthTotal(txs, m) != 0.0
        ensures exists k :: 0 <= k < |TrendUpTo(txs, n)| && TrendUpTo(txs, n)[k].month == m
      {
        if m < n - 1 {
          var k :| 0 <= k < |prev| && prev[k].month == m;
          assert t[k] == prev[k];
        } else {
          assert t[|t| - 1].month == m;
        }
      }
      assert forall m :: 0 <= m < n && MonthTotal(txs, m) != 0.0 ==>
        exists k :: 0 <= k < |TrendUpTo(txs, n)| && TrendUpTo(txs, n)[k].month == m;
    }
  }

  /** The monthly trend: one pass summing into `monthMap`, then the twelve
      months in calendar order, keeping those with a truthy sum. */
  method MonthlyTrend(txs: seq<StoredTx>) returns (trend: seq<MonthPoint>)
    ensures trend == TrendUpTo(txs, 12)
  {
    var monthMap: map<int, real> := map[];
    var i := 0;
    while i < |txs|
      invariant 0 <= i <= |txs|
      invariant forall m :: m in monthMap ==> monthMap[m] == MonthTotal(txs[..i], m)
      invariant forall m :: m !in monthMap ==> MonthTotal(txs[..i], m) == 0.0
    {
      var tx := txs[i];
      assert txs[..i + 1][..i] == txs[..i];
      assert txs[..i + 1][i] == tx;
      if tx.createdMonth.Some? {
        var month := tx.createdMonth.value;
        var sum := if month in monthMap then monthMap[month] else 0.0;
        monthMap := monthMap[month := OrZero(Finite(sum)) + OrZero(tx.amount)];
      }
      i := i + 1;
    }
    assert txs[..i] == txs;

    trend := [];
    var m := 0;
    while m < 12
      invariant 0 <= m <= 12
      invariant trend == TrendUpTo(txs, m)
    {
      if m in monthMap && monthMap[m] != 0.0 {
        trend := trend + [MonthPoint(m, monthMap[m])];
      }
      m := m + 1;
    }
  }
}
