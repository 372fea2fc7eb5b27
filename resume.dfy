/** The monthly resume: the selected month's expenses broken down by category,
    in catalog order, each with its whole-number share of the month's total;
    and the month selector that moves the selection. */
module Resume {
  import opened Ledger

  /** One entry of the fixed category catalog. */
  datatype Category = Category(key: string, name: string, color: string)

  /** One slice of the resume. `total` is in cents and `percent` is the whole
      number shown before "%"; the currency text is left to the formatter. */
  datatype CategoryTotal = CategoryTotal(key: string, name: string, total: int, color: string, percent: int)

  // ---------------------------------------------------------------------------
  // Selecting the month's expenses

  /** The filter in `loadData`: an expense whose date lies in the selected
      month of the selected year. */
  predicate IsSelectedExpense(t: Transaction, selected: Date)
  {
    t.kind == NEGATIVE && t.date.month == selected.month && t.date.year == selected.year
  }

  /** `expensives`: the selected month's expenses, in stored order. */
  function SelectExpenses(txs: seq<Transaction>, selected: Date): (e: seq<Transaction>)
    ensures forall t :: t in e <==> t in txs && IsSelectedExpense(t, selected)
    ensures |e| <= |txs|
  {
    if txs == [] then []
    else (if IsSelectedExpense(txs[0], selected) then [txs[0]] else []) + SelectExpenses(txs[1..], selected)
  }

  lemma {:induction false} SelectExpensesAppend(txs: seq<Transaction>, t: Transaction, selected: Date)
    ensures SelectExpenses(txs + [t], selected)
      == SelectExpenses(txs, selected) + (if IsSelectedExpense(t, selected) then [t] else [])
  {
    if txs != [] {
      assert (txs + [t])[1..] == txs[1..] + [t];
      SelectExpensesAppend(txs[1..], t, selected);
    }
  }

  // ---------------------------------------------------------------------------
  // Per-category sums

  /** Sum of the amounts of the expenses filed under `key`. */
  function CategorySum(e: seq<Transaction>, key: string): int
  {
    if e == [] then 0
    else (if e[0].category == key then e[0].amount else 0) + CategorySum(e[1..], key)
  }

  lemma {:induction false} CategorySumAppend(e: seq<Transaction>, t: Transaction, key: string)
    ensures CategorySum(e + [t], key) == CategorySum(e, key) + (if t.category == key then t.amount else 0)
  {
    if e != [] {
      assert (e + [t])[1..] == e[1..] + [t];
      CategorySumAppend(e[1..], t, key);
    }
  }

  /** A category's sum lies between 0 and the total of all the expenses, and it
      is positive exactly when some expense is filed under that category. */
  lemma {:induction false} CategorySumBounds(e: seq<Transaction>, key: string)
    ensures 0 <= CategorySum(e, key) <= Sum(e)
    ensures CategorySum(e, key) > 0 <==> exists t :: t in e && t.category == key
  {
    if e != [] {
      CategorySumBounds(e[1..], key);
      assert forall t :: t in e <==> t == e[0] || t in e[1..];
    }
  }

  // ---------------------------------------------------------------------------
  // Percentages

  /** `(part / whole * 100).toFixed(0)` on exact values: the percentage rounded
      to the nearest whole number, halves rounded up. */
  function Percent(part: int, whole: int): (p: int)
    requires whole > 0
    ensures 2 * whole * p <= 200 * part + whole < 2 * whole * (p + 1)
    ensures 0 < part <= whole ==> 0 <= p <= 100
  {
    var p := (200 * part + whole) / (2 * whole);
    QuotientBounds(200 * part + whole, 2 * whole);
    RoundedShareBounds(part, whole, p);
    p
  }

  lemma QuotientBounds(n: int, d: int)
    requires d > 0
    ensures d * (n / d) <= n < d * (n / d + 1)
  {
  }

  /** A share of at most the whole, rounded, is a percentage between 0 and 100. */
  lemma RoundedShareBounds(part: int, whole: int, p: int)
    requires whole > 0
    requires 2 * whole * p <= 200 * part + whole < 2 * whole * (p + 1)
    ensures 0 < part <= whole ==> 0 <= p <= 100
  {
  }

  // ---------------------------------------------------------------------------
  // The resume

  /** The slice one catalog entry contributes: none when nothing was spent on
      it, otherwise its sum and its share of the month's total. */
  function EntryFor(e: seq<Transaction>, c: Category): seq<CategoryTotal>
  {
    var categorySum := CategorySum(e, c.key);
    if categorySum > 0 then
      CategorySumBounds(e, c.key);
      [CategoryTotal(c.key, c.name, categorySum, c.color, Percent(categorySum, Sum(e)))]
    else []
  }

  /** The resume for the month's expenses `e`, walking the catalog in order. */
  function ResumeOf(e: seq<Transaction>, catalog: seq<Category>): seq<CategoryTotal>
  {
    if catalog == [] then []
    else ResumeOf(e, catalog[..|catalog| - 1]) + EntryFor(e, catalog[|catalog| - 1])
  }

  /** `loadData`: filter the user's records to the selected month's expenses,
      total them, then for each catalog entry in order sum its expenses and
      push a slice when that sum is positive. A division happens only for a
      positive category sum, which bounds the month's total from below, so the
      divisor is never zero. */
  method LoadData(store: Store, userId: string, selected: Date, catalog: seq<Category>)
    returns (totalByCategory: seq<CategoryTotal>)
    ensures totalByCategory == ResumeOf(SelectExpenses(Load(store, userId), selected), catalog)
  {
    var responseFormatted := Load(store, userId);
    var expensives := SelectExpenses(responseFormatted, selected);
    var expensivesTotal := Sum(expensives);
    totalByCategory := [];
    for c := 0 to |catalog|
      invariant totalByCategory == ResumeOf(expensives, catalog[..c])
    {
      var category := catalog[c];
      var categorySum := 0;
      for k := 0 to |expensives|
        invariant categorySum == CategorySum(expensives[..k], category.key)
      {
        if expensives[k].category == category.key {
          categorySum := categorySum + expensives[k].amount;
        }
        assert expensives[..k + 1] == expensives[..k] + [expensives[k]];
        CategorySumAppend(expensives[..k], expensives[k], category.key);
      }
      assert expensives[..|expensives|] == expensives;
      if categorySum > 0 {
        CategorySumBounds(expensives, category.key);
        var percent := Percent(categorySum, expensivesTotal);
        totalByCategory := totalByCategory
          + [CategoryTotal(category.key, category.name, categorySum, category.color, percent)];
      }
      assert catalog[..c + 1][..c] == catalog[..c];
    }
    assert catalog[..|catalog|] == catalog;
  }

  // ---------------------------------------------------------------------------
  // Properties of the resume

  /** The catalog positions the resume's slices come from, in order. */
  ghost function Emitted(e: seq<Transaction>, catalog: seq<Category>): seq<int>
  {
    if catalog == [] then []
    else
      Emitted(e, catalog[..|catalog| - 1])
        + (if CategorySum(e, catalog[|catalog| - 1].key) > 0 then [|catalog| - 1] else [])
  }

  /** The resume follows catalog order with at most one slice per catalog entry:
      slice i comes from catalog position Emitted[i], the positions strictly
      increase, each slice copies key, name and colour from its entry, and a
      catalog entry gets a slice exactly when its category sum is positive. */
  lemma {:induction false} ResumeFollowsCatalog(e: seq<Transaction>, catalog: seq<Category>)
    ensures var r, idx := ResumeOf(e, catalog), Emitted(e, catalog);
      && |idx| == |r| <= |catalog|
      && (forall i, k :: 0 <= i < k < |idx| ==> idx[i] < idx[k])
      && (forall i :: 0 <= i < |idx| ==>
            0 <= idx[i] < |catalog|
            && r[i].key == catalog[idx[i]].key
            && r[i].name == catalog[idx[i]].name
            && r[i].color == catalog[idx[i]].color)
      && (forall j :: 0 <= j < |catalog| ==> (j in idx <==> CategorySum(e, catalog[j].key) > 0))
  {
    if catalog != [] {
      var n := |catalog| - 1;
      var init := catalog[..n];
      ResumeFollowsCatalog(e, init);
      assert forall j :: 0 <= j < n ==> catalog[j] == init[j];
    }
  }

  /** Every slice has a positive total equal to its category's sum, and its
      percentage is that total's rounded share of the month's total, between 0
      and 100. */
  lemma {:induction false} ResumeTotals(e: seq<Transaction>, catalog: seq<Category>)
    ensures forall x :: x in ResumeOf(e, catalog) ==>
      && 0 < x.total == CategorySum(e, x.key) <= Sum(e)
      && x.percent == Percent(x.total, Sum(e))
      && 0 <= x.percent <= 100
  {
    if catalog != [] {
      var n := |catalog| - 1;
      ResumeTotals(e, catalog[..n]);
      CategorySumBounds(e, catalog[n].key);
    }
  }

  /** A month without expenses yields an empty resume, whatever the catalog. */
  lemma {:induction false} NoExpensesNoResume(txs: seq<Transaction>, selected: Date, catalog: seq<Category>)
    requires forall t :: t in txs ==> !IsSelectedExpense(t, selected)
    ensures ResumeOf(SelectExpenses(txs, selected), catalog) == []
  {
    if catalog != [] {
      NoExpensesNoResume(txs, selected, catalog[..|catalog| - 1]);
      CategorySumBounds(SelectExpenses(txs, selected), catalog[|catalog| - 1].key);
    }
  }

  /** Two expenses of 30 and 10 filed under "food" and one of 20 under
      "transport" in the selected month: 40 is 67% and 20 is 33% of 60, each
      rounded on its own. */
  lemma SplitExample()
    ensures var d := Date(2024, 1, 10);
      var e := [
        Transaction("a", "market", 3000, NEGATIVE, "food", d),
        Transaction("b", "bakery", 1000, NEGATIVE, "food", d),
        Transaction("c", "bus", 2000, NEGATIVE, "transport", d)];
      var catalog := [Category("food", "Alimentação", "#FF872C"), Category("transport", "Transporte", "#5636D3")];
      ResumeOf(e, catalog) == [
        CategoryTotal("food", "Alimentação", 4000, "#FF872C", 67),
        CategoryTotal("transport", "Transporte", 2000, "#5636D3", 33)]
  {
    var d := Date(2024, 1, 10);
    var e := [
      Transaction("a", "market", 3000, NEGATIVE, "food", d),
      Transaction("b", "bakery", 1000, NEGATIVE, "food", d),
      Transaction("c", "bus", 2000, NEGATIVE, "transport", d)];
    var food, transport := Category("food", "Alimentação", "#FF872C"), Category("transport", "Transporte", "#5636D3");
    var e1 := e[1..];
    var e2 := e1[1..];
    assert e2[1..] == [];
    assert "food" != "transport";
    assert Sum(e2) == 2000 && CategorySum(e2, "food") == 0 && CategorySum(e2, "transport") == 2000;
    assert Sum(e1) == 3000 && CategorySum(e1, "food") == 1000 && CategorySum(e1, "transport") == 2000;
    assert Sum(e) == 6000 && CategorySum(e, "food") == 4000 && CategorySum(e, "transport") == 2000;
    assert Percent(4000, 6000) == 67;
    assert Percent(2000, 6000) == 33;
    assert EntryFor(e, food) == [CategoryTotal("food", "Alimentação", 4000, "#FF872C", 67)];
    assert EntryFor(e, transport) == [CategoryTotal("transport", "Transporte", 2000, "#5636D3", 33)];
    assert [food][..0] == [];
    assert ResumeOf(e, [food]) == EntryFor(e, food);
    assert [food, transport][..1] == [food];
    assert ResumeOf(e, [food, transport]) == EntryFor(e, food) + EntryFor(e, transport);
  }

  // ---------------------------------------------------------------------------
  // The slices' totals against the month's total

  predicate DistinctKeys(catalog: seq<Category>)
  {
    forall i, j :: 0 <= i < j < |catalog| ==> catalog[i].key != catalog[j].key
  }

  function Keys(catalog: seq<Category>): set<string>
  {
    set c | c in catalog :: c.key
  }

  /** Sum of the slices' totals. */
  function SliceSum(r: seq<CategoryTotal>): int
  {
    if r == [] then 0 else SliceSum(r[..|r| - 1]) + r[|r| - 1].total
  }

  /** Sum of the expenses filed under one of `keys`. */
  function KeyedSum(e: seq<Transaction>, keys: set<string>): int
  {
    if e == [] then 0
    else (if e[0].category in keys then e[0].amount else 0) + KeyedSum(e[1..], keys)
  }

  lemma {:induction false} KeyedSumAdd(e: seq<Transaction>, keys: set<string>, k: string)
    requires k !in keys
    ensures KeyedSum(e, keys + {k}) == KeyedSum(e, keys) + CategorySum(e, k)
  {
    if e != [] {
      KeyedSumAdd(e[1..], keys, k);
    }
  }

  lemma {:induction false} KeyedSumBounds(e: seq<Transaction>, keys: set<string>)
    ensures KeyedSum(e, keys) <= Sum(e)
    ensures (forall t :: t in e ==> t.category in keys) ==> KeyedSum(e, keys) == Sum(e)
  {
    if e != [] {
      KeyedSumBounds(e[1..], keys);
      assert forall t :: t in e[1..] ==> t in e;
    }
  }

  lemma {:induction false} SliceSumIsKeyedSum(e: seq<Transaction>, catalog: seq<Category>)
    requires DistinctKeys(catalog)
    ensures SliceSum(ResumeOf(e, catalog)) == KeyedSum(e, Keys(catalog))
  {
    if catalog == [] {
      assert Keys(catalog) == {};
      KeyedSumEmpty(e);
    } else {
      var n := |catalog| - 1;
      var init, last := catalog[..n], catalog[n];
      KeysSnoc(catalog);
      SliceSumIsKeyedSum(e, init);
      KeyedSumAdd(e, Keys(init), last.key);
      CategorySumBounds(e, last.key);
      SliceSumSnoc(ResumeOf(e, init), EntryFor(e, last));
    }
  }

  /** The last entry of a catalog of distinct keys adds a key not seen before. */
  lemma KeysSnoc(catalog: seq<Category>)
    requires DistinctKeys(catalog) && catalog != []
    ensures var init, last := catalog[..|catalog| - 1], catalog[|catalog| - 1];
      DistinctKeys(init) && last.key !in Keys(init) && Keys(catalog) == Keys(init) + {last.key}
  {
  }

  lemma SliceSumSnoc(prefix: seq<CategoryTotal>, slice: seq<CategoryTotal>)
    requires |slice| <= 1
    ensures SliceSum(prefix + slice) == SliceSum(prefix) + (if slice == [] then 0 else slice[0].total)
  {
    if slice != [] {
      assert (prefix + slice)[..|prefix + slice| - 1] == prefix;
    } else {
      assert prefix + slice == prefix;
    }
  }

  lemma {:induction false} KeyedSumEmpty(e: seq<Transaction>)
    ensures KeyedSum(e, {}) == 0
  {
    if e != [] {
      KeyedSumEmpty(e[1..]);
    }
  }

  /** With a catalog of distinct keys the slices never add up to more than the
      month's total, and add up to exactly that total when every expense is
      filed under a catalog category. */
  lemma SlicesAddUpToTotal(e: seq<Transaction>, catalog: seq<Category>)
    requires DistinctKeys(catalog)
    ensures SliceSum(ResumeOf(e, catalog)) <= Sum(e)
    ensures (forall t :: t in e ==> t.category in Keys(catalog)) ==> SliceSum(ResumeOf(e, catalog)) == Sum(e)
  {
    SliceSumIsKeyedSum(e, catalog);
    KeyedSumBounds(e, Keys(catalog));
  }

  // ---------------------------------------------------------------------------
  // Month navigation

  /** The selector's two buttons. */
  datatype Action = Next | Prev

  predicate IsLeapYear(year: int)
  {
    year % 4 == 0 && (year % 100 != 0 || year % 400 == 0)
  }

  function DaysInMonth(year: int, month: int): (n: int)
    requires 1 <= month <= 12
    ensures 28 <= n <= 31
  {
    if month == 2 then (if IsLeapYear(year) then 29 else 28)
    else if month == 4 || month == 6 || month == 9 || month == 11 then 30
    else 31
  }

  predicate ValidDate(d: Date)
  {
    1 <= d.month <= 12 && 1 <= d.day <= DaysInMonth(d.year, d.month)
  }

  /** Months elapsed since January of year 0. */
  function MonthIndex(d: Date): int
  {
    d.year * 12 + (d.month - 1)
  }

  /** `handleChangeDate`: `addMonths(state, 1)` for "next", `subMonths(state, 1)`
      for "prev". The day of the month is kept, or clamped to the last day of
      the new month when that month is shorter. */
  function ShiftMonth(d: Date, action: Action): (r: Date)
    requires ValidDate(d)
    ensures ValidDate(r)
    ensures MonthIndex(r) == MonthIndex(d) + (if action == Next then 1 else -1)
    ensures r.day == if d.day <= DaysInMonth(r.year, r.month) then d.day else DaysInMonth(r.year, r.month)
  {
    var year, month :=
      if action == Next then (if d.month == 12 then d.year + 1 else d.year)
      else (if d.month == 1 then d.year - 1 else d.year),
      if action == Next then (if d.month == 12 then 1 else d.month + 1)
      else (if d.month == 1 then 12 else d.month - 1);
    var last := DaysInMonth(year, month);
    Date(year, month, if d.day <= last then d.day else last)
  }

  /** "next" then "prev" (and "prev" then "next") returns to the same month of
      the same year; the day can only have been clamped down. */
  lemma ShiftRoundTrip(d: Date, first: Action)
    requires ValidDate(d)
    ensures var there := ShiftMonth(d, first);
      var back := ShiftMonth(there, if first == Next then Prev else Next);
      back.year == d.year && back.month == d.month && back.day <= d.day
  {
  }

  /** The day is clamped on the way out and stays clamped on the way back:
      31 January 2024 moves to 29 February 2024 and back to 29 January 2024. */
  lemma ClampingRoundTrip()
    ensures ShiftMonth(Date(2024, 1, 31), Next) == Date(2024, 2, 29)
    ensures ShiftMonth(Date(2024, 2, 29), Prev) == Date(2024, 1, 29)
  {
  }

  /** Moving the selection one month never keeps an expense selected: the
      filter is exact on month and year. */
  lemma ShiftLeavesMonth(t: Transaction, d: Date, action: Action)
    requires ValidDate(d)
    requires IsSelectedExpense(t, d)
    ensures !IsSelectedExpense(t, ShiftMonth(d, action))
  {
  }
}
