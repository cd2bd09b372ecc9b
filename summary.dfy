/** The summary screen's `totals` view (income, expense, what is left and the
    expense breakdown by category) and the pie chart entries built from it. */
module Summary {
  import opened Values
  import opened JsObject
  import Home

  /** `e.category || "Other"` */
  function CategoryOf(t: Tx): (c: string)
    ensures c != ""
    ensures t.category.None? || t.category == Some("") ==> c == "Other"
    ensures t.category.Some? && t.category.value != "" ==> c == t.category.value
  {
    if t.category.Some? && t.category.value != "" then t.category.value else "Other"
  }

  /** `(byCategory[c] || 0)`: the running total, zero before the first record. */
  function TotalSoFar(d: Dict<real>, c: string): real
  {
    if c in d.values then d.values[c] else 0.0
  }

  /** The `forEach` over the expense records, as a fold from the left. */
  function Breakdown(expenses: seq<Tx>): Dict<real>
  {
    if expenses == [] then Empty()
    else
      var d := Breakdown(expenses[..|expenses| - 1]);
      var e := expenses[|expenses| - 1];
      Put(d, CategoryOf(e), TotalSoFar(d, CategoryOf(e)) + AmountOf(e))
  }

  /** `byCategory` as the summary screen computes it: only expense records are folded. */
  function ByCategory(ts: seq<Tx>): Dict<real>
  {
    Breakdown(Home.OfKind(ts, Home.Expense))
  }

  lemma {:induction false} BreakdownWellFormed(expenses: seq<Tx>)
    ensures WellFormed(Breakdown(expenses))
  {
    if expenses != [] {
      var d := Breakdown(expenses[..|expenses| - 1]);
      var e := expenses[|expenses| - 1];
      BreakdownWellFormed(expenses[..|expenses| - 1]);
      PutWellFormed(d, CategoryOf(e), TotalSoFar(d, CategoryOf(e)) + AmountOf(e));
    }
  }

  /** Reference definition in one pass: what was spent under category `c`. */
  function CategorySpend(ts: seq<Tx>, c: string): real
  {
    if ts == [] then 0.0
    else
      var t := ts[|ts| - 1];
      CategorySpend(ts[..|ts| - 1], c) + (if t.kind == Home.Expense && CategoryOf(t) == c then AmountOf(t) else 0.0)
  }

  function Identity(x: real): real { x }

  /** The sum of a breakdown's totals, taken over its keys. */
  function CategorySum(d: Dict<real>): real
  {
    SumBy(d.keys, d.values, Identity)
  }

  /** One more step of the fold. */
  lemma BreakdownAppend(expenses: seq<Tx>, e: Tx)
    ensures Breakdown(expenses + [e])
            == Put(Breakdown(expenses), CategoryOf(e), TotalSoFar(Breakdown(expenses), CategoryOf(e)) + AmountOf(e))
  {
    assert (expenses + [e])[..|expenses|] == expenses;
  }

  /** `ByCategoryAppend` for an expense record. */
  lemma ExpenseAppend(ts: seq<Tx>, t: Tx)
    requires t.kind == Home.Expense
    ensures ByCategory(ts + [t]) == Put(ByCategory(ts), CategoryOf(t), TotalSoFar(ByCategory(ts), CategoryOf(t)) + AmountOf(t))
  {
    var before := Home.OfKind(ts, Home.Expense);
    Home.OfKindAppend(ts, t, Home.Expense);
    BreakdownAppend(before, t);
  }

  /** `ByCategoryAppend` for a record that is not an expense. */
  lemma OtherAppend(ts: seq<Tx>, t: Tx)
    requires t.kind != Home.Expense
    ensures ByCategory(ts + [t]) == ByCategory(ts)
  {
    var before := Home.OfKind(ts, Home.Expense);
    Home.OfKindAppend(ts, t, Home.Expense);
    assert before + [] == before;
  }

  /** Appending an expense adds its amount to its category's total, opening
      the category at the end of the key order if it is new; appending any
      other record leaves the breakdown as it was. */
  lemma ByCategoryAppend(ts: seq<Tx>, t: Tx)
    ensures t.kind == Home.Expense ==>
      ByCategory(ts + [t]) == Put(ByCategory(ts), CategoryOf(t), TotalSoFar(ByCategory(ts), CategoryOf(t)) + AmountOf(t))
    ensures t.kind != Home.Expense ==> ByCategory(ts + [t]) == ByCategory(ts)
  {
    if t.kind == Home.Expense {
      ExpenseAppend(ts, t);
    } else {
      OtherAppend(ts, t);
    }
  }

  /** The defaulted categories of the expense records grow by the appended
      record's category when it is an expense, and not otherwise. */
  lemma ExpenseCategoriesAppend(init: seq<Tx>, last: Tx)
    ensures (set t | t in init + [last] && t.kind == Home.Expense :: CategoryOf(t))
            == (set t | t in init && t.kind == Home.Expense :: CategoryOf(t))
               + (if last.kind == Home.Expense then {CategoryOf(last)} else {})
  {
    var ts := init + [last];
    var cats := set t | t in ts && t.kind == Home.Expense :: CategoryOf(t);
    var before := set t | t in init && t.kind == Home.Expense :: CategoryOf(t);
    var added := if last.kind == Home.Expense then {CategoryOf(last)} else {};
    forall c | c in cats
      ensures c in before + added
    {
      var t :| t in ts && t.kind == Home.Expense && CategoryOf(t) == c;
      if t != last {
        assert t in init;
      }
    }
    forall c | c in before + added
      ensures c in cats
    {
      if c in before {
        var t :| t in init && t.kind == Home.Expense && CategoryOf(t) == c;
        assert t in ts;
      } else {
        assert last in ts;
      }
    }
  }

  /** The categories listed are exactly the defaulted categories of the expense records. */
  lemma {:induction false} ByCategoryKeys(ts: seq<Tx>)
    ensures ByCategory(ts).values.Keys == set t | t in ts && t.kind == Home.Expense :: CategoryOf(t)
  {
    if ts != [] {
      var init, last := ts[..|ts| - 1], ts[|ts| - 1];
      assert ts == init + [last];
      ByCategoryKeys(init);
      ByCategoryAppend(init, last);
      ExpenseCategoriesAppend(init, last);
    }
  }

  /** Each category's total is what was spent under it; a category that is
      not listed had nothing spent under it. */
  lemma {:induction false} ByCategoryValues(ts: seq<Tx>, c: string)
    ensures c in ByCategory(ts).values ==> ByCategory(ts).values[c] == CategorySpend(ts, c)
    ensures c !in ByCategory(ts).values ==> CategorySpend(ts, c) == 0.0
  {
    if ts != [] {
      var init, last := ts[..|ts| - 1], ts[|ts| - 1];
      assert ts == init + [last];
      ByCategoryValues(init, c);
      ByCategoryAppend(init, last);
    }
  }

  /** Appending an expense raises the sum of the category totals by its
      amount; appending any other record leaves it as it was. */
  lemma CategorySumAppend(init: seq<Tx>, last: Tx)
    ensures CategorySum(ByCategory(init + [last]))
            == CategorySum(ByCategory(init)) + (if last.kind == Home.Expense then AmountOf(last) else 0.0)
  {
    var before, after := ByCategory(init), ByCategory(init + [last]);
    ByCategoryAppend(init, last);
    if last.kind == Home.Expense {
      var c := CategoryOf(last);
      var v := TotalSoFar(before, c) + AmountOf(last);
      assert after == Put(before, c, v);
      BreakdownWellFormed(Home.OfKind(init, Home.Expense));
      SumByPut(before, c, v, Identity);
      assert MeasureAt(before.values, c, Identity) == TotalSoFar(before, c);
    } else {
      assert after == before;
    }
  }

  /** `CategorySumAppend` for a non-empty ledger and its last record. */
  lemma CategorySumStep(ts: seq<Tx>)
    requires ts != []
    ensures CategorySum(ByCategory(ts))
            == CategorySum(ByCategory(ts[..|ts| - 1]))
               + (if ts[|ts| - 1].kind == Home.Expense then AmountOf(ts[|ts| - 1]) else 0.0)
  {
    assert ts == ts[..|ts| - 1] + [ts[|ts| - 1]];
    CategorySumAppend(ts[..|ts| - 1], ts[|ts| - 1]);
  }

  /** The category totals add up to the expense total. */
  lemma {:induction false} ByCategorySumsToExpense(ts: seq<Tx>)
    ensures CategorySum(ByCategory(ts)) == Home.KindTotal(ts, Home.Expense)
  {
    if ts != [] {
      ByCategorySumsToExpense(ts[..|ts| - 1]);
      CategorySumStep(ts);
    }
  }

  datatype SummaryTotals = SummaryTotals(income: real, expense: real, left: real, byCategory: Dict<real>)

  /** The `forEach` that fills `byCategory` in place. */
  method FoldByCategory(expenses: seq<Tx>) returns (byCategory: Dict<real>)
    ensures byCategory == Breakdown(expenses)
    ensures WellFormed(byCategory)
  {
    byCategory := Empty();
    var i := 0;
    while i < |expenses|
      invariant 0 <= i <= |expenses|
      invariant byCategory == Breakdown(expenses[..i])
    {
      var e := expenses[i];
      var c := CategoryOf(e);
      assert expenses[..i + 1][..i] == expenses[..i];
      byCategory := Put(byCategory, c, TotalSoFar(byCategory, c) + AmountOf(e));
      i := i + 1;
    }
    assert expenses[..i] == expenses;
    BreakdownWellFormed(expenses);
  }

  /** The `totals` memo of the summary screen. */
  method ComputeSummary(ts: seq<Tx>) returns (r: SummaryTotals)
    ensures r.income == Home.HomeTotals(ts).income && r.expense == Home.HomeTotals(ts).expense
    ensures r.left == r.income - r.expense
    ensures r.byCategory == ByCategory(ts)
    ensures CategorySum(r.byCategory) == r.expense
  {
    var income := Home.SumAmounts(Home.OfKind(ts, Home.Income));
    var expense := Home.SumAmounts(Home.OfKind(ts, Home.Expense));
    var byCategory := FoldByCategory(Home.OfKind(ts, Home.Expense));
    Home.FilterThenSum(ts, Home.Income);
    Home.FilterThenSum(ts, Home.Expense);
    ByCategorySumsToExpense(ts);
    r := SummaryTotals(income, expense, income - expense, byCategory);
  }

  datatype PieEntry = PieEntry(name: string, amount: real, color: string)

  const Palette: seq<string> := ["#FF6F61", "#6A4E9C", "#FFD700", "#4ECDC4", "#36A2EB"]

  /** `Object.keys(byCategory).map((k, i) => ...)`: one entry per category, in
      key order, coloured by cycling through the palette. */
  function PieData(byCategory: Dict<real>): (r: seq<PieEntry>)
    requires WellFormed(byCategory)
    ensures |r| == |byCategory.keys|
    // entry `i` is the `i`-th key of `Object.keys`
    ensures forall i :: 0 <= i < |r| ==> r[i].name == byCategory.keys[i]
    ensures forall i :: 0 <= i < |r| ==>
      r[i].name in byCategory.values && r[i].amount == byCategory.values[r[i].name]
    ensures forall i :: 0 <= i < |r| ==> r[i].color == Palette[i % 5]
    ensures forall i, j :: 0 <= i < j < |r| ==> r[i].name != r[j].name
    ensures forall k :: k in byCategory.values ==> exists i :: 0 <= i < |r| && r[i].name == k
  {
    var keys := byCategory.keys;
    var r := seq(|keys|, i requires 0 <= i < |keys| => PieEntry(keys[i], byCategory.values[keys[i]], Palette[i % |Palette|]));
    assert forall i :: 0 <= i < |r| ==> r[i] == PieEntry(keys[i], byCategory.values[keys[i]], Palette[i % 5]);
    DistinctPositions(keys);
    assert forall k :: k in byCategory.values ==> k in keys;
    r
  }

  function PieTotal(entries: seq<PieEntry>): real
  {
    if entries == [] then 0.0 else PieTotal(entries[..|entries| - 1]) + entries[|entries| - 1].amount
  }

  /** Entries whose amounts follow the keys in order total the sum over the keys. */
  lemma {:induction false} PiePrefixTotal(d: Dict<real>, entries: seq<PieEntry>, n: nat)
    requires |entries| == |d.keys| && n <= |d.keys|
    requires forall i :: 0 <= i < |entries| ==> entries[i].amount == MeasureAt(d.values, d.keys[i], Identity)
    ensures PieTotal(entries[..n]) == SumBy(d.keys[..n], d.values, Identity)
  {
    if n > 0 {
      PiePrefixTotal(d, entries, n - 1);
      assert entries[..n][..n - 1] == entries[..n - 1];
      assert d.keys[..n][..n - 1] == d.keys[..n - 1];
    }
  }

  /** The pie entries of a breakdown total its category sum. */
  lemma PieTotalIsCategorySum(d: Dict<real>)
    requires WellFormed(d)
    ensures PieTotal(PieData(d)) == CategorySum(d)
  {
    var entries := PieData(d);
    assert forall i :: 0 <= i < |entries| ==> entries[i].amount == MeasureAt(d.values, d.keys[i], Identity);
    PiePrefixTotal(d, entries, |d.keys|);
    assert entries[..|d.keys|] == entries;
    assert d.keys[..|d.keys|] == d.keys;
  }

  /** The slices of the pie add up to the expense total. */
  lemma PieSumsToExpense(ts: seq<Tx>)
    ensures WellFormed(ByCategory(ts))
    ensures PieTotal(PieData(ByCategory(ts))) == Home.KindTotal(ts, Home.Expense)
  {
    BreakdownWellFormed(Home.OfKind(ts, Home.Expense));
    PieTotalIsCategorySum(ByCategory(ts));
    ByCategorySumsToExpense(ts);
  }

  /** Three expenses, Food 30, Food 20 and Fuel 10, give Food 50 then Fuel 10. */
  lemma BreakdownExample(a: Tx, b: Tx, c: Tx)
    requires a.kind == Home.Expense && a.category == Some("Food") && a.amount == Some(30.0)
    requires b.kind == Home.Expense && b.category == Some("Food") && b.amount == Some(20.0)
    requires c.kind == Home.Expense && c.category == Some("Fuel") && c.amount == Some(10.0)
    ensures ByCategory([a, b, c]).keys == ["Food", "Fuel"]
    ensures ByCategory([a, b, c]).values == map["Food" := 50.0, "Fuel" := 10.0]
  {
    var one, two, three := [a], [a, b], [a, b, c];
    assert one == [] + [a];
    assert two == one + [b];
    assert three == two + [c];
    assert ByCategory([]) == Empty();
    ByCategoryAppend([], a);
    assert ByCategory(one) == Dict(["Food"], map["Food" := 30.0]);
    ByCategoryAppend(one, b);
    assert ByCategory(two) == Dict(["Food"], map["Food" := 50.0]);
    ByCategoryAppend(two, c);
    assert ["Food"] + ["Fuel"] == ["Food", "Fuel"];
  }
}
