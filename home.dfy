/** The home screen's `totals` view: income, expense, balance, the usage
    ratio shown by the progress bar, and the last transaction. */
module Home {
  import opened Values

  const Income: string := "income"
  const Expense: string := "expense"

  /** `ts.filter((t) => t.type === kind)` */
  function OfKind(ts: seq<Tx>, kind: string): (r: seq<Tx>)
    ensures |r| <= |ts|
  {
    if ts == [] then []
    else
      var last := ts[|ts| - 1];
      OfKind(ts[..|ts| - 1], kind) + (if last.kind == kind then [last] else [])
  }

  lemma OfKindAppend(ts: seq<Tx>, t: Tx, kind: string)
    ensures OfKind(ts + [t], kind) == OfKind(ts, kind) + (if t.kind == kind then [t] else [])
  {
    assert (ts + [t])[..|ts|] == ts;
  }

  /** The filter keeps exactly the records of `kind`. */
  lemma {:induction false} OfKindSelects(ts: seq<Tx>, kind: string)
    ensures forall t :: t in OfKind(ts, kind) <==> t in ts && t.kind == kind
  {
    if ts != [] {
      var init := ts[..|ts| - 1];
      assert ts == init + [ts[|ts| - 1]];
      OfKindSelects(init, kind);
    }
  }

  /** `.reduce((s, t) => s + Number(t.amount || 0), 0)`, folding from the left. */
  function SumAmounts(ts: seq<Tx>): real
  {
    if ts == [] then 0.0 else SumAmounts(ts[..|ts| - 1]) + AmountOf(ts[|ts| - 1])
  }

  /** Reference definition in one pass: the amounts of the records of `kind`. */
  function KindTotal(ts: seq<Tx>, kind: string): real
  {
    if ts == [] then 0.0
    else KindTotal(ts[..|ts| - 1], kind) + (if ts[|ts| - 1].kind == kind then AmountOf(ts[|ts| - 1]) else 0.0)
  }

  lemma SumAmountsAppend(ts: seq<Tx>, t: Tx)
    ensures SumAmounts(ts + [t]) == SumAmounts(ts) + AmountOf(t)
  {
    assert (ts + [t])[..|ts|] == ts;
  }

  /** Filtering then summing, as the screens do, is the one-pass total. */
  lemma {:induction false} FilterThenSum(ts: seq<Tx>, kind: string)
    ensures SumAmounts(OfKind(ts, kind)) == KindTotal(ts, kind)
  {
    if ts != [] {
      var init, last := ts[..|ts| - 1], ts[|ts| - 1];
      var before := OfKind(init, kind);
      FilterThenSum(init, kind);
      if last.kind == kind {
        assert OfKind(ts, kind) == before + [last];
        SumAmountsAppend(before, last);
      } else {
        assert OfKind(ts, kind) == before;
      }
    }
  }

  lemma {:induction false} KindTotalNonNegative(ts: seq<Tx>, kind: string)
    requires forall t :: t in ts ==> AmountOf(t) >= 0.0
    ensures KindTotal(ts, kind) >= 0.0
  {
    if ts != [] {
      var init := ts[..|ts| - 1];
      assert forall t :: t in init ==> t in ts;
      assert ts[|ts| - 1] in ts;
      KindTotalNonNegative(init, kind);
    }
  }

  /** `income > 0 ? Math.min(1, expense / income) : 0` */
  function Usage(income: real, expense: real): (u: real)
    ensures u <= 1.0
    ensures income <= 0.0 ==> u == 0.0
    ensures income > 0.0 && expense <= income ==> u == expense / income
    ensures income > 0.0 && expense >= income ==> u == 1.0
    ensures income > 0.0 && expense >= 0.0 ==> u >= 0.0
  {
    if income > 0.0 then
      var ratio := expense / income;
      assert expense <= income ==> ratio <= 1.0;
      assert expense >= income ==> ratio >= 1.0;
      if ratio < 1.0 then ratio else 1.0
    else 0.0
  }

  datatype Totals = Totals(income: real, expense: real, balance: real, usage: real, last: Option<Tx>)

  /** The `totals` memo of the home screen. */
  function HomeTotals(ts: seq<Tx>): (r: Totals)
    ensures r.income == KindTotal(ts, Income) && r.expense == KindTotal(ts, Expense)
    ensures r.balance == r.income - r.expense
    ensures r.usage == Usage(r.income, r.expense)
    ensures r.usage <= 1.0
    ensures r.income <= 0.0 ==> r.usage == 0.0
    ensures r.income > 0.0 && r.expense <= r.income ==> r.usage == r.expense / r.income
    ensures r.last.None? <==> ts == []
    ensures ts != [] ==> r.last == Some(ts[|ts| - 1])
  {
    FilterThenSum(ts, Income);
    FilterThenSum(ts, Expense);
    var income := SumAmounts(OfKind(ts, Income));
    var expense := SumAmounts(OfKind(ts, Expense));
    Totals(income, expense, income - expense, Usage(income, expense),
           if |ts| > 0 then Some(ts[|ts| - 1]) else None)
  }

  /** Appending a record moves the total of its own kind by its amount, and
      no other total; a record of any other kind moves neither. */
  lemma TotalsAfterAppend(ts: seq<Tx>, t: Tx)
    ensures HomeTotals(ts + [t]).income == HomeTotals(ts).income + (if t.kind == Income then AmountOf(t) else 0.0)
    ensures HomeTotals(ts + [t]).expense == HomeTotals(ts).expense + (if t.kind == Expense then AmountOf(t) else 0.0)
    ensures t.kind != Income && t.kind != Expense ==> HomeTotals(ts + [t]) == HomeTotals(ts).(last := Some(t))
    ensures HomeTotals(ts + [t]).last == Some(t)
  {
    assert (ts + [t])[..|ts|] == ts;
  }

  /** With no negative amounts the usage ratio lies in [0, 1]. */
  lemma UsageInUnitInterval(ts: seq<Tx>)
    requires forall t :: t in ts ==> AmountOf(t) >= 0.0
    ensures 0.0 <= HomeTotals(ts).usage <= 1.0
  {
    KindTotalNonNegative(ts, Expense);
  }

  /** An empty ledger shows zero everywhere and no last transaction. */
  lemma EmptyLedgerTotals()
    ensures HomeTotals([]) == Totals(0.0, 0.0, 0.0, 0.0, None)
  {
  }

  /** One income of 100 and one expense of 40: balance 60, usage 0.4. */
  lemma TotalsExample(a: Tx, b: Tx)
    requires a.kind == Income && a.amount == Some(100.0)
    requires b.kind == Expense && b.amount == Some(40.0)
    ensures HomeTotals([a, b]) == Totals(100.0, 40.0, 60.0, 0.4, Some(b))
  {
    var one, two := [a], [a, b];
    assert one == [] + [a];
    assert two == one + [b];
    EmptyLedgerTotals();
    TotalsAfterAppend([], a);
    assert HomeTotals(one).income == 100.0 && HomeTotals(one).expense == 0.0;
    TotalsAfterAppend(one, b);
    var r := HomeTotals(two);
    assert r.income == 100.0 && r.expense == 40.0;
    assert r.usage == 40.0 / 100.0;
  }
}
