/** The monthly rows and the total of a crypto report. */
module CryptoReport {
  import opened Windows
  import opened Wrappers

  datatype ReportType = BUY | SELL | DEPOSIT | WITHDRAWAL | CASHBACK

  datatype Transaction = Transaction(createdAt: int, kind: ReportType, fiatAmount: real, profit: real, loss: real)

  /** The total has no date. */
  datatype Row = Row(createdAt: Option<int>, fiatAmountSales: real, profit: real, loss: real, profitLossPercentage: int)

  datatype Totals = Totals(sales: real, profit: real, loss: real) {
    function Add(other: Totals): Totals {
      Totals(sales + other.sales, profit + other.profit, loss + other.loss)
    }
  }

  const NONE := Totals(0.0, 0.0, 0.0)

  predicate IsTypeBeneficiary(kind: ReportType) {
    kind in [BUY, DEPOSIT, CASHBACK]
  }

  function Pow10(decimals: nat): real {
    if decimals == 0 then 1.0 else 10.0 * Pow10(decimals - 1)
  }

  function FormatValueFromFloatToInt(value: real, decimals: nat): int {
    (0.5 + value * Pow10(decimals)).Floor
  }

  /** The nearest integer to the scaled value, the upper one of two. */
  lemma RoundsHalfUp(value: real, decimals: nat, n: int)
    ensures n == FormatValueFromFloatToInt(value, decimals) <==> -0.5 < n as real - value * Pow10(decimals) <= 0.5
  {
    var x := 0.5 + value * Pow10(decimals);
    assert x.Floor as real <= x < x.Floor as real + 1.0;
    if -0.5 < n as real - value * Pow10(decimals) <= 0.5 {
      assert x - 1.0 < n as real <= x;
      assert (n as real) < x.Floor as real + 1.0 && (x.Floor as real) < n as real + 1.0;
    }
  }

  /** Hundredths of a percent. */
  function Percentage(profit: real, loss: real): int {
    if profit != 0.0 && loss != 0.0 then FormatValueFromFloatToInt(profit / loss * 100.0, 2) else 0
  }

  // ----- Grouping by month -----

  /** Only what leaves counts as a sale. */
  function Sales(t: Transaction): real {
    if IsTypeBeneficiary(t.kind) then 0.0 else t.fiatAmount
  }

  function Contribution(t: Transaction): Totals {
    Totals(Sales(t), t.profit, t.loss)
  }

  function Sum(ts: seq<Transaction>): Totals {
    if ts == [] then NONE else Sum(ts[..|ts| - 1]).Add(Contribution(ts[|ts| - 1]))
  }

  function RowOf(createdAt: Option<int>, t: Totals): Row {
    Row(createdAt, t.sales, t.profit, t.loss, Percentage(t.profit, t.loss))
  }

  ghost predicate NonEmpty(groups: seq<seq<Transaction>>) {
    forall i :: 0 <= i < |groups| ==> groups[i] != []
  }

  ghost function RowsOf(groups: seq<seq<Transaction>>): (rows: seq<Row>)
    requires NonEmpty(groups)
    ensures |rows| == |groups|
    ensures forall i :: 0 <= i < |rows| ==> rows[i] == RowOf(Some(groups[i][0].createdAt), Sum(groups[i]))
  {
    seq(|groups|, i requires 0 <= i < |groups| => RowOf(Some(groups[i][0].createdAt), Sum(groups[i])))
  }

  /** A group's month, that of its first transaction; `month` counts months since some year. */
  function MonthOf(month: int -> int, g: seq<Transaction>): int {
    if g == [] then 0 else month(g[0].createdAt)
  }

  ghost predicate OneMonth(month: int -> int, g: seq<Transaction>) {
    g != [] && forall i :: 0 <= i < |g| ==> month(g[i].createdAt) == MonthOf(month, g)
  }

  /** Every group is of one month, and its neighbours are not of the same. */
  ghost predicate Alternate(month: int -> int, groups: seq<seq<Transaction>>) {
    && (forall i :: 0 <= i < |groups| ==> OneMonth(month, groups[i]))
    && forall i :: 0 < i < |groups| ==> MonthOf(month, groups[i - 1]) != MonthOf(month, groups[i])
  }

  /** Maximal runs of one month that make up the list. */
  ghost predicate IsGrouping(month: int -> int, groups: seq<seq<Transaction>>, ts: seq<Transaction>) {
    Concat(groups) == ts && Alternate(month, groups)
  }

  /** A transaction joins the last group or begins another. */
  function Join(month: int -> int, groups: seq<seq<Transaction>>, t: Transaction): seq<seq<Transaction>> {
    if groups != [] && month(t.createdAt) == MonthOf(month, groups[|groups| - 1])
    then groups[|groups| - 1 := groups[|groups| - 1] + [t]]
    else groups + [[t]]
  }

  function Groups(month: int -> int, ts: seq<Transaction>): seq<seq<Transaction>> {
    if ts == [] then [] else Join(month, Groups(month, ts[..|ts| - 1]), ts[|ts| - 1])
  }

  lemma ConcatAppend(groups: seq<seq<Transaction>>, g: seq<Transaction>)
    ensures Concat(groups + [g]) == Concat(groups) + g
  {
    assert (groups + [g])[..|groups + [g]| - 1] == groups;
  }

  lemma JoinConcat(month: int -> int, groups: seq<seq<Transaction>>, t: Transaction)
    ensures Concat(Join(month, groups, t)) == Concat(groups) + [t]
  {
    if groups != [] && month(t.createdAt) == MonthOf(month, groups[|groups| - 1]) {
      var n := |groups| - 1;
      assert groups[n := groups[n] + [t]][..n] == groups[..n];
    } else {
      ConcatAppend(groups, [t]);
    }
  }

  lemma JoinAlternates(month: int -> int, groups: seq<seq<Transaction>>, t: Transaction)
    requires Alternate(month, groups)
    ensures Alternate(month, Join(month, groups, t))
  {
    if groups != [] && month(t.createdAt) == MonthOf(month, groups[|groups| - 1]) {
      var n := |groups| - 1;
      assert OneMonth(month, groups[n]);
      assert OneMonth(month, groups[n] + [t]) && MonthOf(month, groups[n] + [t]) == MonthOf(month, groups[n]);
    } else {
      assert OneMonth(month, [t]);
    }
  }

  lemma {:induction false} GroupsAreAGrouping(month: int -> int, ts: seq<Transaction>)
    ensures IsGrouping(month, Groups(month, ts), ts)
    ensures NonEmpty(Groups(month, ts))
  {
    if ts != [] {
      var n := |ts| - 1;
      GroupsAreAGrouping(month, ts[..n]);
      JoinConcat(month, Groups(month, ts[..n]), ts[n]);
      JoinAlternates(month, Groups(month, ts[..n]), ts[n]);
      assert ts == ts[..n] + [ts[n]];
    }
    assert forall g :: OneMonth(month, g) ==> g != [];
  }

  /** A group of several transactions without the last of them. */
  lemma ShorterGroup(month: int -> int, front: seq<seq<Transaction>>, last: seq<Transaction>)
    requires Alternate(month, front + [last]) && |last| > 1
    ensures var n := |last| - 1; var before := front + [last[..n]];
      Alternate(month, before) && Join(month, before, last[n]) == front + [last]
  {
    var n := |last| - 1;
    var groups, before := front + [last], front + [last[..n]];
    assert groups[|front|] == last && OneMonth(month, last);
    assert OneMonth(month, last[..n]) && MonthOf(month, last[..n]) == MonthOf(month, last);
    assert forall i :: 0 <= i < |front| ==> groups[i] == before[i] == front[i];
    assert last[..n] + [last[n]] == last;
    assert before[|front| := last] == groups;
  }

  /** A grouping without a group of one transaction at its end. */
  lemma OneGroupLess(month: int -> int, front: seq<seq<Transaction>>, t: Transaction)
    requires Alternate(month, front + [[t]])
    ensures Alternate(month, front) && Join(month, front, t) == front + [[t]]
  {
    var groups := front + [[t]];
    assert forall i :: 0 <= i < |front| ==> groups[i] == front[i];
    assert groups[|front|] == [t];
    if front != [] { assert MonthOf(month, groups[|front| - 1]) != MonthOf(month, groups[|front|]); }
  }

  /** A grouping without its last transaction. */
  lemma Unjoin(month: int -> int, groups: seq<seq<Transaction>>, ts: seq<Transaction>)
    returns (before: seq<seq<Transaction>>)
    requires IsGrouping(month, groups, ts) && groups != []
    ensures ts != [] && IsGrouping(month, before, ts[..|ts| - 1]) && groups == Join(month, before, ts[|ts| - 1])
  {
    var k := |groups| - 1;
    var last, front := groups[k], groups[..k];
    assert OneMonth(month, last);
    assert groups == front + [last] && ts == Concat(front) + last;
    hide Concat, Alternate, Join, OneMonth;
    var n := |last| - 1;
    assert ts[|ts| - 1] == last[n] && ts[..|ts| - 1] == Concat(front) + last[..n];
    if n == 0 {
      before := front;
      assert last == [last[0]] && Concat(front) + [] == Concat(front);
      OneGroupLess(month, front, last[0]);
    } else {
      before := front + [last[..n]];
      ConcatAppend(front, last[..n]);
      ShorterGroup(month, front, last);
    }
  }

  /** Maximal runs are unique, so the groups are determined by the list and its months alone. */
  lemma {:induction false} GroupingIsUnique(month: int -> int, groups: seq<seq<Transaction>>, ts: seq<Transaction>)
    requires IsGrouping(month, groups, ts)
    ensures groups == Groups(month, ts)
    decreases |ts|
  {
    if groups != [] {
      var before := Unjoin(month, groups, ts);
      GroupingIsUnique(month, before, ts[..|ts| - 1]);
    }
  }

  // ----- What the rows say together -----

  lemma {:induction false} SumAppend(a: seq<Transaction>, b: seq<Transaction>)
    ensures Sum(a + b) == Sum(a).Add(Sum(b))
  {
    if b == [] {
      assert a + b == a;
    } else {
      var n := |b| - 1;
      assert (a + b)[..|a + b| - 1] == a + b[..n];
      SumAppend(a, b[..n]);
    }
  }

  function RowTotals(rows: seq<Row>): Totals {
    if rows == [] then NONE
    else
      var last := rows[|rows| - 1];
      RowTotals(rows[..|rows| - 1]).Add(Totals(last.fiatAmountSales, last.profit, last.loss))
  }

  lemma {:induction false} RowsAddUp(groups: seq<seq<Transaction>>)
    requires NonEmpty(groups)
    ensures RowTotals(RowsOf(groups)) == Sum(Concat(groups))
  {
    if groups != [] {
      var n := |groups| - 1;
      RowsAddUp(groups[..n]);
      assert RowsOf(groups)[..n] == RowsOf(groups[..n]);
      SumAppend(Concat(groups[..n]), groups[n]);
    }
  }

  /** The monthly rows add up to the total. */
  lemma {:induction false} MonthsAddUp(month: int -> int, ts: seq<Transaction>)
    ensures NonEmpty(Groups(month, ts))
    ensures RowTotals(RowsOf(Groups(month, ts))) == Sum(ts)
  {
    GroupsAreAGrouping(month, ts);
    RowsAddUp(Groups(month, ts));
  }

  lemma {:induction false} ConcatConcat(a: seq<seq<Transaction>>, b: seq<seq<Transaction>>)
    ensures Concat(a + b) == Concat(a) + Concat(b)
  {
    if b == [] {
      assert a + b == a;
    } else {
      var n := |b| - 1;
      assert (a + b)[..|a + b| - 1] == a + b[..n];
      ConcatConcat(a, b[..n]);
    }
  }

  lemma {:induction false} ConcatEnds(month: int -> int, groups: seq<seq<Transaction>>)
    requires groups != [] && forall i :: 0 <= i < |groups| ==> OneMonth(month, groups[i])
    ensures Concat(groups) != []
    ensures month(Concat(groups)[|Concat(groups)| - 1].createdAt) == MonthOf(month, groups[|groups| - 1])
    ensures groups[0] != [] && Concat(groups)[0] == groups[0][0]
  {
    assert OneMonth(month, groups[|groups| - 1]);
    if |groups| > 1 { ConcatEnds(month, groups[..|groups| - 1]); }
  }

  lemma AlternateConcat(month: int -> int, a: seq<seq<Transaction>>, b: seq<seq<Transaction>>)
    requires a != [] && b != [] && Alternate(month, a) && Alternate(month, b)
    ensures Alternate(month, a + b) <==> MonthOf(month, a[|a| - 1]) != MonthOf(month, b[0])
  {
    var c := a + b;
    assert c[|a| - 1] == a[|a| - 1] && c[|a|] == b[0];
    if MonthOf(month, a[|a| - 1]) != MonthOf(month, b[0]) {
      forall i | 0 < i < |c|
        ensures MonthOf(month, c[i - 1]) != MonthOf(month, c[i])
      {
        if i > |a| { assert c[i - 1] == b[i - |a| - 1] && c[i] == b[i - |a|]; }
      }
    }
  }

  /** Exactly at a change of month can the list be split without splitting a row. */
  lemma {:induction false} SplitAtMonthChange(month: int -> int, a: seq<Transaction>, b: seq<Transaction>)
    requires a != [] && b != []
    ensures month(a[|a| - 1].createdAt) != month(b[0].createdAt) <==>
      Groups(month, a + b) == Groups(month, a) + Groups(month, b)
    ensures Sum(a + b) == Sum(a).Add(Sum(b))
  {
    var ga, gb := Groups(month, a), Groups(month, b);
    SumAppend(a, b);
    GroupsAreAGrouping(month, a);
    GroupsAreAGrouping(month, b);
    GroupsAreAGrouping(month, a + b);
    ConcatConcat(ga, gb);
    assert ga != [] && gb != [];
    hide Groups, Concat, Sum;
    ConcatEnds(month, ga);
    ConcatEnds(month, gb);
    AlternateConcat(month, ga, gb);
    assert MonthOf(month, gb[0]) == month(b[0].createdAt);
    hide Alternate;
    if Alternate(month, ga + gb) {
      GroupingIsUnique(month, ga + gb, a + b);
    }
  }

  /** In order of time, every month has one row, and the rows are in order of their months. */
  lemma {:induction false} OneRowPerMonth(month: int -> int, ts: seq<Transaction>)
    requires forall i, j :: 0 <= i < j < |ts| ==> month(ts[i].createdAt) <= month(ts[j].createdAt)
    ensures forall i, j :: 0 <= i < j < |Groups(month, ts)| ==>
      MonthOf(month, Groups(month, ts)[i]) < MonthOf(month, Groups(month, ts)[j])
  {
    GroupsAreAGrouping(month, ts);
    GroupsInOrder(month, Groups(month, ts), ts);
  }

  lemma {:induction false} GroupsInOrder(month: int -> int, groups: seq<seq<Transaction>>, ts: seq<Transaction>)
    requires IsGrouping(month, groups, ts)
    requires forall i, j :: 0 <= i < j < |ts| ==> month(ts[i].createdAt) <= month(ts[j].createdAt)
    ensures forall i, j :: 0 <= i < j < |groups| ==> MonthOf(month, groups[i]) < MonthOf(month, groups[j])
  {
    if |groups| > 1 {
      var k := |groups| - 1;
      var front := Concat(groups[..k]);
      assert ts == front + groups[k];
      assert front == ts[..|front|];
      GroupsInOrder(month, groups[..k], front);
      ConcatEnds(month, groups[..k]);
      assert OneMonth(month, groups[k - 1]) && OneMonth(month, groups[k]);
      assert ts[|front|] == groups[k][0] && ts[|front| - 1] == front[|front| - 1];
      assert groups[..k][k - 1] == groups[k - 1];
      assert forall i :: 0 <= i < k ==> groups[..k][i] == groups[i];
    }
  }

  // ----- What a row holds -----

  /** Fiat amounts of what was sold or withdrawn. */
  function Outgoing(ts: seq<Transaction>): real {
    if ts == [] then 0.0
    else
      var t := ts[|ts| - 1];
      Outgoing(ts[..|ts| - 1]) + (if t.kind == SELL || t.kind == WITHDRAWAL then t.fiatAmount else 0.0)
  }

  function Profits(ts: seq<Transaction>): real {
    if ts == [] then 0.0 else Profits(ts[..|ts| - 1]) + ts[|ts| - 1].profit
  }

  function Losses(ts: seq<Transaction>): real {
    if ts == [] then 0.0 else Losses(ts[..|ts| - 1]) + ts[|ts| - 1].loss
  }

  lemma {:induction false} SumIs(ts: seq<Transaction>)
    ensures Sum(ts) == Totals(Outgoing(ts), Profits(ts), Losses(ts))
  {
    if ts != [] { SumIs(ts[..|ts| - 1]); }
  }

  /** Profit over loss in hundredths of a percent, rounded half up; nothing if there was none of one of them. */
  lemma PercentageExactly(profit: real, loss: real, n: int)
    ensures profit == 0.0 || loss == 0.0 ==> Percentage(profit, loss) == 0
    ensures profit != 0.0 && loss != 0.0 ==>
      (n == Percentage(profit, loss) <==> -0.5 < n as real - 10000.0 * (profit / loss) <= 0.5)
  {
    if profit != 0.0 && loss != 0.0 {
      assert Pow10(2) == 100.0;
      RoundsHalfUp(profit / loss * 100.0, 2, n);
    }
  }

  /** The row of a month, or the total of all. */
  lemma RowExactly(createdAt: Option<int>, ts: seq<Transaction>)
    ensures RowOf(createdAt, Sum(ts))
      == Row(createdAt, Outgoing(ts), Profits(ts), Losses(ts), Percentage(Profits(ts), Losses(ts)))
  {
    SumIs(ts);
  }

  // ----- The report -----

  lemma SumOfOne(t: Transaction)
    ensures Sum([t]) == Contribution(t)
  {
    assert [t][..0] == [];
    assert Sum([t][..0]) == NONE;
  }

  lemma SumOfMore(g: seq<Transaction>, t: Transaction)
    ensures Sum(g + [t]) == Sum(g).Add(Contribution(t))
  {
    assert (g + [t])[..|g|] == g;
  }

  /** One more transaction changes the last row or adds one. */
  lemma RowsOfJoin(month: int -> int, groups: seq<seq<Transaction>>, t: Transaction)
    requires groups != [] && NonEmpty(groups) && NonEmpty(Join(month, groups, t))
    ensures var rows, k := RowsOf(groups), |groups| - 1;
            RowsOf(Join(month, groups, t))
            == if month(t.createdAt) == month(rows[k].createdAt.value)
               then rows[k := RowOf(rows[k].createdAt, Sum(groups[k]).Add(Contribution(t)))]
               else rows + [RowOf(Some(t.createdAt), Contribution(t))]
  {
    SumOfOne(t);
    SumOfMore(groups[|groups| - 1], t);
    hide Sum, Contribution, Percentage;
  }

  lemma GroupsStep(month: int -> int, ts: seq<Transaction>, i: nat)
    requires 0 < i < |ts|
    ensures Groups(month, ts[..i + 1]) == Join(month, Groups(month, ts[..i]), ts[i])
    ensures NonEmpty(Groups(month, ts[..i + 1])) && Groups(month, ts[..i]) != []
    ensures Sum(ts[..i + 1]) == Sum(ts[..i]).Add(Contribution(ts[i]))
  {
    GroupsAreAGrouping(month, ts[..i + 1]);
    assert ts[..i + 1][..i] == ts[..i];
  }

  /** The rows of the months in order, then the total; no report without transactions. */
  method GenerateCryptoReportResults(month: int -> int, transactions: seq<Transaction>)
      returns (result: Result<seq<Row>, string>)
    ensures NonEmpty(Groups(month, transactions))
    ensures result == if transactions == [] then Err("CryptoTransactionsNotFoundException")
      else Ok(RowsOf(Groups(month, transactions)) + [RowOf(None, Sum(transactions))])
  {
    GroupsAreAGrouping(month, transactions);
    if |transactions| == 0 { return Err("CryptoTransactionsNotFoundException"); }
    var arrayPosition, first := 0, transactions[0];
    var percentage := Percentage(first.profit, first.loss);
    var rows := [Row(Some(first.createdAt), Sales(first), first.profit, first.loss, percentage)];
    var total := rows[0].(createdAt := None);
    OneGroup(month, transactions);
    for i := 1 to |transactions|
      invariant NonEmpty(Groups(month, transactions[..i]))
      invariant rows == RowsOf(Groups(month, transactions[..i])) && arrayPosition == |rows| - 1 >= 0
      invariant total == RowOf(None, Sum(transactions[..i]))
    {
      hide Groups, Sum, Percentage, Sales, Join, RowsOf, NonEmpty;
      GroupsStep(month, transactions, i);
      RowsOfJoin(month, Groups(month, transactions[..i]), transactions[i]);
      var t, last := transactions[i], rows[arrayPosition];
      if month(t.createdAt) == month(last.createdAt.value) {
        last := AddTo(last, t);
        rows := rows[arrayPosition := last];
      } else {
        arrayPosition := arrayPosition + 1;
        rows := rows + [Row(Some(t.createdAt), Sales(t), t.profit, t.loss, Percentage(t.profit, t.loss))];
      }
      total := AddTo(total, t);
    }
    assert transactions[..|transactions|] == transactions;
    result := Ok(rows + [total]);
  }

  /** Adds a transaction to a month or to the total. */
  method AddTo(row: Row, t: Transaction) returns (r: Row)
    ensures r == RowOf(row.createdAt, Totals(row.fiatAmountSales, row.profit, row.loss).Add(Contribution(t)))
  {
    r := row.(fiatAmountSales := row.fiatAmountSales + (if IsTypeBeneficiary(t.kind) then 0.0 else t.fiatAmount));
    r := r.(profit := r.profit + t.profit);
    r := r.(loss := r.loss + t.loss);
    r := r.(profitLossPercentage :=
      if r.profit != 0.0 && r.loss != 0.0 then FormatValueFromFloatToInt(r.profit / r.loss * 100.0, 2) else 0);
  }

  lemma OneGroup(month: int -> int, ts: seq<Transaction>)
    requires ts != []
    ensures Groups(month, ts[..1]) == [[ts[0]]]
    ensures Sum(ts[..1]) == Contribution(ts[0]) && Sum([ts[0]]) == Contribution(ts[0])
  {
    SumOfOne(ts[0]);
    assert ts[..1] == [ts[0]] && ts[..1][..0] == [];
    assert Groups(month, ts[..1][..0]) == [];
  }
}
