/** components/Dashboard.tsx: today's figures and the seven-day sales
    chart. The clock and the time zone are parameters: `dayOf` maps a
    millisecond timestamp to its local calendar day, counted in days since
    1970-01-01, and `today` is the current local day. */
module Dashboard {
  import opened PosTypes
  import Seqs

  function SameDay(dayOf: int -> int, day: int): Transaction -> bool
  {
    (t: Transaction) => dayOf(t.timestamp) == day
  }

  /** The transactions made on local day `day`, in log order. */
  function OnDay(txs: seq<Transaction>, dayOf: int -> int, day: int): (r: seq<Transaction>)
    ensures forall t :: t in r <==> t in txs && dayOf(t.timestamp) == day
    ensures forall t :: multiset(r)[t] == if dayOf(t.timestamp) == day then multiset(txs)[t] else 0
    ensures Seqs.IsSubsequence(r, txs)
  {
    Seqs.Filter(txs, SameDay(dayOf, day))
  }

  function TxTotal(t: Transaction): int
  {
    t.total
  }

  function TxProfit(t: Transaction): int
  {
    t.totalProfit
  }

  /** Sum of the recorded totals. */
  function SalesOf(txs: seq<Transaction>): int
  {
    Seqs.Sum(txs, TxTotal)
  }

  /** Sum of the recorded profits. */
  function ProfitOf(txs: seq<Transaction>): int
  {
    Seqs.Sum(txs, TxProfit)
  }

  /** The three figures of the top row. */
  datatype TodayStats = TodayStats(totalSales: int, totalProfit: int, orderCount: int)

  /** `totalSalesToday`, `totalProfitToday` and `orderCount`, computed from
      `todaysTx`. */
  function Today(txs: seq<Transaction>, dayOf: int -> int, today: int): (r: TodayStats)
    ensures r.orderCount == |OnDay(txs, dayOf, today)|
    ensures r.totalSales == SalesOf(OnDay(txs, dayOf, today))
    ensures r.totalProfit == ProfitOf(OnDay(txs, dayOf, today))
  {
    var todays := OnDay(txs, dayOf, today);
    TodayStats(SalesOf(todays), ProfitOf(todays), |todays|)
  }

  /** One bar of the chart. */
  datatype ChartPoint = ChartPoint(name: string, sales: int, profit: int)

  /** `Date.getDay()` labels, Sunday first. */
  const Weekdays: seq<string> := ["周日", "周一", "周二", "周三", "周四", "周五", "周六"]

  /** `getDay()` of a local day number (0 = Sunday). Day 0, 1970-01-01,
      was a Thursday, and the weekday advances by one each day, so it is
      the weekday index congruent to day + 4 modulo 7. */
  function WeekdayOf(day: int): (r: int)
    ensures 0 <= r < 7
    ensures (day + 4 - r) % 7 == 0
  {
    (day + 4) % 7
  }

  /** The bar for one local day: that day's sales and profit, labelled
      with its weekday. */
  function DayPoint(txs: seq<Transaction>, dayOf: int -> int, day: int): (r: ChartPoint)
    ensures r.sales == SalesOf(OnDay(txs, dayOf, day))
    ensures r.profit == ProfitOf(OnDay(txs, dayOf, day))
    ensures r.name == Weekdays[WeekdayOf(day)]
  {
    var onDay := OnDay(txs, dayOf, day);
    ChartPoint(Weekdays[WeekdayOf(day)], SalesOf(onDay), ProfitOf(onDay))
  }

  /** `chartData`: always seven bars; bar i is day today - (6 - i), so the
      oldest day comes first and today last, each carrying that day's
      sales and profit and its weekday name. */
  function ChartData(txs: seq<Transaction>, dayOf: int -> int, today: int): (r: seq<ChartPoint>)
    ensures |r| == 7
    ensures forall i :: 0 <= i < 7 ==> r[i] == DayPoint(txs, dayOf, today - (6 - i))
  {
    seq(7, i => DayPoint(txs, dayOf, today - (6 - i)))
  }

  /** The last bar shows exactly today's top-row figures. */
  lemma ChartEndsWithToday(txs: seq<Transaction>, dayOf: int -> int, today: int)
    ensures ChartData(txs, dayOf, today)[6].sales == Today(txs, dayOf, today).totalSales
    ensures ChartData(txs, dayOf, today)[6].profit == Today(txs, dayOf, today).totalProfit
  {
  }

  /** A day without transactions gives a zero bar rather than no bar. */
  lemma QuietDayIsZero(txs: seq<Transaction>, dayOf: int -> int, day: int)
    requires forall t :: t in txs ==> dayOf(t.timestamp) != day
    ensures OnDay(txs, dayOf, day) == []
    ensures DayPoint(txs, dayOf, day).sales == 0 && DayPoint(txs, dayOf, day).profit == 0
  {
    Seqs.FilterKeepsNone(txs, SameDay(dayOf, day));
  }

  /** The seven bars carry seven different weekday names, one per day of
      the week. */
  lemma ChartCoversWeek(txs: seq<Transaction>, dayOf: int -> int, today: int)
    ensures forall i, j :: 0 <= i < j < 7 ==>
      ChartData(txs, dayOf, today)[i].name != ChartData(txs, dayOf, today)[j].name
  {
    var r := ChartData(txs, dayOf, today);
    forall i | 0 <= i < 7
      ensures r[i].name == Weekdays[WeekdayOf(today - (6 - i))]
    {
      BarNameAt(txs, dayOf, today, i);
    }
    LabelsDistinct(r, today);
  }

  /** Seven bars labelled with seven consecutive days' weekdays carry
      seven different labels. */
  lemma LabelsDistinct(r: seq<ChartPoint>, today: int)
    requires |r| == 7
    requires forall i :: 0 <= i < 7 ==> r[i].name == Weekdays[WeekdayOf(today - (6 - i))]
    ensures forall i, j :: 0 <= i < j < 7 ==> r[i].name != r[j].name
  {
    forall i, j | 0 <= i < j < 7
      ensures r[i].name != r[j].name
    {
      DaysApartNamedApart(today - (6 - i), today - (6 - j));
    }
  }

  /** Days fewer than seven apart carry different weekday labels. */
  lemma DaysApartNamedApart(a: int, b: int)
    requires 0 < b - a < 7
    ensures Weekdays[WeekdayOf(a)] != Weekdays[WeekdayOf(b)]
  {
    WeekdaysApart(a, b - a);
    assert a + (b - a) == b;
    WeekdayNamesDistinct(WeekdayOf(a), WeekdayOf(b));
  }

  /** Bar i of the chart is labelled with the weekday of day
      today - (6 - i). */
  lemma BarNameAt(txs: seq<Transaction>, dayOf: int -> int, today: int, i: int)
    requires 0 <= i < 7
    ensures ChartData(txs, dayOf, today)[i].name == Weekdays[WeekdayOf(today - (6 - i))]
  {
    assert ChartData(txs, dayOf, today)[i] == DayPoint(txs, dayOf, today - (6 - i));
  }

  /** The seven weekday labels are pairwise different. */
  lemma WeekdayNamesDistinct(x: int, y: int)
    requires 0 <= x < 7 && 0 <= y < 7 && x != y
    ensures Weekdays[x] != Weekdays[y]
  {
  }

  /** Days fewer than seven apart fall on different weekdays. */
  lemma WeekdaysApart(a: int, d: int)
    requires 0 < d < 7
    ensures WeekdayOf(a) != WeekdayOf(a + d)
  {
    var x := a + 4;
    var q := x / 7;
    var m := x % 7;
    assert x == 7 * q + m;
    if m + d < 7 {
      assert x + d == 7 * q + (m + d);
      assert (x + d) % 7 == m + d;
    } else {
      assert x + d == 7 * (q + 1) + (m + d - 7);
      assert (x + d) % 7 == m + d - 7;
    }
  }

  /** The order in which the log lists transactions never changes a
      figure: permuting the log leaves the top row and the chart as they
      are. */
  lemma OrderIndependent(a: seq<Transaction>, b: seq<Transaction>, dayOf: int -> int, today: int)
    requires multiset(a) == multiset(b)
    ensures Today(a, dayOf, today) == Today(b, dayOf, today)
    ensures ChartData(a, dayOf, today) == ChartData(b, dayOf, today)
  {
    forall day
      ensures DayPoint(a, dayOf, day) == DayPoint(b, dayOf, day)
      ensures |OnDay(a, dayOf, day)| == |OnDay(b, dayOf, day)|
    {
      Seqs.FilterPermutation(a, b, SameDay(dayOf, day));
      var fa := OnDay(a, dayOf, day);
      var fb := OnDay(b, dayOf, day);
      assert |fa| == |multiset(fa)| == |multiset(fb)| == |fb|;
      Seqs.SumPermutation(fa, fb, TxTotal);
      Seqs.SumPermutation(fa, fb, TxProfit);
    }
    assert DayPoint(a, dayOf, today) == DayPoint(b, dayOf, today);
    var ca := ChartData(a, dayOf, today);
    var cb := ChartData(b, dayOf, today);
    forall i | 0 <= i < 7
      ensures ca[i] == cb[i]
    {
      assert ca[i] == DayPoint(a, dayOf, today - (6 - i));
    }
  }

  /** Transactions from other days, added before or after, do not change
      the list for `day`. */
  lemma OtherDaysDropped(txs: seq<Transaction>, others: seq<Transaction>, dayOf: int -> int, day: int)
    requires forall t :: t in others ==> dayOf(t.timestamp) != day
    ensures OnDay(txs + others, dayOf, day) == OnDay(txs, dayOf, day)
    ensures OnDay(others + txs, dayOf, day) == OnDay(txs, dayOf, day)
  {
    var keep := SameDay(dayOf, day);
    Seqs.FilterAppend(txs, others, keep);
    Seqs.FilterAppend(others, txs, keep);
    Seqs.FilterKeepsNone(others, keep);
    assert Seqs.Filter(txs, keep) + [] == Seqs.Filter(txs, keep);
    assert [] + Seqs.Filter(txs, keep) == Seqs.Filter(txs, keep);
  }
}
