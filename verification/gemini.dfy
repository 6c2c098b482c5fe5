/** services/gemini.ts, without the network: `analyzeSales` chooses between
    three fixed messages and the text returned by the text-generation
    service. The service is the parameter `ai`, a function of the day's
    digest, which is all the core hands to it. */
module Gemini {
  import opened Wrappers
  import opened PosTypes
  import Seqs
  import Dashboard

  const NoKeyMessage: string := "未配置 API Key，无法生成 AI 报告。"
  const NoSalesMessage: string := "今日暂无销售记录，快去开单吧！"
  const FailureMessage: string := "抱歉，暂时无法分析数据，请检查网络连接。"

  /** What the service call produced: a report, or a thrown error. */
  datatype AiReply = Replied(text: string) | Failed

  /** Today's aggregate as it goes into the prompt. */
  datatype DailyDigest = DailyDigest(totalSales: int, totalProfit: int, productStats: map<string, int>)

  /** Every line of every transaction, transaction by transaction. */
  function AllItems(txs: seq<Transaction>): seq<CartItem>
  {
    if |txs| == 0 then [] else txs[0].items + AllItems(txs[1..])
  }

  /** Units sold under product name `name` (whatever the product id). */
  function UnitsNamed(items: seq<CartItem>, name: string): int
  {
    if |items| == 0 then 0
    else (if items[0].product.name == name then items[0].quantity else 0) + UnitsNamed(items[1..], name)
  }

  /** Some line was sold under product name `name`. */
  predicate SoldAs(items: seq<CartItem>, name: string)
  {
    exists i :: 0 <= i < |items| && items[i].product.name == name
  }

  /** Adds one line's units to the tally under its product name; a name
      not yet in the tally starts from zero. */
  function Bump(stats: map<string, int>, item: CartItem): (r: map<string, int>)
    ensures r.Keys == stats.Keys + {item.product.name}
    ensures item.product.name !in stats ==> r[item.product.name] == item.quantity
    ensures item.product.name in stats ==> r[item.product.name] == stats[item.product.name] + item.quantity
    ensures forall n :: n in stats && n != item.product.name ==> r[n] == stats[n]
  {
    var name := item.product.name;
    stats[name := (if name in stats then stats[name] else 0) + item.quantity]
  }

  /** The `forEach` over the lines, starting from the tally `acc`. */
  function TallyFrom(acc: map<string, int>, items: seq<CartItem>): (r: map<string, int>)
    ensures forall n :: n in r <==> n in acc || SoldAs(items, n)
    ensures forall n :: n in r ==> r[n] == (if n in acc then acc[n] else 0) + UnitsNamed(items, n)
    decreases |items|
  {
    if |items| == 0 then acc
    else
      var r := TallyFrom(Bump(acc, items[0]), items[1..]);
      assert forall n :: SoldAs(items, n) <==> items[0].product.name == n || SoldAs(items[1..], n) by {
        forall n ensures SoldAs(items, n) <==> items[0].product.name == n || SoldAs(items[1..], n) {
          if SoldAs(items[1..], n) {
            var i :| 0 <= i < |items[1..]| && items[1..][i].product.name == n;
            assert items[i + 1].product.name == n;
          }
          if SoldAs(items, n) && items[0].product.name != n {
            var i :| 0 <= i < |items| && items[i].product.name == n;
            assert items[1..][i - 1].product.name == n;
          }
        }
      }
      r
  }

  /** `productStats`: one key per product name sold in `txs`, mapped to the
      units sold under that name. */
  function ProductStats(txs: seq<Transaction>): (r: map<string, int>)
    ensures forall n :: n in r <==> SoldAs(AllItems(txs), n)
    ensures forall n :: n in r ==> r[n] == UnitsNamed(AllItems(txs), n)
  {
    TallyFrom(map[], AllItems(txs))
  }

  lemma {:induction false} UnitsNamedAppend(a: seq<CartItem>, b: seq<CartItem>, name: string)
    ensures UnitsNamed(a + b, name) == UnitsNamed(a, name) + UnitsNamed(b, name)
    decreases |a|
  {
    if |a| == 0 {
      assert a + b == b;
    } else {
      assert (a + b)[1..] == a[1..] + b;
      UnitsNamedAppend(a[1..], b, name);
    }
  }

  /** Units of `name` sold in one transaction. */
  function TxUnits(name: string): Transaction -> int
  {
    (t: Transaction) => UnitsNamed(t.items, name)
  }

  /** A tally entry is the sum, over the transactions, of the units each
      sold under that name. */
  lemma {:induction false} StatsSumPerTransaction(txs: seq<Transaction>, name: string)
    ensures UnitsNamed(AllItems(txs), name) == Seqs.Sum(txs, TxUnits(name))
    decreases |txs|
  {
    if |txs| > 0 {
      UnitsNamedAppend(txs[0].items, AllItems(txs[1..]), name);
      StatsSumPerTransaction(txs[1..], name);
    }
  }

  /** The digest of a day's transactions: the summed recorded totals and
      profits, and the units sold per product name. */
  function Digest(todays: seq<Transaction>): (r: DailyDigest)
    ensures r.totalSales == Seqs.Sum(todays, Dashboard.TxTotal)
    ensures r.totalProfit == Seqs.Sum(todays, Dashboard.TxProfit)
    ensures forall n :: n in r.productStats <==> SoldAs(AllItems(todays), n)
    ensures forall n :: n in r.productStats ==> r.productStats[n] == Seqs.Sum(todays, TxUnits(n))
  {
    var stats := ProductStats(todays);
    assert forall n :: n in stats ==> stats[n] == Seqs.Sum(todays, TxUnits(n)) by {
      forall n | n in stats
        ensures stats[n] == Seqs.Sum(todays, TxUnits(n))
      {
        StatsSumPerTransaction(todays, n);
      }
    }
    DailyDigest(Dashboard.SalesOf(todays), Dashboard.ProfitOf(todays), stats)
  }

  /** `analyzeSales`: without an API key, the fixed no-key message (checked
      first); with no transaction today, the fixed no-sales message;
      otherwise the service's report on today's digest, or the fixed
      apology when the call fails. */
  function AnalyzeSales(apiKeySet: bool, txs: seq<Transaction>, dayOf: int -> int, today: int,
                        ai: DailyDigest -> AiReply): (r: string)
    ensures !apiKeySet ==> r == NoKeyMessage
    ensures apiKeySet && |Dashboard.OnDay(txs, dayOf, today)| == 0 ==> r == NoSalesMessage
    ensures apiKeySet && |Dashboard.OnDay(txs, dayOf, today)| > 0 ==>
      var reply := ai(Digest(Dashboard.OnDay(txs, dayOf, today)));
      r == (if reply.Replied? then reply.text else FailureMessage)
  {
    if !apiKeySet then NoKeyMessage
    else
      var todays := Dashboard.OnDay(txs, dayOf, today);
      if |todays| == 0 then NoSalesMessage
      else
        match ai(Digest(todays))
        case Replied(text) => text
        case Failed => FailureMessage
  }

  /** Transactions from other days never influence the analysis: adding
      them to the log, before or after, leaves the result unchanged. */
  lemma OtherDaysIgnored(apiKeySet: bool, txs: seq<Transaction>, others: seq<Transaction>,
                         dayOf: int -> int, today: int, ai: DailyDigest -> AiReply)
    requires forall t :: t in others ==> dayOf(t.timestamp) != today
    ensures AnalyzeSales(apiKeySet, txs + others, dayOf, today, ai) == AnalyzeSales(apiKeySet, txs, dayOf, today, ai)
    ensures AnalyzeSales(apiKeySet, others + txs, dayOf, today, ai) == AnalyzeSales(apiKeySet, txs, dayOf, today, ai)
  {
    Dashboard.OtherDaysDropped(txs, others, dayOf, today);
  }
}
