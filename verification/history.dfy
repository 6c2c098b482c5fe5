/** components/Transactions.tsx: the search over the transaction log and
    the payment-method label. `dateString` stands for
    `toLocaleDateString('zh-CN')` of a timestamp. */
module TransactionHistory {
  import opened PosTypes
  import Seqs

  /** The search test: the lower-cased id contains the lower-cased term, or
      the date string (not lower-cased) does. */
  predicate MatchesSearch(t: Transaction, term: string, dateString: int -> string)
  {
    var lowered := Seqs.ToLower(term);
    Seqs.Contains(Seqs.ToLower(t.id), lowered) || Seqs.Contains(dateString(t.timestamp), lowered)
  }

  function SearchFilter(term: string, dateString: int -> string): Transaction -> bool
  {
    (t: Transaction) => MatchesSearch(t, term, dateString)
  }

  /** `filteredTransactions`: the transactions whose id (ignoring case) or
      date string contains the search term, in log order. */
  function FilteredTransactions(txs: seq<Transaction>, term: string, dateString: int -> string): (r: seq<Transaction>)
    ensures forall t :: t in r <==>
      && t in txs
      && (Seqs.Contains(Seqs.ToLower(t.id), Seqs.ToLower(term)) || Seqs.Contains(dateString(t.timestamp), Seqs.ToLower(term)))
    ensures forall t :: multiset(r)[t] == if MatchesSearch(t, term, dateString) then multiset(txs)[t] else 0
    ensures Seqs.IsSubsequence(r, txs)
  {
    Seqs.Filter(txs, SearchFilter(term, dateString))
  }

  /** An empty search box lists every transaction. */
  lemma EmptySearchKeepsAll(txs: seq<Transaction>, dateString: int -> string)
    ensures FilteredTransactions(txs, "", dateString) == txs
  {
    forall t | t in txs
      ensures SearchFilter("", dateString)(t)
    {
      Seqs.ContainsEmpty(Seqs.ToLower(t.id));
    }
    Seqs.FilterKeepsAll(txs, SearchFilter("", dateString));
  }

  /** Searching for a transaction's id, in any ASCII letter case, finds
      that transaction. */
  lemma SearchByIdFinds(txs: seq<Transaction>, t: Transaction, term: string, dateString: int -> string)
    requires t in txs
    requires Seqs.ToLower(term) == Seqs.ToLower(t.id)
    ensures t in FilteredTransactions(txs, term, dateString)
  {
    var s := Seqs.ToLower(t.id);
    assert s[..|s|] == s;
    assert Seqs.IsPrefix(s, s);
  }

  const CashLabel: string := "现金"
  const CardLabel: string := "刷卡"
  const QrLabel: string := "扫码"
  const UnknownLabel: string := "未知"

  /** `getMethodLabel`: the label for a stored method string; anything
      outside the three known codes is '未知'. */
  function GetMethodLabel(code: string): (r: string)
    ensures code == "CASH" <==> r == CashLabel
    ensures code == "CARD" <==> r == CardLabel
    ensures code == "QR" <==> r == QrLabel
    ensures code !in ["CASH", "CARD", "QR"] <==> r == UnknownLabel
  {
    match code
    case "CASH" => CashLabel
    case "CARD" => CardLabel
    case "QR" => QrLabel
    case _ => UnknownLabel
  }

  /** Every payment method a checkout can record gets its own known label. */
  lemma MethodsHaveDistinctLabels(m1: PaymentMethod, m2: PaymentMethod)
    ensures GetMethodLabel(MethodCode(m1)) != UnknownLabel
    ensures GetMethodLabel(MethodCode(m1)) == GetMethodLabel(MethodCode(m2)) <==> m1 == m2
  {
    MethodCodeInjective(m1, m2);
  }
}
