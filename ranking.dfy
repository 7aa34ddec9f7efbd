/** The ranking half of the magic-formula stock digest: the records of one
    run are sorted by (earnings yield, return on capital), best first, and
    each record gets its 1-based position written into it in place. */
module Ranking {
  import opened Processor

  /** One record dict of the run's `stocks` dict. The five values that
      process_stock_data wrote are never changed afterwards; `rank` is the
      'Rank' key, absent until rank_stocks writes it. */
  class StockEntry {
    const stock: Stock
    var rank: Option<int>

    constructor (s: Stock)
      ensures stock == s && rank == None
    {
      stock := s;
      rank := None;
    }
  }

  /** The sort key (x['EarningsYield'], x['ROC']). */
  datatype SortKey = SortKey(earningsYield: real, roc: real)

  function Key(e: StockEntry): SortKey {
    SortKey(e.stock.earningsYield, e.stock.roc)
  }

  /** Python's tuple comparison a > b: earnings yield first, return on
      capital to break a tie. */
  predicate Above(a: SortKey, b: SortKey) {
    a.earningsYield > b.earningsYield || (a.earningsYield == b.earningsYield && a.roc > b.roc)
  }

  /** Best first: no record has a key above that of a record before it. */
  predicate SortedDescending(s: seq<StockEntry>) {
    forall i, j :: 0 <= i < j < |s| ==> !Above(Key(s[j]), Key(s[i]))
  }

  /** No record object occurs twice. */
  predicate Distinct(s: seq<StockEntry>) {
    forall i, j :: 0 <= i < j < |s| ==> s[i] != s[j]
  }

  /** The records of s whose key is k, in their order in s. A sort is
      stable when it leaves each of these runs as it was. */
  function KeyRun(s: seq<StockEntry>, k: SortKey): seq<StockEntry> {
    if s == [] then []
    else (if Key(s[0]) == k then [s[0]] else []) + KeyRun(s[1..], k)
  }

  /** [stock for stock in stocks.values() if stock], the values listed in
      the dict's insertion order; None stands for any falsy value. */
  function Truthy(values: seq<Option<StockEntry>>): (r: seq<StockEntry>)
    ensures |r| <= |values|
    ensures forall i :: 0 <= i < |r| ==> Some(r[i]) in values
    ensures forall i :: 0 <= i < |values| && values[i].Some? ==> values[i].value in r
  {
    if values == [] then []
    else
      var rest := Truthy(values[1..]);
      if values[0].Some? then [values[0].value] + rest else rest
  }

  /** The filter keeps every truthy value as often as the dict holds it. */
  lemma {:induction false} TruthyCounts(values: seq<Option<StockEntry>>, e: StockEntry)
    ensures multiset(Truthy(values))[e] == multiset(values)[Some(e)]
  {
    if values != [] {
      TruthyCounts(values[1..], e);
      assert values == [values[0]] + values[1..];
    }
  }

  /** The filter keeps the dict's order: filtering a concatenation is
      concatenating the filtered parts. */
  lemma {:induction false} TruthyAppend(a: seq<Option<StockEntry>>, b: seq<Option<StockEntry>>)
    ensures Truthy(a + b) == Truthy(a) + Truthy(b)
  {
    if a == [] {
      assert a + b == b;
    } else {
      var ab := a + b;
      assert ab[0] == a[0] && ab[1..] == a[1..] + b;
      TruthyAppend(a[1..], b);
      assert Truthy(ab) == (if a[0].Some? then [a[0].value] else []) + Truthy(a[1..] + b);
      assert Truthy(a) == (if a[0].Some? then [a[0].value] else []) + Truthy(a[1..]);
    }
  }

  /** Two truthy values of the dict come out of the filter in the order the
      dict lists them, each at the position given by the number of truthy
      values before it. */
  lemma TruthyKeepsOrder(values: seq<Option<StockEntry>>, i: nat, j: nat)
    requires i < j < |values| && values[i].Some? && values[j].Some?
    ensures var p, q := |Truthy(values[..i])|, |Truthy(values[..j])|;
            p < q < |Truthy(values)|
            && Truthy(values)[p] == values[i].value && Truthy(values)[q] == values[j].value
  {
    assert values == values[..i] + [values[i]] + values[i + 1..j] + [values[j]] + values[j + 1..];
    assert values[..j] == values[..i] + [values[i]] + values[i + 1..j];
    TruthyAppend(values[..i] + [values[i]] + values[i + 1..j] + [values[j]], values[j + 1..]);
    TruthyAppend(values[..i] + [values[i]] + values[i + 1..j], [values[j]]);
    TruthyAppend(values[..i] + [values[i]], values[i + 1..j]);
    TruthyAppend(values[..i], [values[i]]);
  }

  /** Places e, which came before every record of s, into the descending
      sequence s: after the records strictly above it and before all the
      others, so that among equal keys e stays first. */
  function Insert(e: StockEntry, s: seq<StockEntry>): (r: seq<StockEntry>)
    ensures |r| == |s| + 1
  {
    if s == [] || !Above(Key(s[0]), Key(e)) then [e] + s
    else [s[0]] + Insert(e, s[1..])
  }

  /** sorted(..., key=lambda x: (x['EarningsYield'], x['ROC']), reverse=True):
      a stable sort, best key first. */
  function SortDescending(s: seq<StockEntry>): (r: seq<StockEntry>)
    ensures |r| == |s|
  {
    if s == [] then [] else Insert(s[0], SortDescending(s[1..]))
  }

  lemma {:induction false} InsertPermutes(e: StockEntry, s: seq<StockEntry>)
    ensures multiset(Insert(e, s)) == multiset(s) + multiset{e}
  {
    if s != [] && Above(Key(s[0]), Key(e)) {
      InsertPermutes(e, s[1..]);
      assert s == [s[0]] + s[1..];
    }
  }

  /** The sort returns a permutation of its input. */
  lemma {:induction false} SortPermutes(s: seq<StockEntry>)
    ensures multiset(SortDescending(s)) == multiset(s)
  {
    if s != [] {
      SortPermutes(s[1..]);
      InsertPermutes(s[0], SortDescending(s[1..]));
      assert s == [s[0]] + s[1..];
    }
  }

  lemma {:induction false} InsertSorted(e: StockEntry, s: seq<StockEntry>)
    requires SortedDescending(s)
    ensures SortedDescending(Insert(e, s))
  {
    if s == [] || !Above(Key(s[0]), Key(e)) {
      var t := [e] + s;
      forall i, j | 0 <= i < j < |t| ensures !Above(Key(t[j]), Key(t[i])) {
        if i == 0 {
          assert t[j] == s[j - 1];
          if j > 1 {
            assert !Above(Key(s[j - 1]), Key(s[0]));
          }
        } else {
          assert t[i] == s[i - 1] && t[j] == s[j - 1];
        }
      }
    } else {
      var u := Insert(e, s[1..]);
      InsertSorted(e, s[1..]);
      InsertPermutes(e, s[1..]);
      var t := [s[0]] + u;
      forall i, j | 0 <= i < j < |t| ensures !Above(Key(t[j]), Key(t[i])) {
        if i == 0 {
          assert t[j] == u[j - 1];
          assert u[j - 1] in multiset(u);
          if u[j - 1] != e {
            assert u[j - 1] in multiset(s[1..]);
            var m :| 0 <= m < |s[1..]| && s[1..][m] == u[j - 1];
            assert s[m + 1] == u[j - 1];
          }
        } else {
          assert t[i] == u[i - 1] && t[j] == u[j - 1];
        }
      }
    }
  }

  /** The sort's output is best first. */
  lemma {:induction false} SortIsSorted(s: seq<StockEntry>)
    ensures SortedDescending(SortDescending(s))
  {
    if s != [] {
      SortIsSorted(s[1..]);
      InsertSorted(s[0], SortDescending(s[1..]));
    }
  }

  lemma {:induction false} InsertRun(e: StockEntry, s: seq<StockEntry>, k: SortKey)
    ensures KeyRun(Insert(e, s), k) == if Key(e) == k then [e] + KeyRun(s, k) else KeyRun(s, k)
  {
    if s == [] || !Above(Key(s[0]), Key(e)) {
      assert ([e] + s)[1..] == s;
    } else {
      InsertRun(e, s[1..], k);
      assert ([s[0]] + Insert(e, s[1..]))[1..] == Insert(e, s[1..]);
    }
  }

  /** The sort is stable: the records of each key come out in the order
      they went in. */
  lemma {:induction false} SortIsStable(s: seq<StockEntry>, k: SortKey)
    ensures KeyRun(SortDescending(s), k) == KeyRun(s, k)
  {
    if s != [] {
      SortIsStable(s[1..], k);
      InsertRun(s[0], SortDescending(s[1..]), k);
    }
  }

  lemma {:induction false} KeyRunMembers(s: seq<StockEntry>, k: SortKey, x: StockEntry)
    requires x in KeyRun(s, k)
    ensures x in s && Key(x) == k
  {
    if s != [] {
      if x != s[0] || Key(s[0]) != k {
        KeyRunMembers(s[1..], k, x);
      }
    }
  }

  lemma SortedTail(s: seq<StockEntry>)
    requires s != [] && SortedDescending(s)
    ensures SortedDescending(s[1..])
  {
  }

  lemma DistinctTail(s: seq<StockEntry>)
    requires s != [] && Distinct(s)
    ensures Distinct(s[1..]) && s[0] !in s[1..]
  {
  }

  lemma HeadHasRun(s: seq<StockEntry>)
    requires s != []
    ensures KeyRun(s, Key(s[0])) != []
  {
  }

  /** Two best-first sequences that list the records of every key in the
      same order are the same sequence. */
  lemma {:induction false} RunsDetermineSorted(u: seq<StockEntry>, t: seq<StockEntry>)
    requires SortedDescending(u) && SortedDescending(t)
    requires forall k :: KeyRun(u, k) == KeyRun(t, k)
    ensures u == t
    decreases |u| + |t|
  {
    if u == [] && t == [] {
    } else if u == [] {
      HeadHasRun(t);
      assert false;
    } else if t == [] {
      HeadHasRun(u);
      assert false;
    } else {
      var ku, kt := Key(u[0]), Key(t[0]);
      assert u[0] == KeyRun(u, ku)[0];
      assert t[0] == KeyRun(t, kt)[0];
      KeyRunMembers(u, kt, t[0]);
      KeyRunMembers(t, ku, u[0]);
      assert ku == kt by {
        var i :| 0 <= i < |u| && u[i] == t[0];
        var j :| 0 <= j < |t| && t[j] == u[0];
        assert !Above(Key(u[i]), Key(u[0]));
        assert !Above(Key(t[j]), Key(t[0]));
      }
      assert u[0] == t[0];
      forall k ensures KeyRun(u[1..], k) == KeyRun(t[1..], k) {
        assert KeyRun(u, k) == KeyRun(t, k);
        assert KeyRun(u, k) == (if Key(u[0]) == k then [u[0]] else []) + KeyRun(u[1..], k);
        assert KeyRun(t, k) == (if Key(t[0]) == k then [t[0]] else []) + KeyRun(t[1..], k);
        if Key(u[0]) == k {
          assert KeyRun(u, k)[1..] == KeyRun(u[1..], k);
          assert KeyRun(t, k)[1..] == KeyRun(t[1..], k);
        } else {
          assert [] + KeyRun(u[1..], k) == KeyRun(u[1..], k);
          assert [] + KeyRun(t[1..], k) == KeyRun(t[1..], k);
        }
      }
      SortedTail(u);
      SortedTail(t);
      RunsDetermineSorted(u[1..], t[1..]);
      assert u == [u[0]] + u[1..] && t == [t[0]] + t[1..];
    }
  }

  /** The sort is the only best-first order that keeps every key's records
      in their input order: any sequence with both properties is its
      output. */
  lemma SortIsUnique(s: seq<StockEntry>, t: seq<StockEntry>)
    requires SortedDescending(t)
    requires forall k :: KeyRun(t, k) == KeyRun(s, k)
    ensures t == SortDescending(s)
  {
    SortIsSorted(s);
    forall k ensures KeyRun(SortDescending(s), k) == KeyRun(t, k) {
      SortIsStable(s, k);
    }
    RunsDetermineSorted(SortDescending(s), t);
  }

  /** Sorting a sequence that is already best first leaves it as it is;
      hence sorting twice is sorting once. */
  lemma {:induction false} SortKeepsSorted(s: seq<StockEntry>)
    requires SortedDescending(s)
    ensures SortDescending(s) == s
  {
    if s != [] {
      SortedTail(s);
      SortKeepsSorted(s[1..]);
      assert s == [s[0]] + s[1..];
    }
  }

  lemma SortIsIdempotent(s: seq<StockEntry>)
    ensures SortDescending(SortDescending(s)) == SortDescending(s)
  {
    SortIsSorted(s);
    SortKeepsSorted(SortDescending(s));
  }

  /** Sorting distinct records gives distinct records. */
  lemma {:induction false} SortKeepsDistinct(s: seq<StockEntry>)
    requires Distinct(s)
    ensures Distinct(SortDescending(s))
  {
    if s != [] {
      var rest := SortDescending(s[1..]);
      DistinctTail(s);
      SortKeepsDistinct(s[1..]);
      SortPermutes(s[1..]);
      assert s[0] !in multiset(rest);
      InsertKeepsDistinct(s[0], rest);
    }
  }

  lemma {:induction false} InsertKeepsDistinct(e: StockEntry, s: seq<StockEntry>)
    requires Distinct(s) && e !in s
    ensures Distinct(Insert(e, s))
  {
    if s != [] && Above(Key(s[0]), Key(e)) {
      DistinctTail(s);
      InsertKeepsDistinct(e, s[1..]);
      InsertPermutes(e, s[1..]);
      var u := Insert(e, s[1..]);
      forall j | 0 <= j < |u| ensures u[j] != s[0] {
        assert u[j] in multiset(u);
        if u[j] != e {
          assert u[j] in multiset(s[1..]);
          var m :| 0 <= m < |s[1..]| && s[1..][m] == u[j];
          assert s[m + 1] == u[j];
        }
      }
    }
  }

  lemma InLaterSlice(s: seq<StockEntry>, k: nat, j: nat)
    requires k < j < |s|
    ensures s[j] in s[k + 1..]
  {
  }

  /** The record at position k has a Rank, at least k + 1 and at most n,
      and the record stands at the position that Rank names. */
  predicate RankPointsBack(ranked: seq<StockEntry>, k: nat, n: nat)
    requires k < |ranked| && n <= |ranked|
    reads ranked
  {
    && ranked[k].rank.Some? && k < ranked[k].rank.value <= n
    && ranked[ranked[k].rank.value - 1] == ranked[k]
  }

  /** The loop `for rank, stock in enumerate(ranked_stocks, start=1):
      stock['Rank'] = rank`. Afterwards every record's Rank names a
      position at which the record stands, the last one; so a record that
      does not occur again has Rank equal to its own 1-based position. */
  method WriteRanks(ranked: seq<StockEntry>)
    modifies set e | e in ranked
    ensures forall k :: 0 <= k < |ranked| ==> RankPointsBack(ranked, k, |ranked|)
    ensures forall k :: 0 <= k < |ranked| && ranked[k] !in ranked[k + 1..] ==> ranked[k].rank == Some(k + 1)
  {
    for i := 0 to |ranked|
      invariant forall k :: 0 <= k < i ==>
                  ranked[k].rank.Some? && k < ranked[k].rank.value <= i && ranked[ranked[k].rank.value - 1] == ranked[k]
    {
      ranked[i].rank := Some(i + 1);
    }
    forall k | 0 <= k < |ranked| && ranked[k] !in ranked[k + 1..] ensures ranked[k].rank == Some(k + 1) {
      if ranked[k].rank.value - 1 > k {
        InLaterSlice(ranked, k, ranked[k].rank.value - 1);
        assert false;
      }
    }
  }

  /** In a sequence of distinct records no record occurs again later. */
  lemma DistinctNotLater(s: seq<StockEntry>)
    requires Distinct(s)
    ensures forall k :: 0 <= k < |s| ==> s[k] !in s[k + 1..]
  {
  }

  /** What rank_stocks relies on about the list it enumerates: it is the
      truthy records, sorted, holding each of the caller's records. */
  lemma SortedTruthy(stocks: seq<Option<StockEntry>>)
    ensures multiset(SortDescending(Truthy(stocks))) == multiset(Truthy(stocks))
    ensures SortedDescending(SortDescending(Truthy(stocks)))
    ensures forall e :: e in SortDescending(Truthy(stocks)) ==> e in Truthy(stocks)
    ensures forall e :: Some(e) in stocks ==> e in SortDescending(Truthy(stocks))
    ensures Distinct(Truthy(stocks)) ==> Distinct(SortDescending(Truthy(stocks)))
  {
    var present := Truthy(stocks);
    var ranked := SortDescending(present);
    SortPermutes(present);
    SortIsSorted(present);
    forall e | e in ranked ensures e in present {
      assert e in multiset(ranked);
    }
    forall e | Some(e) in stocks ensures e in ranked {
      var j :| 0 <= j < |stocks| && stocks[j] == Some(e);
      assert e in multiset(present);
    }
    if Distinct(present) {
      SortKeepsDistinct(present);
    }
  }

  /** rank_stocks: sorts the truthy records best first and writes each
      record's 1-based position into its own 'Rank' key, on the caller's
      objects, which is how the caller sees the ranks afterwards: every
      record it holds finds itself at the position its Rank names. When the
      records are distinct objects, Rank is exactly the 1-based position. */
  method RankStocks(stocks: seq<Option<StockEntry>>) returns (ranked: seq<StockEntry>)
    modifies set e | e in Truthy(stocks)
    ensures ranked == SortDescending(Truthy(stocks))
    ensures multiset(ranked) == multiset(Truthy(stocks))
    ensures SortedDescending(ranked)
    ensures forall i :: 0 <= i < |ranked| ==> RankPointsBack(ranked, i, |ranked|)
    ensures Distinct(Truthy(stocks)) ==> forall i :: 0 <= i < |ranked| ==> ranked[i].rank == Some(i + 1)
    ensures forall e :: Some(e) in stocks ==>
              e.rank.Some? && 1 <= e.rank.value <= |ranked| && ranked[e.rank.value - 1] == e
  {
    ranked := SortDescending(Truthy(stocks));
    SortedTruthy(stocks);
    WriteRanks(ranked);
    if Distinct(Truthy(stocks)) {
      DistinctNotLater(ranked);
    }
    forall e | Some(e) in stocks
      ensures e.rank.Some? && 1 <= e.rank.value <= |ranked| && ranked[e.rank.value - 1] == e
    {
      var i :| 0 <= i < |ranked| && ranked[i] == e;
      assert RankPointsBack(ranked, i, |ranked|);
    }
  }

  /** A row of the stock_rankings history table. */
  datatype HistoryRow = HistoryRow(date: string, ticker: string, earningsYield: real, roc: real, rank: int)

  /** The part of save_ranked_stocks that is not I/O: it ranks the records
      first (in place, as rank_stocks does), then builds one history row per
      ranked record, best first, stamped with the run's date. */
  method SaveRankedStocks(stocks: seq<Option<StockEntry>>, date: string) returns (rows: seq<HistoryRow>)
    modifies set e | e in Truthy(stocks)
    ensures |rows| == |Truthy(stocks)|
    ensures forall i :: 0 <= i < |rows| ==>
              var e := SortDescending(Truthy(stocks))[i];
              && rows[i].date == date && rows[i].ticker == e.stock.ticker
              && rows[i].earningsYield == e.stock.earningsYield && rows[i].roc == e.stock.roc
              && e.rank == Some(rows[i].rank)
    ensures Distinct(Truthy(stocks)) ==> forall i :: 0 <= i < |rows| ==> rows[i].rank == i + 1
    ensures var ranked := SortDescending(Truthy(stocks));
            forall i :: 0 <= i < |ranked| ==> RankPointsBack(ranked, i, |ranked|)
    ensures var ranked := SortDescending(Truthy(stocks));
            forall e :: Some(e) in stocks ==>
              e.rank.Some? && 1 <= e.rank.value <= |ranked| && ranked[e.rank.value - 1] == e
  {
    var ranked := RankStocks(stocks);
    assert forall i :: 0 <= i < |ranked| ==> ranked[i].rank.Some? by {
      forall i | 0 <= i < |ranked| ensures ranked[i].rank.Some? {
        assert RankPointsBack(ranked, i, |ranked|);
      }
    }
    rows := seq(|ranked|, i requires 0 <= i < |ranked| && ranked[i].rank.Some? reads ranked =>
      HistoryRow(date, ranked[i].stock.ticker, ranked[i].stock.earningsYield, ranked[i].stock.roc, ranked[i].rank.value));
  }
}
