/** Read-side aggregation over the transaction table: the account balance,
    the per-category summary and the rows of the ASCII bar chart. */
module Analysis {
  import opened Records
  import opened Storage

  /** The sum of the amounts of `s`. */
  function Total(s: seq<Txn>): int
  {
    if s == [] then 0 else Total(s[..|s| - 1]) + s[|s| - 1].amount
  }

  lemma TotalAppend(s: seq<Txn>, t: Txn)
    ensures Total(s + [t]) == Total(s) + t.amount
  {
    assert (s + [t])[..|s|] == s;
  }

  // ---------------------------------------------------------------------
  // Account balance
  // ---------------------------------------------------------------------

  /** The balance filters: unlike the transaction query they are tested
      against None only, so an account id of 0 does restrict the sum. */
  predicate CountsToBalance(t: Txn, accountId: Option<int>, endDate: Option<int>)
  {
    && (accountId.Some? ==> t.accountId == accountId.value)
    && (endDate.Some? ==> t.date <= endDate.value)
  }

  /** The sum of the amounts of the transactions that pass the balance
      filters; 0, never absent, when none does. */
  function AccountBalance(txns: seq<Txn>, accountId: Option<int>, endDate: Option<int>): (r: int)
    ensures (forall t :: t in txns ==> !CountsToBalance(t, accountId, endDate)) ==> r == 0
  {
    if txns == [] then 0
    else
      var last := txns[|txns| - 1];
      AccountBalance(txns[..|txns| - 1], accountId, endDate)
        + (if CountsToBalance(last, accountId, endDate) then last.amount else 0)
  }

  /** The balance of two runs of transactions is the sum of their balances;
      in particular a new transaction moves the balance by its amount
      exactly when it passes the filters. */
  lemma {:induction false} BalanceConcat(a: seq<Txn>, b: seq<Txn>, accountId: Option<int>, endDate: Option<int>)
    ensures AccountBalance(a + b, accountId, endDate)
         == AccountBalance(a, accountId, endDate) + AccountBalance(b, accountId, endDate)
  {
    if b == [] {
      assert a + b == a;
    } else {
      var front := b[..|b| - 1];
      BalanceConcat(a, front, accountId, endDate);
      assert (a + b)[..|a + b| - 1] == a + front;
    }
  }

  /** For any account filter other than 0, the balance is the total of what
      the transaction query returns for the same account and end date. */
  lemma {:induction false} BalanceIsQueryTotal(txns: seq<Txn>, accountId: Option<int>, endDate: Option<int>)
    requires accountId != Some(0)
    ensures AccountBalance(txns, accountId, endDate)
         == Total(Query(txns, TxnFilter(None, endDate, None, accountId)))
  {
    if txns != [] {
      var f := TxnFilter(None, endDate, None, accountId);
      var front, last := txns[..|txns| - 1], txns[|txns| - 1];
      BalanceIsQueryTotal(front, accountId, endDate);
      var q := Query(front, f);
      assert Query(txns, f) == q + (if Matches(last, f) then [last] else []);
      assert AccountBalance(txns, accountId, endDate)
          == AccountBalance(front, accountId, endDate) + (if CountsToBalance(last, accountId, endDate) then last.amount else 0);
      if Matches(last, f) {
        assert CountsToBalance(last, accountId, endDate);
        TotalAppend(q, last);
      } else {
        assert !CountsToBalance(last, accountId, endDate);
        assert q + [] == q;
      }
    }
  }

  /** At account id 0 the two filters part ways, for every table: the query
      ignores the falsy account id, while the balance keeps only account 0,
      so it is 0 when no stored transaction belongs to account 0. A
      one-row table shows both at once. */
  lemma BalanceAndQueryDifferAtZero(txns: seq<Txn>, startDate: Option<int>, endDate: Option<int>,
                                    category: Option<string>)
    ensures Query(txns, TxnFilter(startDate, endDate, category, Some(0)))
         == Query(txns, TxnFilter(startDate, endDate, category, None))
    ensures (forall t :: t in txns ==> t.accountId != 0) ==> AccountBalance(txns, Some(0), endDate) == 0
    ensures var one := [Txn(1, 0, "salary", 500, None, 7)];
            AccountBalance(one, Some(0), None) == 0
            && Total(Query(one, TxnFilter(None, None, None, Some(0)))) == 500
  {
    QueryIgnoresAccountZero(txns, TxnFilter(startDate, endDate, category, Some(0)));
    BalanceWithoutAccount(txns, 0, endDate);
    var one := [Txn(1, 0, "salary", 500, None, 7)];
    var f := TxnFilter(None, None, None, Some(0));
    assert one[..0] == [];
    assert Query(one, f) == Query([], f) + [one[0]];
  }

  /** The balance of an account none of whose transactions is stored is 0. */
  lemma BalanceWithoutAccount(txns: seq<Txn>, accountId: int, endDate: Option<int>)
    ensures (forall t :: t in txns ==> t.accountId != accountId) ==> AccountBalance(txns, Some(accountId), endDate) == 0
  {
    if forall t :: t in txns ==> t.accountId != accountId {
      assert forall t :: t in txns ==> !CountsToBalance(t, Some(accountId), endDate);
    }
  }

  /** An account id of 0 in the query filter is the same as none. */
  lemma {:induction false} QueryIgnoresAccountZero(txns: seq<Txn>, f: TxnFilter)
    requires f.accountId == Some(0)
    ensures Query(txns, f) == Query(txns, f.(accountId := None))
  {
    if txns != [] {
      QueryIgnoresAccountZero(txns[..|txns| - 1], f);
    }
  }

  // ---------------------------------------------------------------------
  // Category summary
  // ---------------------------------------------------------------------

  const Uncategorized := "Uncategorized"

  /** The key a transaction is summed under: its category, or
      "Uncategorized" when the category is None or empty. */
  function Effective(t: Txn): string
  {
    if HasText(t.category) then t.category.value else Uncategorized
  }

  /** The total of the transactions whose key lies in `keys`. */
  function SumIn(s: seq<Txn>, keys: set<string>): int
  {
    if s == [] then 0
    else
      var last := s[|s| - 1];
      SumIn(s[..|s| - 1], keys) + (if Effective(last) in keys then last.amount else 0)
  }

  lemma SumInAppend(s: seq<Txn>, t: Txn, keys: set<string>)
    ensures SumIn(s + [t], keys) == SumIn(s, keys) + (if Effective(t) in keys then t.amount else 0)
  {
    assert (s + [t])[..|s|] == s;
  }

  /** The total of the transactions summed under `c`. */
  function SumFor(s: seq<Txn>, c: string): int
  {
    SumIn(s, {c})
  }

  /** The keys of `s` in the order their first transaction appears. */
  function FirstSeen(s: seq<Txn>): (r: seq<string>)
    ensures Distinct(r)
    ensures forall c :: c in r <==> exists i :: 0 <= i < |s| && Effective(s[i]) == c
  {
    if s == [] then []
    else
      var front := s[..|s| - 1];
      var c := Effective(s[|s| - 1]);
      var rest := FirstSeen(front);
      assert forall i :: 0 <= i < |front| ==> front[i] == s[i];
      if c in rest then rest else rest + [c]
  }

  lemma FirstSeenAppend(s: seq<Txn>, t: Txn)
    ensures FirstSeen(s + [t]) == if Effective(t) in FirstSeen(s) then FirstSeen(s) else FirstSeen(s) + [Effective(t)]
  {
    assert (s + [t])[..|s|] == s;
  }

  /** One entry of the summary dictionary, in insertion order. */
  datatype Entry = Entry(category: string, amount: int)

  function Keys(e: seq<Entry>): (r: seq<string>)
    ensures |r| == |e|
    ensures forall i :: 0 <= i < |e| ==> r[i] == e[i].category
  {
    seq(|e|, i requires 0 <= i < |e| => e[i].category)
  }

  /** Where a key sits in the summary, or |e| when it is not there yet. */
  function Find(e: seq<Entry>, c: string): (k: nat)
    ensures k <= |e|
    ensures k < |e| ==> e[k].category == c
    ensures k == |e| ==> c !in Keys(e)
  {
    if e == [] then 0
    else if e[|e| - 1].category == c then |e| - 1
    else
      var k := Find(e[..|e| - 1], c);
      assert Keys(e) == Keys(e[..|e| - 1]) + [e[|e| - 1].category];
      if k < |e| - 1 then k else |e|
  }

  /** Sums the transactions that pass the date and account filters by key,
      in the order keys are first met. */
  method CategorySummary(txns: seq<Txn>, startDate: Option<int>, endDate: Option<int>,
                         accountId: Option<int>)
    returns (summary: seq<Entry>)
    ensures Keys(summary) == FirstSeen(Query(txns, TxnFilter(startDate, endDate, None, accountId)))
    ensures forall i :: 0 <= i < |summary| ==>
      summary[i].amount == SumFor(Query(txns, TxnFilter(startDate, endDate, None, accountId)), summary[i].category)
  {
    var matched := Query(txns, TxnFilter(startDate, endDate, None, accountId));
    summary := SumByCategory(matched);
  }

  /** The accumulation loop: each transaction's amount is added to the entry
      of its key, a new key getting a new entry at the end. */
  method SumByCategory(matched: seq<Txn>) returns (summary: seq<Entry>)
    ensures Keys(summary) == FirstSeen(matched)
    ensures forall i :: 0 <= i < |summary| ==> summary[i].amount == SumFor(matched, summary[i].category)
  {
    summary := [];
    for i := 0 to |matched|
      invariant Keys(summary) == FirstSeen(matched[..i])
      invariant forall j :: 0 <= j < |summary| ==> summary[j].amount == SumFor(matched[..i], summary[j].category)
    {
      var t := matched[i];
      var c := Effective(t);
      ghost var before := matched[..i];
      assert matched[..i + 1] == before + [t];
      var k := Find(summary, c);
      var updated;
      if k < |summary| {
        updated := summary[k := Entry(c, summary[k].amount + t.amount)];
      } else {
        updated := summary + [Entry(c, t.amount)];
      }
      SummaryStep(before, t, summary, k, updated);
      summary := updated;
    }
    assert matched[..|matched|] == matched;
  }

  /** Adding one transaction to the entry of its key, or appending a new
      entry for it, keeps the keys in first-seen order and every entry
      equal to the sum of its key. */
  lemma SummaryStep(before: seq<Txn>, t: Txn, summary: seq<Entry>, k: nat, updated: seq<Entry>)
    requires Keys(summary) == FirstSeen(before)
    requires forall j :: 0 <= j < |summary| ==> summary[j].amount == SumFor(before, summary[j].category)
    requires k <= |summary|
    requires k < |summary| ==> summary[k].category == Effective(t)
    requires k == |summary| ==> Effective(t) !in Keys(summary)
    requires updated == if k < |summary| then summary[k := Entry(Effective(t), summary[k].amount + t.amount)]
                        else summary + [Entry(Effective(t), t.amount)]
    ensures Keys(updated) == FirstSeen(before + [t])
    ensures forall j :: 0 <= j < |updated| ==> updated[j].amount == SumFor(before + [t], updated[j].category)
  {
    var c := Effective(t);
    FirstSeenAppend(before, t);
    if k < |summary| {
      assert Keys(updated) == Keys(summary);
    } else {
      assert Keys(updated) == Keys(summary) + [c];
    }
    forall j | 0 <= j < |updated|
      ensures updated[j].amount == SumFor(before + [t], updated[j].category)
    {
      var d := updated[j].category;
      SumInAppend(before, t, {d});
      if j == k {
        assert d == c;
        if k == |summary| {
          UnseenSumsToZero(before, c);
        }
      } else {
        assert updated[j] == summary[j];
        assert Keys(summary)[j] != c by {
          if k < |summary| {
            assert Keys(summary)[j] != Keys(summary)[k];
          } else {
            assert Keys(summary)[j] in Keys(summary);
          }
        }
      }
    }
  }

  /** A key no transaction is summed under has sum 0. */
  lemma {:induction false} UnseenSumsToZero(s: seq<Txn>, c: string)
    requires c !in FirstSeen(s)
    ensures SumFor(s, c) == 0
  {
    if s != [] {
      var front := s[..|s| - 1];
      forall i | 0 <= i < |front| ensures Effective(front[i]) != c {
        assert front[i] == s[i];
      }
      UnseenSumsToZero(front, c);
      assert Effective(s[|s| - 1]) != c;
    }
  }

  /** Summing over a union of disjoint key sets adds the two sums. */
  lemma {:induction false} SumInUnion(s: seq<Txn>, a: set<string>, b: set<string>)
    requires a !! b
    ensures SumIn(s, a + b) == SumIn(s, a) + SumIn(s, b)
  {
    if s != [] {
      SumInUnion(s[..|s| - 1], a, b);
    }
  }

  /** Summing over a key set that covers every transaction gives the total. */
  lemma {:induction false} SumInCovering(s: seq<Txn>, keys: set<string>)
    requires forall i :: 0 <= i < |s| ==> Effective(s[i]) in keys
    ensures SumIn(s, keys) == Total(s)
  {
    if s != [] {
      SumInCovering(s[..|s| - 1], keys);
    }
  }

  function EntriesTotal(e: seq<Entry>): int
  {
    if e == [] then 0 else EntriesTotal(e[..|e| - 1]) + e[|e| - 1].amount
  }

  lemma {:induction false} EntriesTotalIsSumIn(s: seq<Txn>, e: seq<Entry>)
    requires Distinct(Keys(e))
    requires forall i :: 0 <= i < |e| ==> e[i].amount == SumFor(s, e[i].category)
    ensures EntriesTotal(e) == SumIn(s, set c | c in Keys(e))
  {
    if e == [] {
      assert (set c | c in Keys(e)) == {};
      SumInEmpty(s);
    } else {
      var front, last := e[..|e| - 1], e[|e| - 1];
      assert Keys(e) == Keys(front) + [last.category];
      assert Distinct(Keys(front)) by {
        forall i, j | 0 <= i < j < |front| ensures Keys(front)[i] != Keys(front)[j] {
          assert Keys(e)[i] != Keys(e)[j];
        }
      }
      assert last.category !in Keys(front) by {
        forall i | 0 <= i < |front| ensures Keys(front)[i] != last.category {
          assert Keys(e)[i] != Keys(e)[|e| - 1];
        }
      }
      EntriesTotalIsSumIn(s, front);
      var ks := set c | c in Keys(front);
      assert (set c | c in Keys(e)) == ks + {last.category};
      SumInUnion(s, ks, {last.category});
    }
  }

  lemma {:induction false} SumInEmpty(s: seq<Txn>)
    ensures SumIn(s, {}) == 0
  {
    if s != [] {
      SumInEmpty(s[..|s| - 1]);
    }
  }

  /** The values of any summary whose keys are the first-seen keys of `s`
      and whose values are the per-key sums add up to the total of `s`. */
  lemma SummaryTotal(s: seq<Txn>, e: seq<Entry>)
    requires Keys(e) == FirstSeen(s)
    requires forall i :: 0 <= i < |e| ==> e[i].amount == SumFor(s, e[i].category)
    ensures EntriesTotal(e) == Total(s)
  {
    EntriesTotalIsSumIn(s, e);
    forall i | 0 <= i < |s| ensures Effective(s[i]) in (set c | c in Keys(e)) {
      assert Effective(s[i]) in FirstSeen(s);
    }
    SumInCovering(s, set c | c in Keys(e));
  }

  /** Transactions without a category name all land under the single key
      "Uncategorized", which then carries their whole total. */
  /** The transactions, in table order, whose category is None or empty. */
  function Unnamed(s: seq<Txn>): (r: seq<Txn>)
    ensures forall t :: t in r <==> t in s && !HasText(t.category)
  {
    if s == [] then []
    else
      var last := s[|s| - 1];
      var front := s[..|s| - 1];
      assert s == front + [last];
      Unnamed(front) + (if HasText(last.category) then [] else [last])
  }

  /** The "Uncategorized" entry of any table collects every transaction with
      a missing or empty category, together with any transaction whose
      category is literally "Uncategorized"; the key is present whenever
      one such transaction exists. */
  lemma UncategorizedCollects(s: seq<Txn>)
    ensures SumFor(s, Uncategorized)
         == Total(Unnamed(s)) + Total(Query(s, TxnFilter(None, None, Some(Uncategorized), None)))
    ensures Unnamed(s) != [] ==> Uncategorized in FirstSeen(s)
  {
    UncategorizedSum(s, TxnFilter(None, None, Some(Uncategorized), None));
    if Unnamed(s) != [] {
      var t := Unnamed(s)[0];
      assert t in s;
      var i :| 0 <= i < |s| && s[i] == t;
      assert Effective(s[i]) == Uncategorized;
    }
  }

  /** The sum half of `UncategorizedCollects`, by induction on the table. */
  lemma {:induction false} UncategorizedSum(s: seq<Txn>, f: TxnFilter)
    requires f == TxnFilter(None, None, Some(Uncategorized), None)
    ensures SumFor(s, Uncategorized) == Total(Unnamed(s)) + Total(Query(s, f))
  {
    if s != [] {
      var front, last := s[..|s| - 1], s[|s| - 1];
      assert s == front + [last];
      UncategorizedSum(front, f);
      SumInAppend(front, last, {Uncategorized});
      QueryAppend(front, last, f);
      UnnamedAppend(front, last);
      assert Matches(last, f) <==> last.category == Some(Uncategorized);
      var u, q := Unnamed(front), Query(front, f);
      if !HasText(last.category) {
        TotalAppend(u, last);
        assert q + [] == q;
      } else if last.category == Some(Uncategorized) {
        TotalAppend(q, last);
        assert u + [] == u;
      } else {
        assert u + [] == u && q + [] == q;
      }
    }
  }

  lemma UnnamedAppend(s: seq<Txn>, t: Txn)
    ensures Unnamed(s + [t]) == Unnamed(s) + (if HasText(t.category) then [] else [t])
  {
    assert (s + [t])[..|s|] == s;
  }

  /** A table in which no transaction has a category name has the single
      key "Uncategorized", which carries the whole total. */
  lemma {:induction false} AllUncategorized(s: seq<Txn>)
    requires forall i :: 0 <= i < |s| ==> !HasText(s[i].category)
    ensures SumFor(s, Uncategorized) == Total(s)
    ensures s != [] ==> FirstSeen(s) == [Uncategorized]
  {
    if s != [] {
      AllUncategorized(s[..|s| - 1]);
    }
  }

  // ---------------------------------------------------------------------
  // ASCII bar chart
  // ---------------------------------------------------------------------

  /** One row of the chart: the key, the absolute amount and the number of
      bar characters. */
  datatype Bar = Bar(category: string, magnitude: int, length: int)

  /** The chart: the "No data available" sentinel, the rows, or the
      division by zero that a filtered set of zeros runs into. */
  datatype Chart = NoData | Bars(rows: seq<Bar>) | DivisionUndefined

  const NoDataText := "No data available"

  function Abs(x: int): nat
  {
    if x < 0 then -x else x
  }

  /** The entries whose sign matches `showPositive`; zero counts as positive. */
  function SignFilter(data: seq<Entry>, showPositive: bool): (r: seq<Entry>)
    ensures forall e :: e in r <==> e in data && (e.amount >= 0) == showPositive
    ensures |r| <= |data|
  {
    if data == [] then []
    else
      var front, last := data[..|data| - 1], data[|data| - 1];
      assert data == front + [last];
      SignFilter(front, showPositive) + (if (last.amount >= 0) == showPositive then [last] else [])
  }

  /** The largest absolute amount, 0 for no entries. */
  function MaxMagnitude(s: seq<Entry>): (m: nat)
    ensures forall i :: 0 <= i < |s| ==> Abs(s[i].amount) <= m
    ensures s != [] ==> exists i :: 0 <= i < |s| && Abs(s[i].amount) == m
    ensures s == [] ==> m == 0
  {
    if s == [] then 0
    else
      var rest := MaxMagnitude(s[1..]);
      assert forall i :: 1 <= i < |s| ==> s[i] == s[1..][i - 1];
      if Abs(s[0].amount) >= rest then Abs(s[0].amount) else rest
  }

  /** Non-increasing absolute amounts. */
  ghost predicate ByMagnitude(s: seq<Entry>)
  {
    forall i, j :: 0 <= i < j < |s| ==> Abs(s[i].amount) >= Abs(s[j].amount)
  }

  /** Places `e` before the first entry it is not smaller than, so that of
      two equal amounts the earlier one stays first. */
  function Insert(e: Entry, s: seq<Entry>): (r: seq<Entry>)
    requires ByMagnitude(s)
    ensures ByMagnitude(r)
    ensures multiset(r) == multiset(s) + multiset{e}
    ensures |r| == |s| + 1
    ensures r[0] == e || (s != [] && r[0] == s[0])
  {
    if s == [] || Abs(e.amount) >= Abs(s[0].amount) then [e] + s
    else
      var rest := Insert(e, s[1..]);
      assert s == [s[0]] + s[1..];
      [s[0]] + rest
  }

  /** A stable sort on descending absolute amount. */
  function SortByMagnitude(s: seq<Entry>): (r: seq<Entry>)
    ensures ByMagnitude(r)
    ensures multiset(r) == multiset(s)
    ensures |r| == |s|
  {
    if s == [] then []
    else
      assert s == [s[0]] + s[1..];
      Insert(s[0], SortByMagnitude(s[1..]))
  }

  /** The entries the chart draws, in the order it draws them. */
  function Ranked(data: seq<Entry>, showPositive: bool): (r: seq<Entry>)
    ensures ByMagnitude(r)
    ensures multiset(r) == multiset(SignFilter(data, showPositive))
    ensures |r| == |SignFilter(data, showPositive)|
    ensures forall e :: e in r <==> e in data && (e.amount >= 0) == showPositive
    ensures forall i :: 0 <= i < |r| ==> Abs(r[i].amount) <= MaxMagnitude(SignFilter(data, showPositive))
  {
    var filtered := SignFilter(data, showPositive);
    var r := SortByMagnitude(filtered);
    assert forall e :: e in r <==> e in multiset(r);
    forall i | 0 <= i < |r| ensures Abs(r[i].amount) <= MaxMagnitude(filtered) {
      assert r[i] in multiset(filtered);
      var j :| 0 <= j < |filtered| && filtered[j] == r[i];
    }
    r
  }

  /** Integer division truncating toward zero, as Python's int() does. */
  function TruncDiv(n: int, d: int): (q: int)
    requires 0 < d
    ensures 0 <= n ==> 0 <= q && q * d <= n < q * d + d
    ensures n < 0 ==> q <= 0 && q * d - d < n <= q * d
  {
    if n >= 0 then n / d else -((-n) / d)
  }

  /** The bar length int(magnitude / maxVal * width), computed exactly. */
  function BarLength(magnitude: int, maxVal: int, width: int): (r: int)
    requires 0 < maxVal
    ensures 0 <= magnitude <= maxVal && 0 <= width ==> 0 <= r <= width
    ensures 0 <= magnitude <= maxVal && 0 < width ==> (r == width <==> magnitude == maxVal)
    ensures 0 <= magnitude <= maxVal && width < 0 ==> width <= r <= 0
  {
    BarLengthBounds(magnitude, maxVal, width);
    TruncDiv(magnitude * width, maxVal)
  }

  lemma BarLengthBounds(m: int, maxVal: int, w: int)
    requires 0 < maxVal
    ensures 0 <= m <= maxVal && 0 <= w ==> 0 <= TruncDiv(m * w, maxVal) <= w
    ensures 0 <= m <= maxVal && 0 < w ==> (TruncDiv(m * w, maxVal) == w <==> m == maxVal)
    ensures 0 <= m <= maxVal && w < 0 ==> w <= TruncDiv(m * w, maxVal) <= 0
  {
    if 0 <= m <= maxVal {
      if 0 <= w {
        ScaledQuotient(m, maxVal, w);
      } else {
        ScaledQuotient(m, maxVal, -w);
        assert m * w == -(m * (-w));
      }
    }
  }

  /** floor(m * w / d) lies in [0, w], and reaches w exactly when m == d. */
  lemma ScaledQuotient(m: int, d: int, w: int)
    requires 0 <= m <= d && 0 < d && 0 <= w
    ensures 0 <= m * w && 0 <= (m * w) / d <= w
    ensures 0 < w ==> ((m * w) / d == w <==> m == d)
  {
    var n := m * w;
    MulMonotone(m, d, w);
    var q := n / d;
    assert d * q <= n < d * q + d;
    assert d * q + d == d * (q + 1);
    assert d * w + d == d * (w + 1);
    MulCancelLt(d, q, w + 1);
    if m == d {
      MulCancelLt(d, w, q + 1);
    } else if 0 < w {
      MulStrict(m, d, w);
      MulCancelLt(d, q, w);
    }
  }

  lemma MulMonotone(m: int, d: int, w: int)
    requires 0 <= m <= d && 0 <= w
    ensures 0 <= m * w <= d * w
  {
  }

  lemma MulStrict(m: int, d: int, w: int)
    requires 0 <= m < d && 0 < w
    ensures m * w < d * w
  {
  }

  lemma MulCancelLt(d: int, x: int, y: int)
    requires 0 < d && d * x < d * y
    ensures x < y
  {
  }

  /** The row drawn for one entry against the largest absolute amount. */
  function RowFor(e: Entry, maxVal: int, width: int): (r: Bar)
    requires 0 < maxVal
    ensures r.category == e.category && r.magnitude == Abs(e.amount)
    ensures Abs(e.amount) <= maxVal && 0 <= width ==> 0 <= r.length <= width
    ensures Abs(e.amount) <= maxVal && 0 < width ==> (r.length == width <==> Abs(e.amount) == maxVal)
  {
    Bar(e.category, Abs(e.amount), BarLength(Abs(e.amount), maxVal, width))
  }

  /** The chart for a summary: "No data available" when no entry has the
      requested sign, a division by zero when all of them are 0, and
      otherwise one row per such entry, largest absolute amount first. */
  function BarChart(data: seq<Entry>, width: int, showPositive: bool): Chart
  {
    var filtered := SignFilter(data, showPositive);
    if data == [] || filtered == [] then NoData
    else
      var maxVal := MaxMagnitude(filtered);
      if maxVal == 0 then DivisionUndefined
      else
        var ranked := Ranked(data, showPositive);
        Bars(seq(|ranked|, i requires 0 <= i < |ranked| => RowFor(ranked[i], maxVal, width)))
  }

  /** The sentinel is produced exactly when no entry has the requested sign. */
  lemma ChartNoData(data: seq<Entry>, width: int, showPositive: bool)
    ensures BarChart(data, width, showPositive).NoData?
        <==> forall e :: e in data ==> (e.amount >= 0) != showPositive
  {
    var filtered := SignFilter(data, showPositive);
    if filtered != [] {
      assert filtered[0] in filtered;
    }
  }

  /** The division by zero happens only for the positive chart, and only
      when every non-negative entry is 0. */
  lemma ChartDivisionUndefined(data: seq<Entry>, width: int, showPositive: bool)
    ensures BarChart(data, width, showPositive).DivisionUndefined?
        <==> showPositive && (exists e :: e in data && e.amount >= 0)
                          && (forall e :: e in data && e.amount >= 0 ==> e.amount == 0)
  {
    var filtered := SignFilter(data, showPositive);
    if filtered != [] {
      assert filtered[0] in filtered;
      var m := MaxMagnitude(filtered);
      if m == 0 {
        forall e | e in data && (e.amount >= 0) == showPositive ensures e.amount == 0 {
          var i :| 0 <= i < |filtered| && filtered[i] == e;
        }
      } else {
        var i :| 0 <= i < |filtered| && Abs(filtered[i].amount) == m;
        assert filtered[i] in data;
      }
    }
  }

  /** The rows of a drawn chart, in terms of the ranked entries. */
  lemma ChartRowsAreRanked(data: seq<Entry>, width: int, showPositive: bool)
    requires BarChart(data, width, showPositive).Bars?
    ensures var rows := BarChart(data, width, showPositive).rows;
            var ranked := Ranked(data, showPositive);
      && |rows| == |ranked|
      && forall i :: 0 <= i < |rows| ==>
           rows[i].category == ranked[i].category && rows[i].magnitude == Abs(ranked[i].amount)
  {
    var filtered := SignFilter(data, showPositive);
    var maxVal := MaxMagnitude(filtered);
    var ranked := Ranked(data, showPositive);
    var rows := seq(|ranked|, i requires 0 <= i < |ranked| => RowFor(ranked[i], maxVal, width));
    assert BarChart(data, width, showPositive).rows == rows;
  }

  /** One row per entry of the requested sign, each showing an entry of
      `data` with its absolute amount. */
  lemma ChartRowsFromData(data: seq<Entry>, width: int, showPositive: bool)
    requires BarChart(data, width, showPositive).Bars?
    ensures var rows := BarChart(data, width, showPositive).rows;
      && |rows| == |SignFilter(data, showPositive)|
      && forall i :: 0 <= i < |rows| ==>
           Entry(rows[i].category, if showPositive then rows[i].magnitude else -rows[i].magnitude) in data
  {
    ChartRowsAreRanked(data, width, showPositive);
    var ranked := Ranked(data, showPositive);
    var rows := BarChart(data, width, showPositive).rows;
    forall i | 0 <= i < |rows|
      ensures Entry(rows[i].category, if showPositive then rows[i].magnitude else -rows[i].magnitude) in data
    {
      var e := ranked[i];
      assert e in ranked;
      assert e in data && (e.amount >= 0) == showPositive;
      assert Entry(rows[i].category, if showPositive then rows[i].magnitude else -rows[i].magnitude) == e;
    }
  }

  /** The rows are ordered by non-increasing absolute amount. */
  lemma ChartRowsOrdered(data: seq<Entry>, width: int, showPositive: bool)
    requires BarChart(data, width, showPositive).Bars?
    ensures var rows := BarChart(data, width, showPositive).rows;
      forall i, j :: 0 <= i < j < |rows| ==> rows[i].magnitude >= rows[j].magnitude
  {
    ChartRowsAreRanked(data, width, showPositive);
    var ranked := Ranked(data, showPositive);
    assert ByMagnitude(ranked);
  }

  /** Every bar fits in `width`, and exactly the entries with the largest
      absolute amount get the full width. */
  lemma ChartBarLengths(data: seq<Entry>, width: int, showPositive: bool)
    requires BarChart(data, width, showPositive).Bars?
    ensures var rows := BarChart(data, width, showPositive).rows;
            var maxVal := MaxMagnitude(SignFilter(data, showPositive));
      && (0 <= width ==> forall i :: 0 <= i < |rows| ==> 0 <= rows[i].length <= width)
      && (0 < width ==> forall i :: 0 <= i < |rows| ==> (rows[i].length == width <==> rows[i].magnitude == maxVal))
  {
    var filtered := SignFilter(data, showPositive);
    var maxVal := MaxMagnitude(filtered);
    var ranked := Ranked(data, showPositive);
    var rows := seq(|ranked|, i requires 0 <= i < |ranked| => RowFor(ranked[i], maxVal, width));
    assert BarChart(data, width, showPositive).rows == rows;
    forall i | 0 <= i < |rows|
      ensures 0 <= width ==> 0 <= rows[i].length <= width
      ensures 0 < width ==> (rows[i].length == width <==> rows[i].magnitude == maxVal)
    {
      var m := Abs(ranked[i].amount);
      assert m <= maxVal;
      assert rows[i] == Bar(ranked[i].category, m, BarLength(m, maxVal, width));
    }
  }

  /** The output loop: one row per ranked entry, in order. */
  method DrawRows(ranked: seq<Entry>, maxVal: int, width: int) returns (rows: seq<Bar>)
    requires 0 < maxVal
    ensures |rows| == |ranked|
    ensures forall i :: 0 <= i < |ranked| ==> rows[i] == RowFor(ranked[i], maxVal, width)
  {
    rows := [];
    for i := 0 to |ranked|
      invariant |rows| == i
      invariant forall k :: 0 <= k < i ==> rows[k] == RowFor(ranked[k], maxVal, width)
    {
      rows := rows + [RowFor(ranked[i], maxVal, width)];
    }
  }

  /** Builds the chart rows for the entries whose sign matches
      `showPositive`, largest absolute amount first, each bar scaled
      against the largest absolute amount. */
  method GenerateBarChart(data: seq<Entry>, width: int, showPositive: bool) returns (chart: Chart)
    ensures chart == BarChart(data, width, showPositive)
  {
    var filtered := SignFilter(data, showPositive);
    if data == [] || filtered == [] {
      return NoData;
    }
    var maxVal := MaxMagnitude(filtered);
    if maxVal == 0 {
      return DivisionUndefined;
    }
    var ranked := Ranked(data, showPositive);
    var rows := DrawRows(ranked, maxVal, width);
    ghost var drawn := seq(|ranked|, i requires 0 <= i < |ranked| => RowFor(ranked[i], maxVal, width));
    assert BarChart(data, width, showPositive) == Bars(drawn);
    assert rows == drawn;
    chart := Bars(rows);
  }
}
