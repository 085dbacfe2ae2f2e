/**
 * SettlementVerificationTasklet: the step after the settlement step. It recomputes the
 * ledger's sales total for the date, compares it with the total of the settlements table
 * for that date, and either finishes (with statistics) or fails with the absolute difference
 * and up to ten per-seller mismatch rows.
 */
module Verification {
  import opened Wrappers
  import opened Sums
  import opened Ledger
  import opened Settlements
  import opened Repository

  // ---------------------------------------------------------------------------------------
  // The two totals

  /** The operands of the ledger-side SUM: the qualifying items of date d, keyed by seller. */
  function LedgerEntries(t: LedgerTables, d: int): seq<Entry>
  {
    ItemEntries(QualifyingItems(t.orders, t.items, d))
  }

  /** getOrderItemTotal: COALESCE(SUM(oi.total_price), 0) under the status and window filter. */
  function LedgerTotal(t: LedgerTables, d: int): (total: int)
    ensures QualifyingItems(t.orders, t.items, d) == [] ==> total == 0
  {
    Total(LedgerEntries(t, d))
  }

  /** The ledger-side sellers of date d (GROUP BY oi.seller_id), in ascending order. */
  function LedgerSellers(t: LedgerTables, d: int): (ks: seq<int>)
    ensures Distinct(ks)
    ensures forall k :: k in ks <==> exists it :: it in t.items && Qualifies(t.orders, it, d) && it.sellerId == k
  {
    var q := QualifyingItems(t.orders, t.items, d);
    var es := ItemEntries(q);
    forall it | it in q ensures it.sellerId in SortedKeys(es) {
      var i :| 0 <= i < |q| && q[i] == it;
      assert es[i].key == it.sellerId;
    }
    forall i | 0 <= i < |es| ensures q[i] in t.items && Qualifies(t.orders, q[i], d) {
      assert q[i] in q;
    }
    SortedKeys(es)
  }

  /** One seller's ledger total: SUM(oi.total_price) of its group. */
  function SellerLedgerTotal(t: LedgerTables, d: int, k: int): int
  {
    KeyTotal(LedgerEntries(t, d), k)
  }

  /** The ledger total is the sum of the per-seller group totals. */
  lemma LedgerTotalByGroups(t: LedgerTables, d: int)
    ensures LedgerTotal(t, d) == TotalOver(LedgerSellers(t, d), LedgerEntries(t, d))
  {
    SortedKeysPartition(LedgerEntries(t, d));
  }

  /** WHERE settlement_date = ?: the rows of date d, in table order. */
  function DateRows(rows: seq<SettlementRow>, d: int): (dr: seq<SettlementRow>)
    ensures forall r :: r in dr <==> r in rows && r.settlementDate == d
    ensures |dr| <= |rows|
  {
    if rows == [] then []
    else (if rows[0].settlementDate == d then [rows[0]] else []) + DateRows(rows[1..], d)
  }

  lemma {:induction false} DateRowsAppend(a: seq<SettlementRow>, b: seq<SettlementRow>, d: int)
    ensures DateRows(a + b, d) == DateRows(a, d) + DateRows(b, d)
  {
    if a == [] {
      assert a + b == b;
    } else {
      assert (a + b)[1..] == a[1..] + b;
      DateRowsAppend(a[1..], b, d);
    }
  }

  /** The (seller_id, total_sales) pair of each row. */
  function SalesEntries(rs: seq<SettlementRow>): (es: seq<Entry>)
    ensures |es| == |rs|
    ensures forall i :: 0 <= i < |rs| ==> es[i] == Entry(rs[i].sellerId, rs[i].totalSales)
  {
    if rs == [] then [] else [Entry(rs[0].sellerId, rs[0].totalSales)] + SalesEntries(rs[1..])
  }

  lemma SalesEntriesAppend(a: seq<SettlementRow>, b: seq<SettlementRow>)
    ensures SalesEntries(a + b) == SalesEntries(a) + SalesEntries(b)
  {
  }

  /** getSettlementTotal: COALESCE(SUM(total_sales), 0) over the rows of date d. */
  function SettlementTotal(rows: seq<SettlementRow>, d: int): (total: int)
    ensures DateRows(rows, d) == [] ==> total == 0
  {
    Total(SalesEntries(DateRows(rows, d)))
  }

  /** Rows of other dates do not count, and the total of two tables is the sum of their totals. */
  lemma SettlementTotalAppend(a: seq<SettlementRow>, b: seq<SettlementRow>, d: int)
    ensures SettlementTotal(a + b, d) == SettlementTotal(a, d) + SettlementTotal(b, d)
  {
    DateRowsAppend(a, b, d);
    SalesEntriesAppend(DateRows(a, d), DateRows(b, d));
    TotalAppend(SalesEntries(DateRows(a, d)), SalesEntries(DateRows(b, d)));
  }

  /** The group of seller k among the date's rows is empty when no row carries (k, d). */
  lemma {:induction false} SalesKeyTotalAbsent(rows: seq<SettlementRow>, d: int, k: int)
    requires forall i :: 0 <= i < |rows| ==> !HasKey(rows[i], k, d)
    ensures KeyTotal(SalesEntries(DateRows(rows, d)), k) == 0
  {
    if rows != [] {
      SalesKeyTotalAbsent(rows[1..], d, k);
      var head := if rows[0].settlementDate == d then [rows[0]] else [];
      SalesEntriesAppend(head, DateRows(rows[1..], d));
      KeyTotalAppend(SalesEntries(head), SalesEntries(DateRows(rows[1..], d)), k);
    }
  }

  /** With unique keys, the group of seller k among the date's rows is its one row's total_sales. */
  lemma {:induction false} SalesKeyTotalUnique(rows: seq<SettlementRow>, d: int, i: int)
    requires UniqueKeys(rows)
    requires 0 <= i < |rows| && rows[i].settlementDate == d
    ensures KeyTotal(SalesEntries(DateRows(rows, d)), rows[i].sellerId) == rows[i].totalSales
  {
    var k := rows[i].sellerId;
    var head := if rows[0].settlementDate == d then [rows[0]] else [];
    SalesEntriesAppend(head, DateRows(rows[1..], d));
    KeyTotalAppend(SalesEntries(head), SalesEntries(DateRows(rows[1..], d)), k);
    if i == 0 {
      forall j | 0 <= j < |rows[1..]| ensures !HasKey(rows[1..][j], k, d) {
        assert rows[1..][j] == rows[j + 1];
      }
      SalesKeyTotalAbsent(rows[1..], d, k);
    } else {
      assert UniqueKeys(rows[1..]) by {
        forall a, b | 0 <= a < b < |rows[1..]|
          ensures rows[1..][a].sellerId != rows[1..][b].sellerId || rows[1..][a].settlementDate != rows[1..][b].settlementDate
        {
          assert rows[1..][a] == rows[a + 1] && rows[1..][b] == rows[b + 1];
        }
      }
      assert rows[1..][i - 1] == rows[i];
      SalesKeyTotalUnique(rows[1..], d, i - 1);
    }
  }

  // ---------------------------------------------------------------------------------------
  // The mismatch details

  /** One row of the mismatch query: the ledger total, the settlement total and their signed difference. */
  datatype MismatchRow = MismatchRow(sellerId: int, orderItemTotal: int, settlementTotal: int, diff: int)

  /** The joined rows of (k, d) whose total_sales differs from the ledger total lt, in table order. */
  function StoredMismatches(k: int, lt: int, rows: seq<SettlementRow>, d: int): (ms: seq<MismatchRow>)
    ensures forall m :: m in ms ==> m.sellerId == k && m.orderItemTotal == lt && m.settlementTotal != lt
    ensures forall m :: m in ms ==> m.diff == lt - m.settlementTotal
    ensures |ms| <= CountKey(rows, k, d)
  {
    if rows == [] then []
    else (if HasKey(rows[0], k, d) && rows[0].totalSales != lt
          then [MismatchRow(k, lt, rows[0].totalSales, lt - rows[0].totalSales)] else [])
         + StoredMismatches(k, lt, rows[1..], d)
  }

  /**
   * LEFT JOIN settlements on (seller, date) for one ledger seller, then the WHERE clause: with
   * no row the seller joins NULL, read as 0; otherwise it joins each of its rows.
   */
  function SellerMismatches(k: int, lt: int, rows: seq<SettlementRow>, d: int): (ms: seq<MismatchRow>)
    ensures forall m :: m in ms ==> m.sellerId == k && m.orderItemTotal == lt && m.settlementTotal != lt
    ensures forall m :: m in ms ==> m.diff == lt - m.settlementTotal
    ensures CountKey(rows, k, d) == 0 ==> (ms == [] <==> lt == 0)
    ensures CountKey(rows, k, d) == 0 && lt != 0 ==> ms == [MismatchRow(k, lt, 0, lt)]
  {
    if CountKey(rows, k, d) == 0 then (if lt != 0 then [MismatchRow(k, lt, 0, lt)] else [])
    else StoredMismatches(k, lt, rows, d)
  }

  /** The mismatch rows of a list of ledger sellers, seller by seller. */
  function Candidates(keys: seq<int>, es: seq<Entry>, rows: seq<SettlementRow>, d: int): seq<MismatchRow>
  {
    if keys == [] then []
    else SellerMismatches(keys[0], KeyTotal(es, keys[0]), rows, d) + Candidates(keys[1..], es, rows, d)
  }

  /** The mismatch query without its LIMIT. */
  function MismatchCandidates(t: LedgerTables, rows: seq<SettlementRow>, d: int): seq<MismatchRow>
  {
    Candidates(LedgerSellers(t, d), LedgerEntries(t, d), rows, d)
  }

  /** A listed stored mismatch is a row of (k, d) whose total differs from lt. */
  lemma {:induction false} StoredMismatchesSound(k: int, lt: int, rows: seq<SettlementRow>, d: int, m: MismatchRow)
    requires m in StoredMismatches(k, lt, rows, d)
    ensures m.sellerId == k && m.orderItemTotal == lt && m.settlementTotal != lt
    ensures m.diff == lt - m.settlementTotal
    ensures exists i :: 0 <= i < |rows| && HasKey(rows[i], k, d) && rows[i].totalSales == m.settlementTotal
  {
    if m !in StoredMismatches(k, lt, rows[1..], d) {
      assert HasKey(rows[0], k, d) && rows[0].totalSales == m.settlementTotal;
    } else {
      StoredMismatchesSound(k, lt, rows[1..], d, m);
      var i :| 0 <= i < |rows[1..]| && HasKey(rows[1..][i], k, d) && rows[1..][i].totalSales == m.settlementTotal;
      assert rows[i + 1] == rows[1..][i];
    }
  }

  /** Every row of (k, d) whose total differs from lt is listed. */
  lemma {:induction false} StoredMismatchesComplete(k: int, lt: int, rows: seq<SettlementRow>, d: int, i: int)
    requires 0 <= i < |rows| && HasKey(rows[i], k, d) && rows[i].totalSales != lt
    ensures MismatchRow(k, lt, rows[i].totalSales, lt - rows[i].totalSales) in StoredMismatches(k, lt, rows, d)
  {
    if i > 0 {
      assert rows[1..][i - 1] == rows[i];
      StoredMismatchesComplete(k, lt, rows[1..], d, i - 1);
    }
  }

  /**
   * Every listed mismatch belongs to a ledger seller, carries that seller's ledger total and a
   * different settlement total (0 for a seller without a row), and the signed difference.
   */
  lemma {:induction false} CandidatesSound(keys: seq<int>, es: seq<Entry>, rows: seq<SettlementRow>, d: int, m: MismatchRow)
    requires m in Candidates(keys, es, rows, d)
    ensures m.sellerId in keys && m.orderItemTotal == KeyTotal(es, m.sellerId)
    ensures m.orderItemTotal != m.settlementTotal && m.diff == m.orderItemTotal - m.settlementTotal
    ensures (CountKey(rows, m.sellerId, d) == 0 && m.settlementTotal == 0)
         || exists i :: 0 <= i < |rows| && HasKey(rows[i], m.sellerId, d) && rows[i].totalSales == m.settlementTotal
  {
    var k := keys[0];
    var lt := KeyTotal(es, k);
    if m in SellerMismatches(k, lt, rows, d) {
      if CountKey(rows, k, d) != 0 {
        StoredMismatchesSound(k, lt, rows, d, m);
      }
    } else {
      CandidatesSound(keys[1..], es, rows, d, m);
    }
  }

  /** Every mismatch row of a listed seller is in the list. */
  lemma {:induction false} CandidatesComplete(keys: seq<int>, es: seq<Entry>, rows: seq<SettlementRow>, d: int,
                                              k: int, m: MismatchRow)
    requires k in keys && m in SellerMismatches(k, KeyTotal(es, k), rows, d)
    ensures m in Candidates(keys, es, rows, d)
  {
    if keys[0] != k {
      CandidatesComplete(keys[1..], es, rows, d, k, m);
    }
  }

  /** A stored row of a ledger seller whose total_sales differs from the ledger total is reported. */
  lemma StoredMismatchListed(t: LedgerTables, rows: seq<SettlementRow>, d: int, i: int, lt: int)
    requires 0 <= i < |rows| && rows[i].settlementDate == d
    requires rows[i].sellerId in LedgerSellers(t, d)
    requires lt == SellerLedgerTotal(t, d, rows[i].sellerId) && rows[i].totalSales != lt
    ensures MismatchRow(rows[i].sellerId, lt, rows[i].totalSales, lt - rows[i].totalSales) in MismatchCandidates(t, rows, d)
  {
    var k := rows[i].sellerId;
    var m := MismatchRow(k, lt, rows[i].totalSales, lt - rows[i].totalSales);
    StoredMismatchesComplete(k, lt, rows, d, i);
    assert CountKey(rows, k, d) != 0 by {
      CountKeyZero(rows, k, d);
    }
    assert m in SellerMismatches(k, lt, rows, d);
    CandidatesComplete(LedgerSellers(t, d), LedgerEntries(t, d), rows, d, k, m);
  }

  /** A ledger seller with a non-zero total and no settlement row is reported against 0. */
  lemma MissingRowListed(t: LedgerTables, rows: seq<SettlementRow>, d: int, k: int)
    requires k in LedgerSellers(t, d) && CountKey(rows, k, d) == 0
    requires SellerLedgerTotal(t, d, k) != 0
    ensures MismatchRow(k, SellerLedgerTotal(t, d, k), 0, SellerLedgerTotal(t, d, k)) in MismatchCandidates(t, rows, d)
  {
    CandidatesComplete(LedgerSellers(t, d), LedgerEntries(t, d), rows, d, k,
                       MismatchRow(k, SellerLedgerTotal(t, d, k), 0, SellerLedgerTotal(t, d, k)));
  }

  /** Every reported seller has a qualifying ledger item: the join is driven by the ledger side. */
  lemma ListedSellersAreLedgerSellers(t: LedgerTables, rows: seq<SettlementRow>, d: int, m: MismatchRow)
    requires m in MismatchCandidates(t, rows, d)
    ensures exists it :: it in t.items && Qualifies(t.orders, it, d) && it.sellerId == m.sellerId
    ensures m.orderItemTotal == SellerLedgerTotal(t, d, m.sellerId) && m.orderItemTotal != m.settlementTotal
  {
    CandidatesSound(LedgerSellers(t, d), LedgerEntries(t, d), rows, d, m);
  }

  /** A row for another seller or date leaves one seller's mismatch rows as they were. */
  lemma {:induction false} SellerMismatchesSkip(k: int, lt: int, r: SettlementRow, rows: seq<SettlementRow>, d: int)
    requires !HasKey(r, k, d)
    ensures SellerMismatches(k, lt, [r] + rows, d) == SellerMismatches(k, lt, rows, d)
  {
    assert ([r] + rows)[1..] == rows;
  }

  lemma {:induction false} CandidatesSkip(keys: seq<int>, es: seq<Entry>, r: SettlementRow, rows: seq<SettlementRow>, d: int)
    requires r.sellerId !in keys
    ensures Candidates(keys, es, [r] + rows, d) == Candidates(keys, es, rows, d)
  {
    if keys != [] {
      SellerMismatchesSkip(keys[0], KeyTotal(es, keys[0]), r, rows, d);
      CandidatesSkip(keys[1..], es, r, rows, d);
    }
  }

  /**
   * A stale row (date d, a seller with no qualifying ledger item) moves the settlement total by
   * its total_sales but never shows up among the mismatch rows.
   */
  lemma StaleRowUnlisted(t: LedgerTables, rows: seq<SettlementRow>, d: int, r: SettlementRow)
    requires r.settlementDate == d && r.sellerId !in LedgerSellers(t, d)
    ensures MismatchCandidates(t, [r] + rows, d) == MismatchCandidates(t, rows, d)
    ensures SettlementTotal([r] + rows, d) == SettlementTotal(rows, d) + r.totalSales
  {
    CandidatesSkip(LedgerSellers(t, d), LedgerEntries(t, d), r, rows, d);
    SettlementTotalAppend([r], rows, d);
    assert DateRows([r], d) == [r];
  }

  /** When nothing is listed, every listed seller's mismatch rows are empty. */
  lemma {:induction false} CandidatesEmpty(keys: seq<int>, es: seq<Entry>, rows: seq<SettlementRow>, d: int, k: int)
    requires Candidates(keys, es, rows, d) == [] && k in keys
    ensures SellerMismatches(k, KeyTotal(es, k), rows, d) == []
  {
    if keys[0] != k {
      CandidatesEmpty(keys[1..], es, rows, d, k);
    }
  }

  /** A seller without mismatch rows has the same total on both sides, given unique keys. */
  lemma SellerReconciled(k: int, es: seq<Entry>, rows: seq<SettlementRow>, d: int)
    requires UniqueKeys(rows)
    requires SellerMismatches(k, KeyTotal(es, k), rows, d) == []
    ensures KeyTotal(SalesEntries(DateRows(rows, d)), k) == KeyTotal(es, k)
  {
    var lt := KeyTotal(es, k);
    CountKeyZero(rows, k, d);
    if CountKey(rows, k, d) == 0 {
      SalesKeyTotalAbsent(rows, d, k);
    } else {
      var i :| 0 <= i < |rows| && HasKey(rows[i], k, d);
      if rows[i].totalSales != lt {
        StoredMismatchesComplete(k, lt, rows, d, i);
      }
      SalesKeyTotalUnique(rows, d, i);
    }
  }

  /**
   * Without duplicate or stale rows for the date, unequal totals always come with at least one
   * mismatch row.
   */
  lemma MismatchDetected(t: LedgerTables, rows: seq<SettlementRow>, d: int)
    requires UniqueKeys(rows)
    requires forall i :: 0 <= i < |rows| && rows[i].settlementDate == d ==> rows[i].sellerId in LedgerSellers(t, d)
    requires LedgerTotal(t, d) != SettlementTotal(rows, d)
    ensures MismatchCandidates(t, rows, d) != []
  {
    var keys := LedgerSellers(t, d);
    var es := LedgerEntries(t, d);
    var sales := SalesEntries(DateRows(rows, d));
    if MismatchCandidates(t, rows, d) == [] {
      forall k | k in keys ensures KeyTotal(sales, k) == KeyTotal(es, k) {
        CandidatesEmpty(keys, es, rows, d, k);
        SellerReconciled(k, es, rows, d);
      }
      TotalOverSame(keys, sales, es);
      forall j | 0 <= j < |sales| ensures sales[j].key in keys {
        var r := DateRows(rows, d)[j];
        assert r in DateRows(rows, d);
        var i :| 0 <= i < |rows| && rows[i] == r;
      }
      Partition(keys, sales);
      LedgerTotalByGroups(t, d);
      assert false;
    }
  }

  // ---------------------------------------------------------------------------------------
  // Statistics and the verdict

  /** The summed columns of the statistics query. */
  datatype Column = TotalSales | CommissionColumn | NetAmountColumn | OrderCount | ItemCount

  function ColumnValue(r: SettlementRow, c: Column): int
  {
    match c
    case TotalSales => r.totalSales
    case CommissionColumn => r.commission
    case NetAmountColumn => r.netAmount
    case OrderCount => r.orderCount
    case ItemCount => r.itemCount
  }

  function SumColumn(rs: seq<SettlementRow>, c: Column): int
  {
    if rs == [] then 0 else ColumnValue(rs[0], c) + SumColumn(rs[1..], c)
  }

  /** SUM over no rows is NULL (None): the statistics query has no COALESCE. */
  function SqlSum(rs: seq<SettlementRow>, c: Column): (s: Option<int>)
    ensures s.None? <==> rs == []
  {
    if rs == [] then None else Some(SumColumn(rs, c))
  }

  datatype Statistics = Statistics(
    sellerCount: nat,
    totalSales: Option<int>,
    totalCommission: Option<int>,
    totalNetAmount: Option<int>,
    totalOrders: Option<int>,
    totalItems: Option<int>)

  /** logSettlementStatistics: COUNT(*) and the sums over the rows of date d. */
  function SettlementStatistics(rows: seq<SettlementRow>, d: int): (s: Statistics)
    ensures s.sellerCount == |DateRows(rows, d)|
    ensures s.sellerCount == 0 <==> s.totalSales.None?
    ensures s.totalSales.None? <==> s.totalCommission.None?
    ensures s.totalSales.None? <==> s.totalNetAmount.None?
    ensures s.totalSales.None? <==> s.totalOrders.None?
    ensures s.totalSales.None? <==> s.totalItems.None?
  {
    var dr := DateRows(rows, d);
    Statistics(|dr|, SqlSum(dr, TotalSales), SqlSum(dr, CommissionColumn), SqlSum(dr, NetAmountColumn),
               SqlSum(dr, OrderCount), SqlSum(dr, ItemCount))
  }

  lemma {:induction false} SumSalesIsTotal(rs: seq<SettlementRow>)
    ensures SumColumn(rs, TotalSales) == Total(SalesEntries(rs))
  {
    if rs != [] {
      assert SalesEntries(rs)[1..] == SalesEntries(rs[1..]);
      SumSalesIsTotal(rs[1..]);
    }
  }

  lemma {:induction false} SumsBalance(rs: seq<SettlementRow>)
    requires forall i :: 0 <= i < |rs| ==> Balanced(rs[i])
    ensures SumColumn(rs, CommissionColumn) + SumColumn(rs, NetAmountColumn) == SumColumn(rs, TotalSales) * 100
  {
    if rs != [] {
      SumsBalance(rs[1..]);
    }
  }

  /**
   * The statistics' sales sum is the settlement total, and on balanced rows the commission
   * and net sums add up to it (both at scale 4).
   */
  lemma StatisticsAgree(rows: seq<SettlementRow>, d: int)
    requires forall i :: 0 <= i < |rows| && rows[i].settlementDate == d ==> Balanced(rows[i])
    ensures SettlementStatistics(rows, d).totalSales.Some? ==>
      SettlementStatistics(rows, d).totalSales.value == SettlementTotal(rows, d)
    ensures SettlementStatistics(rows, d).totalSales.Some? ==>
      SettlementStatistics(rows, d).totalCommission.value + SettlementStatistics(rows, d).totalNetAmount.value
        == SettlementStatistics(rows, d).totalSales.value * 100
  {
    var dr := DateRows(rows, d);
    SumSalesIsTotal(dr);
    forall i | 0 <= i < |dr| ensures Balanced(dr[i]) {
      assert dr[i] in dr;
      var j :| 0 <= j < |rows| && rows[j] == dr[i];
    }
    SumsBalance(dr);
  }

  const MismatchLimit: nat := 10

  /** The step's outcome: FINISHED with the statistics, or the IllegalStateException with its details. */
  datatype Verdict = Finished(stats: Statistics) | Mismatch(diff: int, details: seq<MismatchRow>)

  /** execute, for the target date d. */
  function Verify(t: LedgerTables, rows: seq<SettlementRow>, d: int): (v: Verdict)
    ensures v.Finished? <==> LedgerTotal(t, d) == SettlementTotal(rows, d)
    ensures v.Mismatch? ==> v.diff > 0
    ensures v.Mismatch? ==> (v.diff == LedgerTotal(t, d) - SettlementTotal(rows, d)
                          || v.diff == SettlementTotal(rows, d) - LedgerTotal(t, d))
    ensures v.Mismatch? ==> |v.details| <= MismatchLimit && v.details <= MismatchCandidates(t, rows, d)
    ensures v.Mismatch? && |v.details| < MismatchLimit ==> v.details == MismatchCandidates(t, rows, d)
    ensures v.Finished? ==> v.stats == SettlementStatistics(rows, d)
  {
    var a := LedgerTotal(t, d);
    var b := SettlementTotal(rows, d);
    if a == b then Finished(SettlementStatistics(rows, d))
    else
      var c := MismatchCandidates(t, rows, d);
      Mismatch(if a > b then a - b else b - a, if |c| <= MismatchLimit then c else c[..MismatchLimit])
  }
}
