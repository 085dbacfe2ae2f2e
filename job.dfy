/**
 * SettlementJobConfig: the reader query of the settlement step (filter, group by seller,
 * sum, count, sort), the chunk-oriented settlement step built from reader, processor and
 * writer, and the job that runs the settlement step and then the verification step.
 */
module Job {
  import opened Wrappers
  import opened Sums
  import opened Grades
  import opened Ledger
  import opened Aggregation
  import opened Settlements
  import opened Repository
  import opened Processor
  import opened Writer
  import opened Verification

  /** Items per chunk: each chunk is read, processed and written in one transaction. */
  const ChunkSize: nat := 100

  /** Rows per page of the paging reader; equal to ChunkSize, so a page is a chunk. */
  const PageSize: nat := 100

  // ---------------------------------------------------------------------------------------
  // The reader query

  /**
   * FROM order_items JOIN orders JOIN sellers with the WHERE clause: the item's order
   * qualifies for date d and the item's seller exists in the sellers table.
   */
  predicate ReaderQualifies(t: LedgerTables, it: OrderItem, d: int)
  {
    Qualifies(t.orders, it, d) && it.sellerId in t.sellers
  }

  /** The joined items of date d, in table order. */
  function ReaderItems(t: LedgerTables, items: seq<OrderItem>, d: int): (q: seq<OrderItem>)
    ensures forall it :: it in q <==> it in items && ReaderQualifies(t, it, d)
  {
    if items == [] then []
    else (if ReaderQualifies(t, items[0], d) then [items[0]] else []) + ReaderItems(t, items[1..], d)
  }

  /** The qualifying items of date d whose seller is missing from the sellers table. */
  function OrphanItems(t: LedgerTables, items: seq<OrderItem>, d: int): (q: seq<OrderItem>)
    ensures forall it :: it in q <==> it in items && Qualifies(t.orders, it, d) && it.sellerId !in t.sellers
  {
    if items == [] then []
    else (if Qualifies(t.orders, items[0], d) && items[0].sellerId !in t.sellers then [items[0]] else [])
         + OrphanItems(t, items[1..], d)
  }

  /** The order ids of seller k's items: COUNT(DISTINCT oi.order_id) counts them. */
  function OrderIds(items: seq<OrderItem>, k: int): set<int>
  {
    if items == [] then {}
    else (if items[0].sellerId == k then {items[0].orderId} else {}) + OrderIds(items[1..], k)
  }

  /** COUNT(oi.id): the number of seller k's items. */
  function ItemCount(items: seq<OrderItem>, k: int): nat
  {
    if items == [] then 0
    else (if items[0].sellerId == k then 1 else 0) + ItemCount(items[1..], k)
  }

  /** A group counts at least one order and no more orders than items. */
  lemma {:induction false} CountsBounded(items: seq<OrderItem>, k: int)
    ensures |OrderIds(items, k)| <= ItemCount(items, k)
    ensures (exists i :: 0 <= i < |items| && items[i].sellerId == k) ==> 1 <= |OrderIds(items, k)|
  {
    if items != [] {
      CountsBounded(items[1..], k);
      if exists i :: 0 <= i < |items| && items[i].sellerId == k {
        var i :| 0 <= i < |items| && items[i].sellerId == k;
        if i > 0 {
          assert items[1..][i - 1].sellerId == k;
        }
      }
    }
  }

  /** One row of the reader's result set, before the row mapper parses the grade. */
  datatype AggregateRow = AggregateRow(
    sellerId: int,
    sellerGrade: string,
    totalSales: int,
    orderCount: int,
    itemCount: int)

  /** Strictly ascending by seller_id, hence one row per seller. */
  predicate AscendingSellers(rs: seq<AggregateRow>)
  {
    forall i, j :: 0 <= i < j < |rs| ==> rs[i].sellerId < rs[j].sellerId
  }

  function RowSellers(rs: seq<AggregateRow>): (ks: seq<int>)
    ensures |ks| == |rs| && forall i :: 0 <= i < |rs| ==> ks[i] == rs[i].sellerId
  {
    if rs == [] then [] else [rs[0].sellerId] + RowSellers(rs[1..])
  }

  /** The (seller_id, total_sales) pair of each result row. */
  function RowEntries(rs: seq<AggregateRow>): (es: seq<Entry>)
    ensures |es| == |rs| && forall i :: 0 <= i < |rs| ==> es[i] == Entry(rs[i].sellerId, rs[i].totalSales)
  {
    if rs == [] then [] else [Entry(rs[0].sellerId, rs[0].totalSales)] + RowEntries(rs[1..])
  }

  /** One result row per listed seller: GROUP BY s.id, s.grade with the SELECT list. */
  function GroupRows(t: LedgerTables, q: seq<OrderItem>, keys: seq<int>): (rs: seq<AggregateRow>)
    requires forall i :: 0 <= i < |keys| ==> keys[i] in t.sellers
    ensures |rs| == |keys|
    ensures forall i :: 0 <= i < |keys| ==>
      rs[i] == AggregateRow(keys[i], t.sellers[keys[i]], KeyTotal(ItemEntries(q), keys[i]),
                            |OrderIds(q, keys[i])|, ItemCount(q, keys[i]))
  {
    if keys == [] then []
    else
      [AggregateRow(keys[0], t.sellers[keys[0]], KeyTotal(ItemEntries(q), keys[0]),
                    |OrderIds(q, keys[0])|, ItemCount(q, keys[0]))]
      + GroupRows(t, q, keys[1..])
  }

  /**
   * sellerAggregationReader over all its pages: one row per seller with a joined item,
   * ascending by seller_id.
   */
  function ReaderRows(t: LedgerTables, d: int): (rs: seq<AggregateRow>)
    ensures AscendingSellers(rs)
    ensures forall k :: k in RowSellers(rs) <==> exists it :: it in t.items && ReaderQualifies(t, it, d) && it.sellerId == k
  {
    var q := ReaderItems(t, t.items, d);
    var es := ItemEntries(q);
    forall it | it in q ensures it.sellerId in SortedKeys(es) {
      var i :| 0 <= i < |q| && q[i] == it;
      assert es[i].key == it.sellerId;
    }
    forall i | 0 <= i < |es| ensures q[i] in t.items && ReaderQualifies(t, q[i], d) {
      assert q[i] in q;
    }
    var keys := SortedKeys(es);
    forall i | 0 <= i < |keys| ensures keys[i] in t.sellers {
      assert keys[i] in keys;
    }
    var rs := GroupRows(t, q, keys);
    assert RowSellers(rs) == keys;
    rs
  }

  /**
   * Each result row carries its seller's grade column, the sum of total_price over the
   * seller's joined items, and counts with 1 <= orderCount <= itemCount.
   */
  lemma ReaderRowGroup(t: LedgerTables, d: int, i: int)
    requires 0 <= i < |ReaderRows(t, d)|
    ensures var r := ReaderRows(t, d)[i];
            && r.sellerId in t.sellers && r.sellerGrade == t.sellers[r.sellerId]
            && r.totalSales == KeyTotal(ItemEntries(ReaderItems(t, t.items, d)), r.sellerId)
            && r.itemCount == ItemCount(ReaderItems(t, t.items, d), r.sellerId)
            && 1 <= r.orderCount <= r.itemCount
  {
    var q := ReaderItems(t, t.items, d);
    var r := ReaderRows(t, d)[i];
    assert RowSellers(ReaderRows(t, d))[i] == r.sellerId;
    assert r.sellerId in RowSellers(ReaderRows(t, d));
    var it :| it in t.items && ReaderQualifies(t, it, d) && it.sellerId == r.sellerId;
    assert it in q;
    var j :| 0 <= j < |q| && q[j] == it;
    CountsBounded(q, r.sellerId);
  }

  /** The reader's rows add up to the total of the joined items: grouping loses and adds nothing. */
  lemma ReaderConserves(t: LedgerTables, d: int)
    ensures Total(RowEntries(ReaderRows(t, d))) == Total(ItemEntries(ReaderItems(t, t.items, d)))
  {
    var es := ItemEntries(ReaderItems(t, t.items, d));
    var expected := RowEntries(ReaderRows(t, d));
    TotalOverMatches(expected, es);
    assert Keys(expected) == SortedKeys(es);
    SortedKeysPartition(es);
  }

  lemma {:induction false} ItemEntriesCons(it: OrderItem, items: seq<OrderItem>)
    ensures Total(ItemEntries([it] + items)) == it.totalPrice + Total(ItemEntries(items))
  {
    assert ([it] + items)[1..] == items;
  }

  /** The verifier's items split into the reader's items and the orphans. */
  lemma {:induction false} LedgerSplits(t: LedgerTables, items: seq<OrderItem>, d: int)
    ensures Total(ItemEntries(QualifyingItems(t.orders, items, d)))
         == Total(ItemEntries(ReaderItems(t, items, d))) + Total(ItemEntries(OrphanItems(t, items, d)))
  {
    if items != [] {
      LedgerSplits(t, items[1..], d);
      var it := items[0];
      var rest := items[1..];
      if !Qualifies(t.orders, it, d) {
        assert QualifyingItems(t.orders, items, d) == QualifyingItems(t.orders, rest, d);
        assert ReaderItems(t, items, d) == ReaderItems(t, rest, d);
        assert OrphanItems(t, items, d) == OrphanItems(t, rest, d);
      } else {
        assert QualifyingItems(t.orders, items, d) == [it] + QualifyingItems(t.orders, rest, d);
        ItemEntriesCons(it, QualifyingItems(t.orders, rest, d));
        if it.sellerId in t.sellers {
          assert ReaderItems(t, items, d) == [it] + ReaderItems(t, rest, d);
          assert OrphanItems(t, items, d) == OrphanItems(t, rest, d);
          ItemEntriesCons(it, ReaderItems(t, rest, d));
        } else {
          assert ReaderItems(t, items, d) == ReaderItems(t, rest, d);
          assert OrphanItems(t, items, d) == [it] + OrphanItems(t, rest, d);
          ItemEntriesCons(it, OrphanItems(t, rest, d));
        }
      }
    }
  }

  /**
   * The verifier's ledger total is the sum of the reader's totalSales plus the items whose
   * seller is missing from the sellers table: the reader joins sellers, the verifier does not.
   */
  lemma LedgerTotalDecomposes(t: LedgerTables, d: int)
    ensures LedgerTotal(t, d) == Total(RowEntries(ReaderRows(t, d))) + Total(ItemEntries(OrphanItems(t, t.items, d)))
  {
    ReaderConserves(t, d);
    LedgerSplits(t, t.items, d);
  }

  /** Every qualifying item's seller exists in the sellers table. */
  predicate SellersKnown(t: LedgerTables, d: int)
  {
    forall it :: it in t.items && Qualifies(t.orders, it, d) ==> it.sellerId in t.sellers
  }

  /** With every seller known, the reader's rows add up to exactly the verifier's ledger total. */
  lemma ReaderMatchesLedger(t: LedgerTables, d: int)
    requires SellersKnown(t, d)
    ensures Total(RowEntries(ReaderRows(t, d))) == LedgerTotal(t, d)
  {
    LedgerTotalDecomposes(t, d);
    assert OrphanItems(t, t.items, d) == [];
  }

  // ---------------------------------------------------------------------------------------
  // The settlement step

  /** The row mapper: new SellerAggregation(...) on one result row. */
  function MapRow(row: AggregateRow): (p: Parsed)
    ensures p.Built? <==> exists g :: Name(g) == row.sellerGrade
    ensures p.Built? ==> && p.agg.sellerId == row.sellerId && Name(p.agg.sellerGrade) == row.sellerGrade
                         && p.agg.totalSales == row.totalSales
                         && p.agg.orderCount == row.orderCount && p.agg.itemCount == row.itemCount
    ensures p.IllegalGradeName? ==> p.name == row.sellerGrade
  {
    NewSellerAggregation(row.sellerId, row.sellerGrade, row.totalSales, row.orderCount, row.itemCount)
  }

  /** A page as the reader hands it over: all rows mapped, or the first grade valueOf rejects. */
  datatype PageRead = PageAggregates(aggs: seq<SellerAggregation>) | IllegalGrade(name: string)

  function ReadPage(page: seq<AggregateRow>): (p: PageRead)
    ensures p.PageAggregates? <==> forall i :: 0 <= i < |page| ==> MapRow(page[i]).Built?
    ensures p.PageAggregates? ==> |p.aggs| == |page|
    ensures p.PageAggregates? ==> forall i :: 0 <= i < |page| ==> p.aggs[i] == MapRow(page[i]).agg
    ensures p.IllegalGrade? ==> exists i :: 0 <= i < |page| && MapRow(page[i]) == IllegalGradeName(p.name)
  {
    if page == [] then PageAggregates([])
    else
      assert forall i :: 1 <= i < |page| ==> page[i] == page[1..][i - 1];
      match MapRow(page[0])
      case IllegalGradeName(name) => IllegalGrade(name)
      case Built(a) =>
        match ReadPage(page[1..])
        case IllegalGrade(name) => IllegalGrade(name)
        case PageAggregates(rest) => PageAggregates([a] + rest)
  }

  /** The processor applied to each aggregate of a chunk, for the processor's date d. */
  function ProcessAll(aggs: seq<SellerAggregation>, d: int, now: int): (chunk: seq<SettlementRow>)
    ensures |chunk| == |aggs|
    ensures forall i :: 0 <= i < |aggs| ==> chunk[i] == ProcessedRow(aggs[i], d, now)
  {
    if aggs == [] then [] else [ProcessedRow(aggs[0], d, now)] + ProcessAll(aggs[1..], d, now)
  }

  /** Why the settlement step stopped: a rejected grade, or toMap's duplicate seller. */
  datatype Failure = IllegalGradeFailure(name: string) | DuplicateSettlement(sellerId: int)

  /** The table after the step: all chunks written, or the chunks committed before the failing one. */
  datatype StepOutcome = StepCompleted(table: seq<SettlementRow>) | StepFailed(table: seq<SettlementRow>, failure: Failure)

  /** The size of the next chunk. */
  function ChunkLength(pending: nat): (n: nat)
    ensures pending > 0 ==> 0 < n <= pending
    ensures n <= ChunkSize
  {
    if pending < ChunkSize then pending else ChunkSize
  }

  /**
   * settlementStep: read a page of up to ChunkSize rows, process each, write the chunk and
   * commit, until the reader is exhausted. A failing chunk is rolled back and ends the step;
   * chunks committed before it stay.
   */
  function SettlementStep(table: seq<SettlementRow>, pending: seq<AggregateRow>, d: int, now: int): (o: StepOutcome)
    ensures |table| <= |o.table| <= |table| + |pending|
    ensures pending == [] ==> o == StepCompleted(table)
    decreases |pending|
  {
    if pending == [] then StepCompleted(table)
    else
      var n := ChunkLength(|pending|);
      match ReadPage(pending[..n])
      case IllegalGrade(name) => StepFailed(table, IllegalGradeFailure(name))
      case PageAggregates(aggs) =>
        var u := Upsert(table, ProcessAll(aggs, d, now), now);
        match u.result
        case DuplicateKey(s) => StepFailed(table, DuplicateSettlement(s))
        case Saved(_, _) => SettlementStep(u.rows, pending[n..], d, now)
  }

  /** A chunk that reads and writes without failing hands the rest of the rows to the next chunk. */
  lemma StepAfterSavedChunk(table: seq<SettlementRow>, pending: seq<AggregateRow>, d: int, now: int,
                            aggs: seq<SellerAggregation>, u: Upserted)
    requires pending != [] && ReadPage(pending[..ChunkLength(|pending|)]) == PageAggregates(aggs)
    requires u == Upsert(table, ProcessAll(aggs, d, now), now) && u.result.Saved?
    ensures SettlementStep(table, pending, d, now) == SettlementStep(u.rows, pending[ChunkLength(|pending|)..], d, now)
  {
  }

  /** A processed chunk of ascending sellers is well formed for the writer. */
  lemma ProcessedChunkWellFormed(page: seq<AggregateRow>, aggs: seq<SellerAggregation>, d: int, now: int)
    requires AscendingSellers(page)
    requires ReadPage(page) == PageAggregates(aggs)
    ensures WellFormedChunk(ProcessAll(aggs, d, now))
    ensures forall i :: 0 <= i < |page| ==> ProcessAll(aggs, d, now)[i].sellerId == page[i].sellerId
  {
    var chunk := ProcessAll(aggs, d, now);
    var ids := SellerIds(chunk);
    forall i | 0 <= i < |page| ensures chunk[i].sellerId == page[i].sellerId && ids[i] == page[i].sellerId {
      assert aggs[i] == MapRow(page[i]).agg;
    }
    assert Distinct(ids) by {
      forall i, j | 0 <= i < j < |ids| ensures ids[i] != ids[j] {
        assert page[i].sellerId < page[j].sellerId;
      }
    }
  }

  lemma AscendingSlices(rs: seq<AggregateRow>, n: nat)
    requires AscendingSellers(rs) && n <= |rs|
    ensures AscendingSellers(rs[..n]) && AscendingSellers(rs[n..])
  {
    forall i, j | 0 <= i < j < |rs| - n ensures rs[n..][i].sellerId < rs[n..][j].sellerId {
      assert rs[n..][i] == rs[n + i] && rs[n..][j] == rs[n + j];
    }
  }

  /**
   * On a table with one row per (seller, date), the step keeps that property, and it can
   * only fail on a grade: the writer's duplicate check never fires.
   */
  lemma {:induction false} StepKeepsUniqueKeys(table: seq<SettlementRow>, pending: seq<AggregateRow>, d: int, now: int)
    requires UniqueKeys(table) && AscendingSellers(pending)
    ensures UniqueKeys(SettlementStep(table, pending, d, now).table)
    ensures SettlementStep(table, pending, d, now).StepFailed? ==>
      SettlementStep(table, pending, d, now).failure.IllegalGradeFailure?
    decreases |pending|
  {
    if pending != [] {
      var n := ChunkLength(|pending|);
      AscendingSlices(pending, n);
      if ReadPage(pending[..n]).PageAggregates? {
        var aggs := ReadPage(pending[..n]).aggs;
        var chunk := ProcessAll(aggs, d, now);
        ProcessedChunkWellFormed(pending[..n], aggs, d, now);
        UpsertKeepsUniqueKeys(table, chunk, now);
        StepKeepsUniqueKeys(Upsert(table, chunk, now).rows, pending[n..], d, now);
      }
    }
  }

  /** The rows the step writes when nothing fails: each result row mapped and processed. */
  predicate ProcessedFrom(ps: seq<SettlementRow>, pending: seq<AggregateRow>, d: int, now: int)
  {
    && |ps| == |pending|
    && (forall i :: 0 <= i < |pending| ==> MapRow(pending[i]).Built?)
    && forall i :: 0 <= i < |pending| ==> ps[i] == ProcessedRow(MapRow(pending[i]).agg, d, now)
  }

  /** The first chunk of the pending rows reads and processes into the first processed rows. */
  lemma FirstChunkProcessed(pending: seq<AggregateRow>, n: nat, d: int, now: int, ps: seq<SettlementRow>)
    requires ProcessedFrom(ps, pending, d, now) && n <= |pending|
    ensures ReadPage(pending[..n]).PageAggregates?
    ensures ProcessAll(ReadPage(pending[..n]).aggs, d, now) == ps[..n]
    ensures ProcessedFrom(ps[n..], pending[n..], d, now)
  {
    var page := pending[..n];
    assert forall i :: 0 <= i < |page| ==> page[i] == pending[i];
    var chunk := ProcessAll(ReadPage(page).aggs, d, now);
    assert forall i :: 0 <= i < n ==> chunk[i] == ps[i];
  }

  /** No row of the table, nor of the chunk just appended, has the key of a seller still pending. */
  lemma FreshAfterChunk(table: seq<SettlementRow>, chunk: seq<SettlementRow>, pending: seq<AggregateRow>, n: nat, d: int)
    requires AscendingSellers(pending) && n <= |pending| && |chunk| == n
    requires forall k :: 0 <= k < n ==> chunk[k].sellerId == pending[k].sellerId
    requires forall i, k :: 0 <= i < |table| && 0 <= k < |pending| ==> !HasKey(table[i], pending[k].sellerId, d)
    ensures forall i, k :: 0 <= i < |table + chunk| && 0 <= k < |pending[n..]| ==>
      !HasKey((table + chunk)[i], pending[n..][k].sellerId, d)
  {
    var next := table + chunk;
    forall i, k | 0 <= i < |next| && 0 <= k < |pending[n..]| ensures !HasKey(next[i], pending[n..][k].sellerId, d) {
      assert pending[n..][k] == pending[n + k];
      if i >= |table| {
        assert next[i] == chunk[i - |table|];
        assert pending[i - |table|].sellerId < pending[n + k].sellerId;
      } else {
        assert next[i] == table[i];
      }
    }
  }

  /**
   * When no row of date d belongs to a pending seller and every grade parses, the step
   * appends the processed rows, in reader order, and updates nothing.
   */
  lemma {:induction false} StepIntoFreshDate(table: seq<SettlementRow>, pending: seq<AggregateRow>, d: int, now: int,
                                             ps: seq<SettlementRow>)
    requires AscendingSellers(pending)
    requires ProcessedFrom(ps, pending, d, now)
    requires forall i, k :: 0 <= i < |table| && 0 <= k < |pending| ==> !HasKey(table[i], pending[k].sellerId, d)
    ensures SettlementStep(table, pending, d, now) == StepCompleted(table + ps)
    decreases |pending|
  {
    if pending == [] {
      assert table + ps == table;
    } else {
      var n := ChunkLength(|pending|);
      var page := pending[..n];
      AscendingSlices(pending, n);
      FirstChunkProcessed(pending, n, d, now, ps);
      var aggs := ReadPage(page).aggs;
      var chunk := ProcessAll(aggs, d, now);
      ProcessedChunkWellFormed(page, aggs, d, now);
      assert forall k :: 0 <= k < n ==> chunk[k].sellerId == pending[k].sellerId;
      assert chunk[0].settlementDate == d;
      UpsertIntoFreshKeys(table, chunk, now);
      StepAfterSavedChunk(table, pending, d, now, aggs, Upsert(table, chunk, now));
      FreshAfterChunk(table, chunk, pending, n, d);
      StepIntoFreshDate(table + chunk, pending[n..], d, now, ps[n..]);
      ConcatSplit(table, ps, n);
    }
  }

  lemma ConcatSplit(table: seq<SettlementRow>, ps: seq<SettlementRow>, n: nat)
    requires n <= |ps|
    ensures (table + ps[..n]) + ps[n..] == table + ps
  {
    assert ps[..n] + ps[n..] == ps;
  }

  /** The processed rows carry the date d and the result rows' sellers and totals. */
  lemma ProcessedTotals(ps: seq<SettlementRow>, pending: seq<AggregateRow>, d: int, now: int)
    requires ProcessedFrom(ps, pending, d, now)
    ensures SettlementTotal(ps, d) == Total(RowEntries(pending))
  {
    assert DateRows(ps, d) == ps by {
      if DateRows(ps, d) != ps {
        DateRowsAllOfDate(ps, d);
      }
    }
    assert SalesEntries(ps) == RowEntries(pending);
  }

  lemma {:induction false} DateRowsAllOfDate(rows: seq<SettlementRow>, d: int)
    requires forall i :: 0 <= i < |rows| ==> rows[i].settlementDate == d
    ensures DateRows(rows, d) == rows
  {
    if rows != [] {
      DateRowsAllOfDate(rows[1..], d);
    }
  }

  // ---------------------------------------------------------------------------------------
  // Re-running the settlement step

  /** A processed chunk carries the page's sellers and the processor's date. */
  lemma ChunkKeys(page: seq<AggregateRow>, aggs: seq<SellerAggregation>, d: int, now: int)
    requires ReadPage(page) == PageAggregates(aggs)
    ensures forall k :: 0 <= k < |page| ==>
      && ProcessAll(aggs, d, now)[k] == ProcessedRow(MapRow(page[k]).agg, d, now)
      && ProcessAll(aggs, d, now)[k].sellerId == page[k].sellerId
      && ProcessAll(aggs, d, now)[k].settlementDate == d
  {
  }

  /** A row whose key no pending seller shares keeps its place and its value through the step. */
  lemma {:induction false} StepLeavesOthers(table: seq<SettlementRow>, pending: seq<AggregateRow>, d: int, now: int, i: int)
    requires 0 <= i < |table|
    requires forall k :: 0 <= k < |pending| ==> !HasKey(table[i], pending[k].sellerId, d)
    ensures SettlementStep(table, pending, d, now).table[i] == table[i]
    decreases |pending|
  {
    if pending != [] {
      var n := ChunkLength(|pending|);
      var page := pending[..n];
      if ReadPage(page).PageAggregates? {
        var aggs := ReadPage(page).aggs;
        var chunk := ProcessAll(aggs, d, now);
        ChunkKeys(page, aggs, d, now);
        forall k | 0 <= k < |chunk| ensures !HasKey(table[i], chunk[k].sellerId, chunk[0].settlementDate) {
          assert page[k] == pending[k];
        }
        var u := Upsert(table, chunk, now);
        UpsertLeavesOthers(table, chunk, now, i);
        if u.result.Saved? {
          StepAfterSavedChunk(table, pending, d, now, aggs, u);
          KeysOfRest(pending, n, table[i], d);
          StepLeavesOthers(u.rows, pending[n..], d, now, i);
        }
      }
    }
  }

  /** The table holds, for result row p on date d, a row carrying the values the processor computes for p. */
  predicate Settled(rows: seq<SettlementRow>, p: AggregateRow, d: int, now: int)
  {
    && MapRow(p).Built?
    && exists i :: 0 <= i < |rows| && HasKey(rows[i], p.sellerId, d) && Carries(rows[i], ProcessedRow(MapRow(p).agg, d, now))
  }

  /**
   * After a completed step on a table with unique keys, every result row is settled: row i of
   * the new table has its key on the date and carries the values the processor computes for it.
   */
  lemma {:induction false} StepCompletedCarries(table: seq<SettlementRow>, pending: seq<AggregateRow>, d: int, now: int,
                                                t1: seq<SettlementRow>, k: int)
      returns (i: int)
    requires UniqueKeys(table) && AscendingSellers(pending)
    requires SettlementStep(table, pending, d, now) == StepCompleted(t1)
    requires 0 <= k < |pending|
    ensures MapRow(pending[k]).Built?
    ensures 0 <= i < |t1| && HasKey(t1[i], pending[k].sellerId, d)
    ensures Carries(t1[i], ProcessedRow(MapRow(pending[k]).agg, d, now))
    decreases |pending|
  {
    var n := ChunkLength(|pending|);
    var aggs, u := FirstChunkSaved(table, pending, d, now, t1);
    if k >= n {
      assert pending[n..][k - n] == pending[k];
      i := StepCompletedCarries(u.rows, pending[n..], d, now, t1, k - n);
    } else {
      i := FirstChunkSettled(table, pending, d, now, aggs, u, t1, k);
    }
  }

  /** A completed step saved its first chunk, and the rest of the step completes from the table that left. */
  lemma FirstChunkSaved(table: seq<SettlementRow>, pending: seq<AggregateRow>, d: int, now: int, t1: seq<SettlementRow>)
      returns (aggs: seq<SellerAggregation>, u: Upserted)
    requires UniqueKeys(table) && AscendingSellers(pending) && pending != []
    requires SettlementStep(table, pending, d, now) == StepCompleted(t1)
    ensures ReadPage(pending[..ChunkLength(|pending|)]) == PageAggregates(aggs)
    ensures WellFormedChunk(ProcessAll(aggs, d, now))
    ensures u == Upsert(table, ProcessAll(aggs, d, now), now)
    ensures UniqueKeys(u.rows) && AscendingSellers(pending[ChunkLength(|pending|)..])
    ensures SettlementStep(u.rows, pending[ChunkLength(|pending|)..], d, now) == StepCompleted(t1)
  {
    var n := ChunkLength(|pending|);
    var page := pending[..n];
    AscendingSlices(pending, n);
    aggs := ReadPage(page).aggs;
    var chunk := ProcessAll(aggs, d, now);
    ProcessedChunkWellFormed(page, aggs, d, now);
    UpsertKeepsUniqueKeys(table, chunk, now);
    u := Upsert(table, chunk, now);
    StepAfterSavedChunk(table, pending, d, now, aggs, u);
  }

  /** A result row of the first chunk is settled by the write and stays so through the later chunks. */
  lemma FirstChunkSettled(table: seq<SettlementRow>, pending: seq<AggregateRow>, d: int, now: int,
                          aggs: seq<SellerAggregation>, u: Upserted, t1: seq<SettlementRow>, k: int)
      returns (i: int)
    requires UniqueKeys(table) && AscendingSellers(pending)
    requires 0 <= k < ChunkLength(|pending|) <= |pending|
    requires ReadPage(pending[..ChunkLength(|pending|)]) == PageAggregates(aggs)
    requires WellFormedChunk(ProcessAll(aggs, d, now))
    requires u == Upsert(table, ProcessAll(aggs, d, now), now)
    requires SettlementStep(u.rows, pending[ChunkLength(|pending|)..], d, now) == StepCompleted(t1)
    ensures MapRow(pending[k]).Built?
    ensures 0 <= i < |t1| && HasKey(t1[i], pending[k].sellerId, d)
    ensures Carries(t1[i], ProcessedRow(MapRow(pending[k]).agg, d, now))
  {
    var n := ChunkLength(|pending|);
    var page := pending[..n];
    var chunk := ProcessAll(aggs, d, now);
    ChunkKeys(page, aggs, d, now);
    assert page[k] == pending[k];
    UpsertCarriesIncoming(table, chunk, now, k);
    i :| 0 <= i < |u.rows| && HasKey(u.rows[i], chunk[k].sellerId, chunk[0].settlementDate)
           && Carries(u.rows[i], chunk[k]);
    LaterKeys(pending, n, k, u.rows[i], d);
    StepLeavesOthers(u.rows, pending[n..], d, now, i);
  }

  /** A row with no key of a pending seller has none of the sellers left after the first chunk. */
  lemma KeysOfRest(pending: seq<AggregateRow>, n: nat, r: SettlementRow, d: int)
    requires n <= |pending|
    requires forall k :: 0 <= k < |pending| ==> !HasKey(r, pending[k].sellerId, d)
    ensures forall k :: 0 <= k < |pending[n..]| ==> !HasKey(r, pending[n..][k].sellerId, d)
  {
    forall k | 0 <= k < |pending[n..]| ensures !HasKey(r, pending[n..][k].sellerId, d) {
      assert pending[n..][k] == pending[n + k];
    }
  }

  /** A row keyed by a seller of the first chunk has no key of a later seller. */
  lemma LaterKeys(pending: seq<AggregateRow>, n: nat, k: int, r: SettlementRow, d: int)
    requires AscendingSellers(pending) && 0 <= k < n <= |pending|
    requires r.sellerId == pending[k].sellerId
    ensures forall m :: 0 <= m < |pending[n..]| ==> !HasKey(r, pending[n..][m].sellerId, d)
  {
    forall m | 0 <= m < |pending[n..]| ensures !HasKey(r, pending[n..][m].sellerId, d) {
      assert pending[n..][m] == pending[n + m];
    }
  }

  /** A table on which every result row is settled carries the first processed chunk. */
  lemma ChunkCarried(table: seq<SettlementRow>, pending: seq<AggregateRow>, n: nat, aggs: seq<SellerAggregation>,
                     d: int, now: int)
    requires 0 < n <= |pending| && ReadPage(pending[..n]) == PageAggregates(aggs)
    requires forall k :: 0 <= k < |pending| ==> Settled(table, pending[k], d, now)
    ensures CarriedBy(table, ProcessAll(aggs, d, now))
  {
    var page := pending[..n];
    var chunk := ProcessAll(aggs, d, now);
    ChunkKeys(page, aggs, d, now);
    forall j | 0 <= j < |chunk|
      ensures exists i :: 0 <= i < |table| && HasKey(table[i], chunk[j].sellerId, chunk[0].settlementDate)
                          && Carries(table[i], chunk[j])
    {
      assert page[j] == pending[j];
      assert Settled(table, pending[j], d, now);
    }
  }

  /** Settled result rows stay settled on a table equal apart from updatedAt, and so do the later ones. */
  lemma RestCarried(table: seq<SettlementRow>, rows: seq<SettlementRow>, pending: seq<AggregateRow>, n: nat,
                    d: int, now: int)
    requires SameExceptUpdatedAt(table, rows) && n <= |pending|
    requires forall k :: 0 <= k < |pending| ==> Settled(table, pending[k], d, now)
    ensures forall k :: 0 <= k < |pending[n..]| ==> Settled(rows, pending[n..][k], d, now)
  {
    forall k | 0 <= k < |pending[n..]| ensures Settled(rows, pending[n..][k], d, now) {
      var p := pending[n..][k];
      assert p == pending[n + k];
      assert Settled(table, p, d, now);
      var i :| 0 <= i < |table| && HasKey(table[i], p.sellerId, d)
               && Carries(table[i], ProcessedRow(MapRow(p).agg, d, now));
      SameExceptCarries(table, rows, i, p.sellerId, d, ProcessedRow(MapRow(p).agg, d, now));
    }
  }

  /** The values a processed row carries do not depend on the clock. */
  lemma CarriesAtAnyTime(r: SettlementRow, a: SellerAggregation, d: int, now1: int, now2: int)
    requires Carries(r, ProcessedRow(a, d, now1))
    ensures Carries(r, ProcessedRow(a, d, now2))
  {
  }

  /** Rows equal apart from updatedAt agree on every key and every carried value. */
  lemma SameExceptCarries(a: seq<SettlementRow>, b: seq<SettlementRow>, i: int, k: int, d: int, c: SettlementRow)
    requires SameExceptUpdatedAt(a, b) && 0 <= i < |a|
    requires HasKey(a[i], k, d) && Carries(a[i], c)
    ensures HasKey(b[i], k, d) && Carries(b[i], c)
  {
    assert Unstamped(a[i]) == Unstamped(b[i]);
  }

  /**
   * A step over a table on which every result row is already settled completes, rewrites
   * every row it touches with the same values, and inserts nothing.
   */
  lemma {:induction false} StepOverCarried(table: seq<SettlementRow>, pending: seq<AggregateRow>, d: int, now: int)
    requires UniqueKeys(table) && AscendingSellers(pending)
    requires forall k :: 0 <= k < |pending| ==> Settled(table, pending[k], d, now)
    ensures SettlementStep(table, pending, d, now).StepCompleted?
    ensures SameExceptUpdatedAt(table, SettlementStep(table, pending, d, now).table)
    decreases |pending|
  {
    if pending != [] {
      var n := ChunkLength(|pending|);
      var page := pending[..n];
      AscendingSlices(pending, n);
      forall k | 0 <= k < |page| ensures MapRow(page[k]).Built? {
        assert page[k] == pending[k];
        assert Settled(table, pending[k], d, now);
      }
      var aggs := ReadPage(page).aggs;
      var chunk := ProcessAll(aggs, d, now);
      ProcessedChunkWellFormed(page, aggs, d, now);
      ChunkCarried(table, pending, n, aggs, d, now);
      UpsertOverCarried(table, chunk, now);
      UpsertKeepsUniqueKeys(table, chunk, now);
      var u := Upsert(table, chunk, now);
      StepAfterSavedChunk(table, pending, d, now, aggs, u);
      RestCarried(table, u.rows, pending, n, d, now);
      StepOverCarried(u.rows, pending[n..], d, now);
    }
  }

  /**
   * Re-running a completed step over the same result rows completes again and leaves every
   * row as the first run left it, apart from updatedAt: re-settlement is idempotent.
   */
  lemma StepRerun(table: seq<SettlementRow>, pending: seq<AggregateRow>, d: int, now1: int, now2: int,
                  t1: seq<SettlementRow>)
    requires UniqueKeys(table) && AscendingSellers(pending)
    requires SettlementStep(table, pending, d, now1) == StepCompleted(t1)
    ensures SettlementStep(t1, pending, d, now2).StepCompleted?
    ensures SameExceptUpdatedAt(t1, SettlementStep(t1, pending, d, now2).table)
  {
    StepKeepsUniqueKeys(table, pending, d, now1);
    forall k | 0 <= k < |pending| ensures Settled(t1, pending[k], d, now2) {
      var i := StepCompletedCarries(table, pending, d, now1, t1, k);
      CarriesAtAnyTime(t1[i], MapRow(pending[k]).agg, d, now1, now2);
    }
    StepOverCarried(t1, pending, d, now2);
  }

  /** Tables equal apart from updatedAt have date rows equal apart from updatedAt. */
  lemma {:induction false} SameExceptDateRows(a: seq<SettlementRow>, b: seq<SettlementRow>, d: int)
    requires SameExceptUpdatedAt(a, b)
    ensures SameExceptUpdatedAt(DateRows(a, d), DateRows(b, d))
  {
    if a != [] {
      SameExceptTail(a, b);
      SameExceptDateRows(a[1..], b[1..], d);
      if a[0].settlementDate == d {
        SameExceptCons(a[0], b[0], DateRows(a[1..], d), DateRows(b[1..], d));
      }
    }
  }

  /** Equality apart from updatedAt holds for the heads and passes to the tails. */
  lemma SameExceptTail(a: seq<SettlementRow>, b: seq<SettlementRow>)
    requires SameExceptUpdatedAt(a, b) && a != []
    ensures Unstamped(a[0]) == Unstamped(b[0]) && a[0].settlementDate == b[0].settlementDate
    ensures SameExceptUpdatedAt(a[1..], b[1..])
  {
    assert Unstamped(a[0]) == Unstamped(b[0]);
    assert Unstamped(a[0]).settlementDate == a[0].settlementDate;
    forall i | 0 <= i < |a| - 1 ensures Unstamped(a[1..][i]) == Unstamped(b[1..][i]) {
      assert a[1..][i] == a[i + 1] && b[1..][i] == b[i + 1];
    }
  }

  /** Equality apart from updatedAt is kept by putting equal-apart-from-updatedAt heads in front. */
  lemma SameExceptCons(x: SettlementRow, y: SettlementRow, a: seq<SettlementRow>, b: seq<SettlementRow>)
    requires Unstamped(x) == Unstamped(y) && SameExceptUpdatedAt(a, b)
    ensures SameExceptUpdatedAt([x] + a, [y] + b)
  {
    forall i | 0 <= i < |a| + 1 ensures Unstamped(([x] + a)[i]) == Unstamped(([y] + b)[i]) {
      if i > 0 {
        assert ([x] + a)[i] == a[i - 1] && ([y] + b)[i] == b[i - 1];
      }
    }
  }

  /** Rows equal apart from updatedAt have the same sums and the same (seller, sales) entries. */
  lemma {:induction false} SameExceptSums(a: seq<SettlementRow>, b: seq<SettlementRow>, c: Column)
    requires SameExceptUpdatedAt(a, b)
    ensures SumColumn(a, c) == SumColumn(b, c) && SalesEntries(a) == SalesEntries(b)
  {
    if a != [] {
      SameExceptTail(a, b);
      SameExceptSums(a[1..], b[1..], c);
    }
  }

  /** The verifier cannot tell two tables apart that differ only in updatedAt. */
  lemma SameExceptVerifies(a: seq<SettlementRow>, b: seq<SettlementRow>, d: int)
    requires SameExceptUpdatedAt(a, b)
    ensures SettlementTotal(a, d) == SettlementTotal(b, d)
    ensures SettlementStatistics(a, d) == SettlementStatistics(b, d)
  {
    var da := DateRows(a, d);
    var db := DateRows(b, d);
    SameExceptDateRows(a, b, d);
    SameExceptSums(da, db, TotalSales);
    SameExceptSums(da, db, CommissionColumn);
    SameExceptSums(da, db, NetAmountColumn);
    SameExceptSums(da, db, Column.OrderCount);
    SameExceptSums(da, db, Column.ItemCount);
  }

  // ---------------------------------------------------------------------------------------
  // The job

  /**
   * The clock as each step-scoped bean reads it: reader, processor and verifier each default
   * the target date from their own "today"; now stamps the rows.
   */
  datatype Clock = Clock(readerToday: int, processorToday: int, verifierToday: int, now: int)

  datatype JobOutcome =
    | JobCompleted(table: seq<SettlementRow>, stats: Statistics)
    | SettlementStepFailed(table: seq<SettlementRow>, failure: Failure)
    | VerificationFailed(table: seq<SettlementRow>, diff: int, details: seq<MismatchRow>)

  /** settlementJob: the settlement step, then, only if it completed, the verification step. */
  function RunJob(t: LedgerTables, table: seq<SettlementRow>, param: Option<int>, clock: Clock): (o: JobOutcome)
    ensures o.SettlementStepFailed? <==>
      SettlementStep(table, ReaderRows(t, TargetDate(param, clock.readerToday)),
                     TargetDate(param, clock.processorToday), clock.now).StepFailed?
    ensures o.JobCompleted? ==>
      LedgerTotal(t, TargetDate(param, clock.verifierToday)) == SettlementTotal(o.table, TargetDate(param, clock.verifierToday))
    ensures o.VerificationFailed? ==> o.diff > 0
    ensures o.table == SettlementStep(table, ReaderRows(t, TargetDate(param, clock.readerToday)),
                                      TargetDate(param, clock.processorToday), clock.now).table
    ensures o.JobCompleted? ==> o.stats == SettlementStatistics(o.table, TargetDate(param, clock.verifierToday))
  {
    var step := SettlementStep(table, ReaderRows(t, TargetDate(param, clock.readerToday)),
                               TargetDate(param, clock.processorToday), clock.now);
    match step
    case StepFailed(written, failure) => SettlementStepFailed(written, failure)
    case StepCompleted(written) =>
      match Verify(t, written, TargetDate(param, clock.verifierToday))
      case Finished(stats) => JobCompleted(written, stats)
      case Mismatch(diff, details) => VerificationFailed(written, diff, details)
  }

  /** Every seller's grade column holds a grade's name. */
  predicate GradesValid(t: LedgerTables)
  {
    forall k :: k in t.sellers ==> ValueOf(t.sellers[k]).Some?
  }

  /**
   * Settling a date for the first time reconciles: with known sellers, valid grades, no
   * settlement row of the date yet, and one target date for all three beans, the job
   * completes and the table gains one row per seller.
   */
  lemma JobReconcilesFreshDate(t: LedgerTables, table: seq<SettlementRow>, param: Option<int>, clock: Clock, d: int)
    requires SellersKnown(t, d) && GradesValid(t)
    requires forall i :: 0 <= i < |table| ==> table[i].settlementDate != d
    requires TargetDate(param, clock.readerToday) == d && TargetDate(param, clock.processorToday) == d
    requires TargetDate(param, clock.verifierToday) == d
    ensures RunJob(t, table, param, clock).JobCompleted?
    ensures |RunJob(t, table, param, clock).table| == |table| + |ReaderRows(t, d)|
  {
    var pending := ReaderRows(t, d);
    forall i | 0 <= i < |pending| ensures MapRow(pending[i]).Built? {
      ReaderRowGroup(t, d, i);
      var g := ValueOf(pending[i].sellerGrade).value;
      assert Name(g) == pending[i].sellerGrade;
    }
    var ps := seq(|pending|, i requires 0 <= i < |pending| => ProcessedRow(MapRow(pending[i]).agg, d, clock.now));
    StepIntoFreshDate(table, pending, d, clock.now, ps);
    SettlementTotalAppend(table, ps, d);
    assert DateRows(table, d) == [];
    ProcessedTotals(ps, pending, d, clock.now);
    ReaderMatchesLedger(t, d);
  }

  /**
   * Running the job again for a date it settled, with the ledger unchanged, completes again:
   * no row is added, every row keeps its values apart from updatedAt, and the verifier
   * reports the same statistics.
   */
  lemma JobRerun(t: LedgerTables, table: seq<SettlementRow>, param: Option<int>, c1: Clock, c2: Clock, d: int,
                 t1: seq<SettlementRow>, s1: Statistics)
    requires UniqueKeys(table)
    requires TargetDate(param, c1.readerToday) == d && TargetDate(param, c1.processorToday) == d
    requires TargetDate(param, c1.verifierToday) == d
    requires TargetDate(param, c2.readerToday) == d && TargetDate(param, c2.processorToday) == d
    requires TargetDate(param, c2.verifierToday) == d
    requires RunJob(t, table, param, c1) == JobCompleted(t1, s1)
    ensures RunJob(t, t1, param, c2).JobCompleted?
    ensures SameExceptUpdatedAt(t1, RunJob(t, t1, param, c2).table)
    ensures RunJob(t, t1, param, c2).stats == s1
  {
    var pending := ReaderRows(t, d);
    assert SettlementStep(table, pending, d, c1.now) == StepCompleted(t1);
    StepRerun(table, pending, d, c1.now, c2.now, t1);
    SameExceptVerifies(t1, SettlementStep(t1, pending, d, c2.now).table, d);
  }
}
