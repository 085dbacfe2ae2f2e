/**
 * SettlementWriter: the upsert of one chunk. The chunk's date is the first item's date; the
 * existing rows of that date for the chunk's sellers are fetched in one query and keyed by
 * seller; each item then updates its seller's existing row in place or is staged as an
 * insert; finally everything staged is saved.
 */
module Writer {
  import opened Wrappers
  import opened Sums
  import opened Settlements
  import opened Repository

  /** The counts the writer logs, or the IllegalStateException Collectors.toMap throws. */
  datatype WriteResult = Saved(insertCount: nat, updateCount: nat) | DuplicateKey(sellerId: int)

  /** The outcome of one write on the value of the table. */
  datatype Upserted = Upserted(result: WriteResult, rows: seq<SettlementRow>)

  function SellerIds(chunk: seq<SettlementRow>): (ids: seq<int>)
    ensures |ids| == |chunk| && forall i :: 0 <= i < |chunk| ==> ids[i] == chunk[i].sellerId
  {
    if chunk == [] then [] else [chunk[0].sellerId] + SellerIds(chunk[1..])
  }

  /** Collectors.toMap keyed by seller: the first seller id met a second time, if any. */
  function FirstDuplicate(ids: seq<int>, seen: set<int>): Option<int>
  {
    if ids == [] then None
    else if ids[0] in seen then Some(ids[0])
    else FirstDuplicate(ids[1..], seen + {ids[0]})
  }

  /** toMap throws exactly when a seller id repeats; the id it reports is one of the ids. */
  lemma {:induction false} FirstDuplicateSpec(ids: seq<int>, seen: set<int>)
    ensures FirstDuplicate(ids, seen).None? <==> Distinct(ids) && forall i :: 0 <= i < |ids| ==> ids[i] !in seen
    ensures FirstDuplicate(ids, seen).Some? ==> FirstDuplicate(ids, seen).value in ids
  {
    if ids != [] && ids[0] !in seen {
      FirstDuplicateSpec(ids[1..], seen + {ids[0]});
      assert forall i :: 1 <= i < |ids| ==> ids[i] == ids[1..][i - 1];
    }
  }

  /** The sellers that have a fetched row: the key set of existingMap. */
  function ExistingSellers(found: seq<SettlementRow>): set<int>
  {
    set i | 0 <= i < |found| :: found[i].sellerId
  }

  /** The arguments the writer passes from an incoming item to update. */
  function UpdatedBy(r: SettlementRow, c: SettlementRow, now: int): SettlementRow
  {
    Updated(r, c.totalSales, c.commissionRate, c.orderCount, c.itemCount, now)
  }

  /** The rows keyed (c.sellerId, date) after existing.update(...) with c's values. */
  function UpdateWhere(rows: seq<SettlementRow>, date: int, c: SettlementRow, now: int): (r: seq<SettlementRow>)
    ensures |r| == |rows|
    ensures forall i :: 0 <= i < |rows| ==>
      r[i] == if HasKey(rows[i], c.sellerId, date) then UpdatedBy(rows[i], c, now) else rows[i]
  {
    seq(|rows|, i requires 0 <= i < |rows| =>
      if HasKey(rows[i], c.sellerId, date) then UpdatedBy(rows[i], c, now) else rows[i])
  }

  /** The items staged as inserts: those whose seller has no fetched row, in chunk order. */
  function Unmatched(items: seq<SettlementRow>, existing: set<int>): (u: seq<SettlementRow>)
    ensures |u| <= |items|
  {
    if items == [] then []
    else Unmatched(items[..|items| - 1], existing)
         + (if items[|items| - 1].sellerId in existing then [] else [items[|items| - 1]])
  }

  /** Every staged item is an item of the chunk whose seller has no fetched row. */
  lemma {:induction false} UnmatchedSound(items: seq<SettlementRow>, existing: set<int>, k: int)
    requires 0 <= k < |Unmatched(items, existing)|
    ensures Unmatched(items, existing)[k] in items && Unmatched(items, existing)[k].sellerId !in existing
  {
    var init := items[..|items| - 1];
    if k < |Unmatched(init, existing)| {
      UnmatchedSound(init, existing, k);
      assert Unmatched(items, existing)[k] == Unmatched(init, existing)[k];
    }
  }

  /** Every item whose seller has no fetched row is staged. */
  lemma {:induction false} UnmatchedComplete(items: seq<SettlementRow>, existing: set<int>, m: int)
    requires 0 <= m < |items| && items[m].sellerId !in existing
    ensures items[m] in Unmatched(items, existing)
  {
    var init := items[..|items| - 1];
    if m < |items| - 1 {
      assert items[m] == init[m];
      UnmatchedComplete(init, existing, m);
    }
  }

  /** The state of the loop: the table rows (updated in place), the staged inserts and the update count. */
  datatype Pass = Pass(rows: seq<SettlementRow>, inserts: seq<SettlementRow>, updateCount: nat)

  /** The loop over the chunk: each item updates its seller's fetched row or is staged as an insert. */
  function ApplyItems(rows: seq<SettlementRow>, existing: set<int>, date: int,
                      items: seq<SettlementRow>, now: int): (p: Pass)
    ensures |p.rows| == |rows|
    ensures |p.inserts| + p.updateCount == |items|
    decreases |items|
  {
    if items == [] then Pass(rows, [], 0)
    else
      var c := items[|items| - 1];
      var q := ApplyItems(rows, existing, date, items[..|items| - 1], now);
      if c.sellerId in existing then Pass(UpdateWhere(q.rows, date, c, now), q.inserts, q.updateCount + 1)
      else Pass(q.rows, q.inserts + [c], q.updateCount)
  }

  /** The staged inserts are the unmatched items. */
  lemma {:induction false} ApplyItemsInserts(rows: seq<SettlementRow>, existing: set<int>, date: int,
                                             items: seq<SettlementRow>, now: int)
    ensures ApplyItems(rows, existing, date, items, now).inserts == Unmatched(items, existing)
    decreases |items|
  {
    if items != [] {
      ApplyItemsInserts(rows, existing, date, items[..|items| - 1], now);
    }
  }

  /** An update never moves a row to another key. */
  lemma {:induction false} ApplyItemsKeepsKeys(rows: seq<SettlementRow>, existing: set<int>, date: int,
                                               items: seq<SettlementRow>, now: int, i: int)
    requires 0 <= i < |rows|
    ensures var r := ApplyItems(rows, existing, date, items, now).rows[i];
            r.sellerId == rows[i].sellerId && r.settlementDate == rows[i].settlementDate
    decreases |items|
  {
    if items != [] {
      ApplyItemsKeepsKeys(rows, existing, date, items[..|items| - 1], now, i);
    }
  }

  /** A row that no item with a fetched seller is keyed to is left as it was. */
  lemma {:induction false} ApplyItemsLeaves(rows: seq<SettlementRow>, existing: set<int>, date: int,
                                            items: seq<SettlementRow>, now: int, i: int)
    requires 0 <= i < |rows|
    requires forall k :: 0 <= k < |items| && items[k].sellerId in existing ==> !HasKey(rows[i], items[k].sellerId, date)
    ensures ApplyItems(rows, existing, date, items, now).rows[i] == rows[i]
    decreases |items|
  {
    if items != [] {
      ApplyItemsLeaves(rows, existing, date, items[..|items| - 1], now, i);
    }
  }

  /** write(chunk) on the value of the table. */
  function Upsert(rows: seq<SettlementRow>, chunk: seq<SettlementRow>, now: int): (u: Upserted)
    ensures chunk == [] ==> u == Upserted(Saved(0, 0), rows)
    ensures u.result.Saved? ==> u.result.insertCount + u.result.updateCount == |chunk|
    ensures u.result.Saved? ==> |u.rows| == |rows| + u.result.insertCount
    ensures u.result.DuplicateKey? ==> u.rows == rows
  {
    if chunk == [] then Upserted(Saved(0, 0), rows)
    else
      var date := chunk[0].settlementDate;
      var found := FindBySettlementDateAndSellerIdIn(rows, date, SellerIds(chunk));
      match FirstDuplicate(SellerIds(found), {})
      case Some(s) => Upserted(DuplicateKey(s), rows)
      case None =>
        var p := ApplyItems(rows, ExistingSellers(found), date, chunk, now);
        Upserted(Saved(|p.inserts|, p.updateCount), p.rows + p.inserts)
  }

  // ---------------------------------------------------------------------------------------
  // Properties of the upsert

  /** Every item of the chunk carries the chunk's date. */
  predicate SameDate(chunk: seq<SettlementRow>)
  {
    forall i :: 0 <= i < |chunk| ==> chunk[i].settlementDate == chunk[0].settlementDate
  }

  /** A row as the processor makes it: balanced and PENDING. */
  predicate PendingBalanced(c: SettlementRow)
  {
    Balanced(c) && c.status == PENDING
  }

  /** A row that carries an incoming item's money, counts and the PENDING status. */
  predicate Carries(r: SettlementRow, c: SettlementRow)
  {
    && r.totalSales == c.totalSales && r.commissionRate == c.commissionRate
    && r.commission == c.commission && r.netAmount == c.netAmount
    && r.orderCount == c.orderCount && r.itemCount == c.itemCount
    && r.status == PENDING
  }

  /** Equal apart from the updatedAt stamps. */
  predicate SameExceptUpdatedAt(a: seq<SettlementRow>, b: seq<SettlementRow>)
  {
    |a| == |b| && forall i :: 0 <= i < |a| ==> Unstamped(a[i]) == Unstamped(b[i])
  }

  /** A seller has a fetched row exactly when it is in the chunk and the table has its key for the date. */
  lemma {:induction false} ExistingSellersExact(rows: seq<SettlementRow>, date: int, ids: seq<int>, s: int)
    ensures s in ExistingSellers(FindBySettlementDateAndSellerIdIn(rows, date, ids))
        <==> s in ids && exists i :: 0 <= i < |rows| && HasKey(rows[i], s, date)
  {
    var found := FindBySettlementDateAndSellerIdIn(rows, date, ids);
    if s in ids && exists i :: 0 <= i < |rows| && HasKey(rows[i], s, date) {
      var i :| 0 <= i < |rows| && HasKey(rows[i], s, date);
      assert rows[i] in found;
      var k :| 0 <= k < |found| && found[k] == rows[i];
      assert found[k].sellerId == s;
    }
    if s in ExistingSellers(found) {
      var k :| 0 <= k < |found| && found[k].sellerId == s;
      assert found[k] in rows;
    }
  }

  /** The fetch keeps a table's key uniqueness. */
  lemma {:induction false} FindKeepsUniqueKeys(rows: seq<SettlementRow>, date: int, ids: seq<int>)
    requires UniqueKeys(rows)
    ensures UniqueKeys(FindBySettlementDateAndSellerIdIn(rows, date, ids))
  {
    if rows != [] {
      var rest := FindBySettlementDateAndSellerIdIn(rows[1..], date, ids);
      assert UniqueKeys(rows[1..]) by {
        forall i, j | 0 <= i < j < |rows[1..]|
          ensures rows[1..][i].sellerId != rows[1..][j].sellerId
               || rows[1..][i].settlementDate != rows[1..][j].settlementDate
        {
          assert rows[1..][i] == rows[i + 1] && rows[1..][j] == rows[j + 1];
        }
      }
      FindKeepsUniqueKeys(rows[1..], date, ids);
      forall r | r in rest
        ensures r.sellerId != rows[0].sellerId || r.settlementDate != rows[0].settlementDate
      {
        var j :| 0 <= j < |rows[1..]| && rows[1..][j] == r;
        assert rows[j + 1] == r;
      }
    }
  }

  /** On a table with unique keys the toMap step never throws. */
  lemma {:induction false} UpsertSavesOnUniqueTable(rows: seq<SettlementRow>, chunk: seq<SettlementRow>, now: int)
    requires UniqueKeys(rows)
    ensures Upsert(rows, chunk, now).result.Saved?
  {
    if chunk != [] {
      var date := chunk[0].settlementDate;
      var found := FindBySettlementDateAndSellerIdIn(rows, date, SellerIds(chunk));
      FindKeepsUniqueKeys(rows, date, SellerIds(chunk));
      assert Distinct(SellerIds(found)) by {
        forall i, j | 0 <= i < j < |found| ensures SellerIds(found)[i] != SellerIds(found)[j] {
          assert found[i] in rows && found[j] in rows;
        }
      }
      FirstDuplicateSpec(SellerIds(found), {});
    }
  }

  /** With distinct sellers in the items, a fetched row of an item's seller ends up updated by that item. */
  lemma {:induction false} ApplyItemsUpdatesMatched(rows: seq<SettlementRow>, existing: set<int>, date: int,
                                                    items: seq<SettlementRow>, now: int, i: int, j: int)
    requires Distinct(SellerIds(items))
    requires 0 <= i < |rows| && 0 <= j < |items|
    requires rows[i].settlementDate == date && rows[i].sellerId in existing
    requires items[j].sellerId == rows[i].sellerId
    ensures ApplyItems(rows, existing, date, items, now).rows[i] == UpdatedBy(rows[i], items[j], now)
  {
    var init := items[..|items| - 1];
    var c := items[|items| - 1];
    assert SellerIds(init) == SellerIds(items)[..|items| - 1];
    var q := ApplyItems(rows, existing, date, init, now);
    if j == |items| - 1 {
      forall k | 0 <= k < |init| && init[k].sellerId in existing
        ensures !HasKey(rows[i], init[k].sellerId, date)
      {
        assert SellerIds(items)[k] != SellerIds(items)[j];
      }
      ApplyItemsLeaves(rows, existing, date, init, now, i);
    } else {
      assert Distinct(SellerIds(init));
      ApplyItemsUpdatesMatched(rows, existing, date, init, now, i, j);
      assert SellerIds(items)[j] != SellerIds(items)[|items| - 1];
      assert !HasKey(q.rows[i], c.sellerId, date);
    }
  }

  /** The chunk's premises for the upsert guarantees. */
  predicate WellFormedChunk(chunk: seq<SettlementRow>)
  {
    Distinct(SellerIds(chunk)) && SameDate(chunk)
  }

  /** The loop state of a chunk's write, once the fetch succeeded. */
  function ChunkPass(rows: seq<SettlementRow>, chunk: seq<SettlementRow>, now: int): Pass
    requires chunk != []
  {
    var date := chunk[0].settlementDate;
    ApplyItems(rows, ExistingSellers(FindBySettlementDateAndSellerIdIn(rows, date, SellerIds(chunk))),
               date, chunk, now)
  }

  /** On a table with unique keys the written table is the updated rows followed by the inserts. */
  lemma {:induction false} UpsertIsChunkPass(rows: seq<SettlementRow>, chunk: seq<SettlementRow>, now: int)
    requires UniqueKeys(rows) && chunk != []
    ensures var p := ChunkPass(rows, chunk, now);
            Upsert(rows, chunk, now) == Upserted(Saved(|p.inserts|, p.updateCount), p.rows + p.inserts)
  {
    UpsertSavesOnUniqueTable(rows, chunk, now);
  }

  /** When toMap does not throw, the write is the loop state followed by the inserts. */
  lemma UpsertSavedCase(rows: seq<SettlementRow>, chunk: seq<SettlementRow>, now: int, existing: set<int>, p: Pass)
    requires chunk != []
    requires FirstDuplicate(SellerIds(FindBySettlementDateAndSellerIdIn(rows, chunk[0].settlementDate, SellerIds(chunk))), {}).None?
    requires existing == ExistingSellers(FindBySettlementDateAndSellerIdIn(rows, chunk[0].settlementDate, SellerIds(chunk)))
    requires p == ApplyItems(rows, existing, chunk[0].settlementDate, chunk, now)
    ensures Upsert(rows, chunk, now) == Upserted(Saved(|p.inserts|, p.updateCount), p.rows + p.inserts)
  {
  }

  /** When toMap throws, the table is left as it was and the repeated seller is reported. */
  lemma UpsertDuplicateCase(rows: seq<SettlementRow>, chunk: seq<SettlementRow>, now: int)
    requires chunk != []
    requires FirstDuplicate(SellerIds(FindBySettlementDateAndSellerIdIn(rows, chunk[0].settlementDate, SellerIds(chunk))), {}).Some?
    ensures Upsert(rows, chunk, now)
         == Upserted(DuplicateKey(FirstDuplicate(SellerIds(FindBySettlementDateAndSellerIdIn(rows, chunk[0].settlementDate, SellerIds(chunk))), {}).value), rows)
  {
  }

  /** A staged insert is an item of the chunk, of the chunk's date, whose seller had no row. */
  lemma {:induction false} StagedInsert(rows: seq<SettlementRow>, chunk: seq<SettlementRow>, now: int, k: int)
    requires chunk != [] && SameDate(chunk)
    requires 0 <= k < |ChunkPass(rows, chunk, now).inserts|
    ensures var c := ChunkPass(rows, chunk, now).inserts[k];
            && c in chunk && c.settlementDate == chunk[0].settlementDate
            && forall i :: 0 <= i < |rows| ==> !HasKey(rows[i], c.sellerId, chunk[0].settlementDate)
  {
    var date := chunk[0].settlementDate;
    var ids := SellerIds(chunk);
    var c := ChunkPass(rows, chunk, now).inserts[k];
    ApplyItemsInserts(rows, ExistingSellers(FindBySettlementDateAndSellerIdIn(rows, date, ids)), date, chunk, now);
    UnmatchedSound(chunk, ExistingSellers(FindBySettlementDateAndSellerIdIn(rows, date, ids)), k);
    var j :| 0 <= j < |chunk| && chunk[j] == c;
    assert ids[j] == c.sellerId;
    ExistingSellersExact(rows, date, ids, c.sellerId);
  }

  /** Renaming nothing but money and stamps keeps keys unique. */
  lemma {:induction false} SameKeysUnique(a: seq<SettlementRow>, b: seq<SettlementRow>)
    requires UniqueKeys(a) && |a| == |b|
    requires forall i :: 0 <= i < |a| ==> a[i].sellerId == b[i].sellerId && a[i].settlementDate == b[i].settlementDate
    ensures UniqueKeys(b)
  {
  }

  /** Two tables with unique keys and no key in common have unique keys together. */
  lemma {:induction false} UniqueConcat(a: seq<SettlementRow>, b: seq<SettlementRow>)
    requires UniqueKeys(a) && UniqueKeys(b)
    requires forall i, j :: 0 <= i < |a| && 0 <= j < |b| ==> !HasKey(a[i], b[j].sellerId, b[j].settlementDate)
    ensures UniqueKeys(a + b)
  {
    var ab := a + b;
    forall x, y | 0 <= x < y < |ab|
      ensures ab[x].sellerId != ab[y].sellerId || ab[x].settlementDate != ab[y].settlementDate
    {
      if y < |a| {
        assert ab[x] == a[x] && ab[y] == a[y];
      } else if x < |a| {
        assert ab[x] == a[x] && ab[y] == b[y - |a|];
      } else {
        assert ab[x] == b[x - |a|] && ab[y] == b[y - |a|];
      }
    }
  }

  /** The staged inserts of a well-formed chunk have unique keys. */
  lemma {:induction false} StagedInsertsUnique(rows: seq<SettlementRow>, chunk: seq<SettlementRow>, now: int)
    requires chunk != [] && WellFormedChunk(chunk)
    ensures UniqueKeys(ChunkPass(rows, chunk, now).inserts)
  {
    var existing := ExistingSellers(FindBySettlementDateAndSellerIdIn(rows, chunk[0].settlementDate, SellerIds(chunk)));
    ApplyItemsInserts(rows, existing, chunk[0].settlementDate, chunk, now);
    forall a, b | 0 <= a < b < |Unmatched(chunk, existing)|
      ensures Unmatched(chunk, existing)[a].sellerId != Unmatched(chunk, existing)[b].sellerId
    {
      UnmatchedDistinct(chunk, existing, a, b);
    }
  }

  /** The write keeps at most one row per (sellerId, settlementDate). */
  lemma {:induction false} UpsertKeepsUniqueKeys(rows: seq<SettlementRow>, chunk: seq<SettlementRow>, now: int)
    requires UniqueKeys(rows) && WellFormedChunk(chunk)
    ensures var u := Upsert(rows, chunk, now);
            u.result.Saved? && UniqueKeys(u.rows)
  {
    UpsertSavesOnUniqueTable(rows, chunk, now);
    if chunk != [] {
      var p := ChunkPass(rows, chunk, now);
      UpsertIsChunkPass(rows, chunk, now);
      forall i | 0 <= i < |rows| ensures p.rows[i].sellerId == rows[i].sellerId && p.rows[i].settlementDate == rows[i].settlementDate {
        ApplyItemsKeepsKeys(rows, ExistingSellers(FindBySettlementDateAndSellerIdIn(rows, chunk[0].settlementDate, SellerIds(chunk))),
                            chunk[0].settlementDate, chunk, now, i);
      }
      SameKeysUnique(rows, p.rows);
      StagedInsertsUnique(rows, chunk, now);
      forall i, k | 0 <= i < |p.rows| && 0 <= k < |p.inserts|
        ensures !HasKey(p.rows[i], p.inserts[k].sellerId, p.inserts[k].settlementDate)
      {
        StagedInsert(rows, chunk, now, k);
      }
      UniqueConcat(p.rows, p.inserts);
    }
  }

  /** Updating a row with a processed item's values makes it carry that item. */
  lemma UpdatedCarries(r: SettlementRow, c: SettlementRow, now: int)
    requires PendingBalanced(c)
    ensures Carries(UpdatedBy(r, c, now), c)
  {
  }

  /** In the loop state, each item's values sit at a row of the item's key. */
  lemma {:induction false} ChunkPassCarries(rows: seq<SettlementRow>, chunk: seq<SettlementRow>, now: int, j: int)
    requires chunk != [] && WellFormedChunk(chunk)
    requires 0 <= j < |chunk| && PendingBalanced(chunk[j])
    ensures var p := ChunkPass(rows, chunk, now);
      exists k :: 0 <= k < |p.rows + p.inserts| && HasKey((p.rows + p.inserts)[k], chunk[j].sellerId, chunk[0].settlementDate)
                && Carries((p.rows + p.inserts)[k], chunk[j])
  {
    var date := chunk[0].settlementDate;
    var ids := SellerIds(chunk);
    var existing := ExistingSellers(FindBySettlementDateAndSellerIdIn(rows, date, ids));
    var p := ChunkPass(rows, chunk, now);
    var out := p.rows + p.inserts;
    var c := chunk[j];
    assert ids[j] == c.sellerId;
    ExistingSellersExact(rows, date, ids, c.sellerId);
    if c.sellerId in existing {
      var i :| 0 <= i < |rows| && HasKey(rows[i], c.sellerId, date);
      ApplyItemsUpdatesMatched(rows, existing, date, chunk, now, i, j);
      UpdatedCarries(rows[i], c, now);
      assert out[i] == p.rows[i];
      assert HasKey(out[i], c.sellerId, date) && Carries(out[i], c);
    } else {
      UnmatchedComplete(chunk, existing, j);
      ApplyItemsInserts(rows, existing, date, chunk, now);
      var k :| 0 <= k < |p.inserts| && p.inserts[k] == c;
      assert out[|p.rows| + k] == c;
      assert HasKey(out[|p.rows| + k], c.sellerId, date) && Carries(out[|p.rows| + k], c);
    }
  }

  /**
   * After the write, each incoming seller has a row for the chunk's date that carries the
   * incoming values with status PENDING.
   */
  lemma {:induction false} UpsertCarriesIncoming(rows: seq<SettlementRow>, chunk: seq<SettlementRow>, now: int, j: int)
    requires UniqueKeys(rows) && WellFormedChunk(chunk)
    requires 0 <= j < |chunk| && PendingBalanced(chunk[j])
    ensures var u := Upsert(rows, chunk, now);
      exists k :: 0 <= k < |u.rows| && HasKey(u.rows[k], chunk[j].sellerId, chunk[0].settlementDate)
                && Carries(u.rows[k], chunk[j])
  {
    UpsertIsChunkPass(rows, chunk, now);
    ChunkPassCarries(rows, chunk, now, j);
  }

  /** Distinct items are staged at distinct positions: no item is staged twice. */
  lemma {:induction false} UnmatchedDistinct(items: seq<SettlementRow>, existing: set<int>, a: int, b: int)
    requires Distinct(SellerIds(items))
    requires 0 <= a < b < |Unmatched(items, existing)|
    ensures Unmatched(items, existing)[a].sellerId != Unmatched(items, existing)[b].sellerId
  {
    var init := items[..|items| - 1];
    var last := items[|items| - 1];
    var u := Unmatched(init, existing);
    assert SellerIds(init) == SellerIds(items)[..|items| - 1];
    if b < |u| {
      UnmatchedDistinct(init, existing, a, b);
    } else {
      assert Unmatched(items, existing)[b] == last;
      UnmatchedSound(init, existing, a);
      var ja :| 0 <= ja < |init| && init[ja] == u[a];
      assert SellerIds(items)[ja] != SellerIds(items)[|items| - 1];
    }
  }

  /** A row whose key no item of the chunk names (for the chunk's date) is left as it was. */
  lemma {:induction false} UpsertLeavesOthers(rows: seq<SettlementRow>, chunk: seq<SettlementRow>, now: int, i: int)
    requires 0 <= i < |rows|
    requires forall k :: 0 <= k < |chunk| ==> !HasKey(rows[i], chunk[k].sellerId, chunk[0].settlementDate)
    ensures |Upsert(rows, chunk, now).rows| >= |rows|
    ensures Upsert(rows, chunk, now).rows[i] == rows[i]
  {
    if chunk != [] {
      var date := chunk[0].settlementDate;
      var found := FindBySettlementDateAndSellerIdIn(rows, date, SellerIds(chunk));
      if FirstDuplicate(SellerIds(found), {}).None? {
        var existing := ExistingSellers(found);
        var p := ApplyItems(rows, existing, date, chunk, now);
        ApplyItemsLeaves(rows, existing, date, chunk, now, i);
        UpsertSavedCase(rows, chunk, now, existing, p);
        assert (p.rows + p.inserts)[i] == p.rows[i];
      }
    }
  }

  /** With no fetched seller, the loop stages every item and touches no row. */
  lemma {:induction false} ApplyItemsNoneFetched(rows: seq<SettlementRow>, date: int, items: seq<SettlementRow>, now: int)
    ensures ApplyItems(rows, {}, date, items, now) == Pass(rows, items, 0)
    decreases |items|
  {
    if items != [] {
      ApplyItemsNoneFetched(rows, date, items[..|items| - 1], now);
      assert items[..|items| - 1] + [items[|items| - 1]] == items;
    }
  }

  /** On a date where no chunk seller has a row yet, the write appends the whole chunk as inserts. */
  lemma {:induction false} UpsertIntoFreshKeys(rows: seq<SettlementRow>, chunk: seq<SettlementRow>, now: int)
    requires chunk != []
    requires forall i, k :: 0 <= i < |rows| && 0 <= k < |chunk| ==> !HasKey(rows[i], chunk[k].sellerId, chunk[0].settlementDate)
    ensures Upsert(rows, chunk, now) == Upserted(Saved(|chunk|, 0), rows + chunk)
  {
    var date := chunk[0].settlementDate;
    var ids := SellerIds(chunk);
    var found := FindBySettlementDateAndSellerIdIn(rows, date, ids);
    if found != [] {
      assert found[0] in rows;
      var i :| 0 <= i < |rows| && rows[i] == found[0];
      var k :| 0 <= k < |ids| && ids[k] == found[0].sellerId;
      assert HasKey(rows[i], chunk[k].sellerId, date);
      assert false;
    }
    assert ExistingSellers(found) == {};
    ApplyItemsNoneFetched(rows, date, chunk, now);
    UpsertSavedCase(rows, chunk, now, {}, Pass(rows, chunk, 0));
  }

  /** When every item's seller was fetched, nothing is staged as an insert. */
  lemma {:induction false} UnmatchedNone(items: seq<SettlementRow>, existing: set<int>)
    requires forall k :: 0 <= k < |items| ==> items[k].sellerId in existing
    ensures Unmatched(items, existing) == []
    decreases |items|
  {
    if items != [] {
      UnmatchedNone(items[..|items| - 1], existing);
    }
  }

  /** Updating a row that already carries an item with that item changes nothing but updatedAt. */
  lemma UpdateCarriedRow(r: SettlementRow, c: SettlementRow, now: int)
    requires Carries(r, c) && PendingBalanced(c)
    ensures Unstamped(UpdatedBy(r, c, now)) == Unstamped(r)
  {
  }

  /** Every item of the chunk has a row of its key, on the chunk's date, that carries its values. */
  predicate CarriedBy(rows: seq<SettlementRow>, chunk: seq<SettlementRow>)
  {
    forall j :: 0 <= j < |chunk| ==>
      exists i :: 0 <= i < |rows| && HasKey(rows[i], chunk[j].sellerId, chunk[0].settlementDate) && Carries(rows[i], chunk[j])
  }

  /**
   * Writing a chunk over a table that already carries it finds every seller, so it is all
   * updates, and the table it leaves equals the old one apart from updatedAt stamps.
   */
  lemma {:induction false} UpsertOverCarried(rows: seq<SettlementRow>, chunk: seq<SettlementRow>, now: int)
    requires UniqueKeys(rows) && WellFormedChunk(chunk)
    requires forall j :: 0 <= j < |chunk| ==> PendingBalanced(chunk[j])
    requires CarriedBy(rows, chunk)
    ensures Upsert(rows, chunk, now).result == Saved(0, |chunk|)
    ensures SameExceptUpdatedAt(rows, Upsert(rows, chunk, now).rows)
  {
    if chunk != [] {
      var date := chunk[0].settlementDate;
      var ids := SellerIds(chunk);
      var existing := ExistingSellers(FindBySettlementDateAndSellerIdIn(rows, date, ids));
      var p := ChunkPass(rows, chunk, now);
      forall j | 0 <= j < |chunk| ensures chunk[j].sellerId in existing {
        assert ids[j] == chunk[j].sellerId;
        ExistingSellersExact(rows, date, ids, chunk[j].sellerId);
      }
      UnmatchedNone(chunk, existing);
      ApplyItemsInserts(rows, existing, date, chunk, now);
      UpsertIsChunkPass(rows, chunk, now);
      assert p.rows + p.inserts == p.rows;
      forall i | 0 <= i < |rows| ensures Unstamped(rows[i]) == Unstamped(p.rows[i]) {
        if j :| 0 <= j < |chunk| && HasKey(rows[i], chunk[j].sellerId, date) {
          var k :| 0 <= k < |rows| && HasKey(rows[k], chunk[j].sellerId, date) && Carries(rows[k], chunk[j]);
          assert k == i;
          ApplyItemsUpdatesMatched(rows, existing, date, chunk, now, i, j);
          UpdateCarriedRow(rows[i], chunk[j], now);
        } else {
          ApplyItemsLeaves(rows, existing, date, chunk, now, i);
        }
      }
    }
  }

  /**
   * Writing the same chunk a second time finds every seller, so it is all updates, and the
   * table it leaves equals the first write's table apart from updatedAt stamps.
   */
  lemma {:induction false} UpsertTwice(rows: seq<SettlementRow>, chunk: seq<SettlementRow>, now1: int, now2: int,
                                       first: seq<SettlementRow>)
    requires UniqueKeys(rows) && WellFormedChunk(chunk)
    requires forall j :: 0 <= j < |chunk| ==> PendingBalanced(chunk[j])
    requires first == Upsert(rows, chunk, now1).rows
    ensures Upsert(first, chunk, now2).result == Saved(0, |chunk|)
    ensures SameExceptUpdatedAt(first, Upsert(first, chunk, now2).rows)
  {
    UpsertKeepsUniqueKeys(rows, chunk, now1);
    forall j | 0 <= j < |chunk|
      ensures exists i :: 0 <= i < |first| && HasKey(first[i], chunk[j].sellerId, chunk[0].settlementDate)
                          && Carries(first[i], chunk[j])
    {
      UpsertCarriesIncoming(rows, chunk, now1, j);
    }
    UpsertOverCarried(first, chunk, now2);
  }

  // ---------------------------------------------------------------------------------------
  // The writer on managed entities

  /** The seller ids of a list of entities; the seller is a constant field. */
  function SellerIdsOf(ss: seq<Settlement>): (ids: seq<int>)
    ensures |ids| == |ss| && forall i :: 0 <= i < |ss| ==> ids[i] == ss[i].sellerId
  {
    if ss == [] then [] else [ss[0].sellerId] + SellerIdsOf(ss[1..])
  }

  /**
   * Collectors.toMap(Settlement::getSellerId, identity): the map from seller to entity, or the
   * first seller id met a second time, for which toMap throws.
   */
  method ToMap(found: seq<Settlement>) returns (m: map<int, Settlement>, dup: Option<int>)
    ensures dup == FirstDuplicate(SellerIdsOf(found), {})
    ensures dup.None? ==> forall s :: s in m <==> s in SellerIdsOf(found)
    ensures dup.None? ==> forall j :: 0 <= j < |found| ==> found[j].sellerId in m && m[found[j].sellerId] == found[j]
  {
    ghost var ids := SellerIdsOf(found);
    m := map[];
    var k := 0;
    assert ids[k..] == ids && m.Keys == {};
    while k < |found|
      invariant 0 <= k <= |found|
      invariant forall s :: s in m <==> s in ids[..k]
      invariant forall j :: 0 <= j < k ==> found[j].sellerId in m && m[found[j].sellerId] == found[j]
      invariant FirstDuplicate(ids, {}) == FirstDuplicate(ids[k..], m.Keys)
    {
      FirstDuplicateStep(ids, k, m.Keys);
      assert ids[k] == found[k].sellerId;
      if found[k].sellerId in m {
        return m, Some(found[k].sellerId);
      }
      assert ids[..k + 1] == ids[..k] + [ids[k]];
      ghost var keys := m.Keys;
      m := m[found[k].sellerId := found[k]];
      assert m.Keys == keys + {ids[k]};
      k := k + 1;
    }
    assert ids[..k] == ids;
    dup := None;
  }

  /** One step of toMap: the k-th id either repeats or joins the ids seen. */
  lemma FirstDuplicateStep(ids: seq<int>, k: int, seen: set<int>)
    requires 0 <= k < |ids|
    ensures FirstDuplicate(ids[k..], seen)
              == if ids[k] in seen then Some(ids[k]) else FirstDuplicate(ids[k + 1..], seen + {ids[k]})
  {
    assert ids[k..][1..] == ids[k + 1..];
  }

  /** The entity ids and the row ids of a list agree. */
  lemma {:induction false} SellerIdsOfViews(ss: seq<Settlement>)
    ensures SellerIdsOf(ss) == SellerIds(Views(ss))
  {
    forall i | 0 <= i < |ss| ensures SellerIdsOf(ss)[i] == SellerIds(Views(ss))[i] {
      ViewAt(ss, i);
    }
  }

  /** One more item through the loop. */
  lemma ApplyItemsStep(rows: seq<SettlementRow>, existing: set<int>, date: int,
                       items: seq<SettlementRow>, i: int, now: int, q: Pass)
    requires 0 <= i < |items|
    requires q == ApplyItems(rows, existing, date, items[..i], now)
    ensures ApplyItems(rows, existing, date, items[..i + 1], now)
              == if items[i].sellerId in existing then Pass(UpdateWhere(q.rows, date, items[i], now), q.inserts, q.updateCount + 1)
                 else Pass(q.rows, q.inserts + [items[i]], q.updateCount)
  {
    assert items[..i + 1][..i] == items[..i];
  }

  /** The entity an item puts in toSave: the fetched entity of its seller, or the item itself. */
  function Target(c: Settlement, existingMap: map<int, Settlement>): Settlement
  {
    if c.sellerId in existingMap then existingMap[c.sellerId] else c
  }

  /** toSave after the loop over a chunk: one target per item, in chunk order. */
  function Targets(chunk: seq<Settlement>, existingMap: map<int, Settlement>): (t: seq<Settlement>)
    ensures |t| == |chunk|
  {
    if chunk == [] then []
    else Targets(chunk[..|chunk| - 1], existingMap) + [Target(chunk[|chunk| - 1], existingMap)]
  }

  /** The items of a chunk whose seller has no fetched entity, in chunk order: the new entities. */
  function Unfetched(chunk: seq<Settlement>, existingMap: map<int, Settlement>): seq<Settlement>
  {
    if chunk == [] then []
    else Unfetched(chunk[..|chunk| - 1], existingMap)
         + (if chunk[|chunk| - 1].sellerId in existingMap then [] else [chunk[|chunk| - 1]])
  }

  /** One more item through the loop adds its target to toSave. */
  lemma TargetsStep(chunk: seq<Settlement>, existingMap: map<int, Settlement>, i: int)
    requires 0 <= i < |chunk|
    ensures Targets(chunk[..i + 1], existingMap) == Targets(chunk[..i], existingMap) + [Target(chunk[i], existingMap)]
  {
    assert chunk[..i + 1][..i] == chunk[..i];
  }

  /** saveAll inserts exactly the unfetched items: every fetched entity is already in the table. */
  lemma {:induction false} TargetsNotStored(chunk: seq<Settlement>, existingMap: map<int, Settlement>,
                                            rows: seq<Settlement>)
    requires forall s :: s in existingMap ==> existingMap[s] in rows
    requires forall j :: 0 <= j < |chunk| ==> chunk[j] !in rows
    ensures NotStored(Targets(chunk, existingMap), rows) == Unfetched(chunk, existingMap)
  {
    if chunk != [] {
      var init := chunk[..|chunk| - 1];
      assert forall j :: 0 <= j < |init| ==> init[j] == chunk[j];
      TargetsNotStored(init, existingMap, rows);
      var t := Targets(chunk, existingMap);
      assert t[..|t| - 1] == Targets(init, existingMap);
    }
  }

  /** The unfetched items of a chunk of distinct entities are distinct items of the chunk. */
  lemma {:induction false} UnfetchedDistinct(chunk: seq<Settlement>, existingMap: map<int, Settlement>)
    requires DistinctObjects(chunk)
    ensures DistinctObjects(Unfetched(chunk, existingMap))
    ensures forall k :: 0 <= k < |Unfetched(chunk, existingMap)| ==> Unfetched(chunk, existingMap)[k] in chunk
  {
    if chunk != [] {
      var init := chunk[..|chunk| - 1];
      var x := chunk[|chunk| - 1];
      assert forall j :: 0 <= j < |init| ==> init[j] == chunk[j];
      UnfetchedDistinct(init, existingMap);
      var u := Unfetched(init, existingMap);
      forall k | 0 <= k < |u| ensures u[k] in chunk && u[k] != x {
        var j :| 0 <= j < |init| && init[j] == u[k];
        assert chunk[j] == u[k];
      }
    }
  }

  /** The views of the unfetched items are the unmatched item values. */
  lemma {:induction false} UnfetchedViews(chunk: seq<Settlement>, existingMap: map<int, Settlement>)
    ensures Views(Unfetched(chunk, existingMap)) == Unmatched(Views(chunk), existingMap.Keys)
  {
    if chunk != [] {
      var init := chunk[..|chunk| - 1];
      var x := chunk[|chunk| - 1];
      UnfetchedViews(init, existingMap);
      assert chunk == init + [x];
      ViewsAppend(init, [x]);
      var xs := if x.sellerId in existingMap then [] else [x];
      ViewsAppend(Unfetched(init, existingMap), xs);
      assert Views([x]) == [x.View()] by {
        assert [x][1..] == [];
      }
      var vs := Views(chunk);
      assert vs[..|vs| - 1] == Views(init);
      assert xs == [] ==> Views(xs) == [];
    }
  }

  /**
   * existing.update(...) with an incoming entity's values, seen on the whole table: the fetched
   * entity is the only row keyed to the incoming seller and the date, so exactly the rows
   * UpdateWhere names change.
   */
  method UpdateFetched(rows: seq<Settlement>, e: Settlement, c: Settlement,
                       ghost chunk: seq<Settlement>, date: int, now: int,
                       ghost before: seq<SettlementRow>, ghost incoming: SettlementRow)
    requires before == Views(rows) && incoming == c.View()
    requires e in rows && e != c && e.sellerId == c.sellerId && e.settlementDate == date
    requires forall m :: 0 <= m < |rows| && rows[m].settlementDate == date && rows[m].sellerId == c.sellerId ==>
               rows[m] == e
    requires forall i :: 0 <= i < |chunk| ==> chunk[i] != e
    modifies e
    ensures Views(rows) == UpdateWhere(before, date, incoming, now)
    ensures Views(chunk) == old(Views(chunk))
  {
    forall m | 0 <= m < |rows| ensures before[m] == rows[m].View() {
      ViewAt(rows, m);
    }
    e.Update(c.totalSales, c.commissionRate, c.orderCount, c.itemCount, now);
    forall m | 0 <= m < |rows|
      ensures Views(rows)[m] == UpdateWhere(before, date, incoming, now)[m]
    {
      ViewAt(rows, m);
      if rows[m] != e {
        assert !HasKey(before[m], c.sellerId, date);
      }
    }
  }

  /**
   * The loop of write: each entity of the chunk updates the fetched entity of its seller
   * in place, or is kept as an insert; toSave collects both, in chunk order.
   */
  method Stage(rows: seq<Settlement>, chunk: seq<Settlement>, existingMap: map<int, Settlement>, date: int, now: int,
               ghost v0: seq<SettlementRow>, ghost cv: seq<SettlementRow>)
      returns (toSave: seq<Settlement>, insertCount: nat, updateCount: nat, ghost p: Pass)
    requires v0 == Views(rows) && cv == Views(chunk)
    requires forall i :: 0 <= i < |chunk| ==> chunk[i] !in rows
    requires forall s :: s in existingMap ==>
               existingMap[s] in rows && existingMap[s].sellerId == s && existingMap[s].settlementDate == date
    requires forall m :: 0 <= m < |rows| && rows[m].settlementDate == date
                         && rows[m].sellerId in existingMap ==>
               existingMap[rows[m].sellerId] == rows[m]
    modifies rows
    ensures toSave == Targets(chunk, existingMap)
    ensures p == ApplyItems(v0, existingMap.Keys, date, cv, now)
    ensures Views(rows) == p.rows && Views(chunk) == cv
    ensures insertCount == |p.inserts| && updateCount == p.updateCount
  {
    ghost var existing := existingMap.Keys;
    toSave := [];
    p := Pass(v0, [], 0);
    insertCount, updateCount := 0, 0;
    for i := 0 to |chunk|
      invariant Views(chunk) == cv
      invariant p == ApplyItems(v0, existing, date, cv[..i], now)
      invariant Views(rows) == p.rows
      invariant insertCount == |p.inserts| && updateCount == p.updateCount
      invariant toSave == Targets(chunk[..i], existingMap)
    {
      var c := chunk[i];
      ViewAt(chunk, i);
      ApplyItemsStep(v0, existing, date, cv, i, now, p);
      TargetsStep(chunk, existingMap, i);
      if c.sellerId in existingMap {
        var e := existingMap[c.sellerId];
        UpdateFetched(rows, e, c, chunk, date, now, p.rows, cv[i]);
        p := Pass(UpdateWhere(p.rows, date, cv[i], now), p.inserts, p.updateCount + 1);
        toSave := toSave + [e];
        updateCount := updateCount + 1;
      } else {
        p := Pass(p.rows, p.inserts + [cv[i]], p.updateCount);
        toSave := toSave + [c];
        insertCount := insertCount + 1;
      }
    }
    assert cv[..|chunk|] == cv;
    assert chunk[..|chunk|] == chunk;
  }

  /** The SettlementWriter bean: the upsert of one chunk through the repository. */
  class SettlementWriter {
    const repository: SettlementStore

    constructor (repository: SettlementStore)
      ensures this.repository == repository
    {
      this.repository := repository;
    }

    /**
     * The fetch of write: the chunk's seller ids, the rows of the chunk's date for them, and
     * toMap over those rows, which reports the first seller met twice.
     */
    method FetchExisting(chunk: seq<Settlement>, ghost v0: seq<SettlementRow>, ghost cv: seq<SettlementRow>)
        returns (date: int, existingMap: map<int, Settlement>, dup: Option<int>)
      requires chunk != [] && v0 == Views(repository.rows) && cv == Views(chunk)
      ensures date == cv[0].settlementDate
      ensures dup == FirstDuplicate(SellerIds(FindBySettlementDateAndSellerIdIn(v0, date, SellerIds(cv))), {})
      ensures dup.None? ==> existingMap.Keys == ExistingSellers(FindBySettlementDateAndSellerIdIn(v0, date, SellerIds(cv)))
      ensures dup.None? ==> forall s :: s in existingMap ==>
                existingMap[s] in repository.rows && existingMap[s].sellerId == s && existingMap[s].settlementDate == date
      ensures dup.None? ==>
                forall m :: 0 <= m < |repository.rows| && repository.rows[m].settlementDate == date
                            && repository.rows[m].sellerId in existingMap ==>
                  existingMap[repository.rows[m].sellerId] == repository.rows[m]
    {
      var sellerIds := SellerIdsOf(chunk);
      SellerIdsOfViews(chunk);
      date := chunk[0].settlementDate;
      ViewAt(chunk, 0);
      var found := repository.FindBySettlementDateAndSellerIdIn(date, sellerIds);
      MatchingViews(repository.rows, date, sellerIds);
      SellerIdsOfViews(found);
      existingMap, dup := ToMap(found);
      if dup.None? {
        FetchedEntities(repository.rows, found, existingMap, date, sellerIds);
      }
    }

    /**
     * saveAll(toSave) after the loop: the unfetched items join the table, which then shows the
     * loop's rows followed by its inserts and still holds valid entities, each once.
     */
    method SaveStaged(chunk: seq<Settlement>, existingMap: map<int, Settlement>, date: int, now: int,
                      ghost v0: seq<SettlementRow>, ghost cv: seq<SettlementRow>)
        returns (insertCount: nat, updateCount: nat, ghost p: Pass)
      requires DistinctObjects(repository.rows) && DistinctObjects(chunk)
      requires v0 == Views(repository.rows) && cv == Views(chunk)
      requires forall i :: 0 <= i < |v0| ==> Balanced(v0[i])
      requires forall j :: 0 <= j < |cv| ==> Balanced(cv[j])
      requires forall j :: 0 <= j < |chunk| ==> chunk[j] !in repository.rows
      requires forall s :: s in existingMap ==>
                 existingMap[s] in repository.rows && existingMap[s].sellerId == s && existingMap[s].settlementDate == date
      requires forall m :: 0 <= m < |repository.rows| && repository.rows[m].settlementDate == date
                           && repository.rows[m].sellerId in existingMap ==>
                 existingMap[repository.rows[m].sellerId] == repository.rows[m]
      modifies repository, repository.rows
      ensures p == ApplyItems(v0, existingMap.Keys, date, cv, now)
      ensures insertCount == |p.inserts| && updateCount == p.updateCount
      ensures repository.Valid()
      ensures repository.Snapshot() == p.rows + p.inserts
    {
      ghost var rows0 := repository.rows;
      var toSave;
      toSave, insertCount, updateCount, p := Stage(repository.rows, chunk, existingMap, date, now, v0, cv);
      assert repository.rows == rows0;
      ghost var after := repository.rows + Unfetched(chunk, existingMap);
      SavedRows(repository.rows, chunk, existingMap);
      SavedViews(repository.rows, chunk, existingMap, v0, cv, date, now, p);
      SavedValid(after, v0, cv, existingMap.Keys, date, now, p);
      ghost var va := Views(after);
      repository.SaveAll(toSave);
      assert repository.rows == after;
      assert Views(after) == va;
    }

    /**
     * write(chunk). The chunk's entities are new (not managed by the store) and distinct,
     * as the processor makes them. The table, the counts and the thrown duplicate key are
     * exactly those of Upsert on the table's value.
     */
    method Write(chunk: seq<Settlement>, now: int) returns (result: WriteResult)
      requires repository.Valid()
      requires DistinctObjects(chunk)
      requires forall i :: 0 <= i < |chunk| ==> chunk[i].Valid() && chunk[i] !in repository.rows
      modifies repository, repository.rows
      ensures repository.Valid()
      ensures Upserted(result, repository.Snapshot()) == Upsert(old(repository.Snapshot()), old(Views(chunk)), now)
    {
      if |chunk| == 0 {
        return Saved(0, 0);
      }
      ghost var rows0 := repository.rows;
      ghost var v0 := Views(rows0);
      ghost var cv := Views(chunk);
      ValidBalanced(rows0);
      ValidBalanced(chunk);
      var date, existingMap, dup := FetchExisting(chunk, v0, cv);
      if dup.Some? {
        UpsertDuplicateCase(v0, cv, now);
        return DuplicateKey(dup.value);
      }
      var insertCount, updateCount, p := SaveStaged(chunk, existingMap, date, now, v0, cv);
      UpsertSavedCase(v0, cv, now, existingMap.Keys, p);
      result := Saved(insertCount, updateCount);
    }
  }

  /** saveAll(toSave) appends the unfetched items, and the table still holds each entity once. */
  lemma SavedRows(rows0: seq<Settlement>, chunk: seq<Settlement>, existingMap: map<int, Settlement>)
    requires DistinctObjects(rows0) && DistinctObjects(chunk)
    requires forall s :: s in existingMap ==> existingMap[s] in rows0
    requires forall j :: 0 <= j < |chunk| ==> chunk[j] !in rows0
    ensures Persisted(rows0, Targets(chunk, existingMap)) == rows0 + Unfetched(chunk, existingMap)
    ensures DistinctObjects(rows0 + Unfetched(chunk, existingMap))
  {
    TargetsNotStored(chunk, existingMap, rows0);
    UnfetchedDistinct(chunk, existingMap);
    PersistedAppendsNew(rows0, Targets(chunk, existingMap));
    DistinctConcat(rows0, Unfetched(chunk, existingMap));
  }

  /** After the loop, the table followed by the unfetched items shows the loop's rows and inserts. */
  lemma SavedViews(rows0: seq<Settlement>, chunk: seq<Settlement>, existingMap: map<int, Settlement>,
                   v0: seq<SettlementRow>, cv: seq<SettlementRow>, date: int, now: int, p: Pass)
    requires p == ApplyItems(v0, existingMap.Keys, date, cv, now)
    requires Views(rows0) == p.rows && Views(chunk) == cv
    ensures Views(rows0 + Unfetched(chunk, existingMap)) == p.rows + p.inserts
  {
    UnfetchedViews(chunk, existingMap);
    ApplyItemsInserts(v0, existingMap.Keys, date, cv, now);
    ViewsAppend(rows0, Unfetched(chunk, existingMap));
  }

  /** Balanced rows and items give a table of valid entities after the loop. */
  lemma SavedValid(after: seq<Settlement>, v0: seq<SettlementRow>, cv: seq<SettlementRow>,
                   existing: set<int>, date: int, now: int, p: Pass)
    requires forall i :: 0 <= i < |v0| ==> Balanced(v0[i])
    requires forall j :: 0 <= j < |cv| ==> Balanced(cv[j])
    requires p == ApplyItems(v0, existing, date, cv, now)
    requires Views(after) == p.rows + p.inserts
    ensures forall i :: 0 <= i < |after| ==> after[i].Valid()
  {
    ApplyItemsBalanced(v0, existing, date, cv, now);
    BalancedAppend(p.rows, p.inserts);
    BalancedValid(after, p.rows + p.inserts);
  }

  /** Two lists of balanced rows make one. */
  lemma BalancedAppend(a: seq<SettlementRow>, b: seq<SettlementRow>)
    requires forall i :: 0 <= i < |a| ==> Balanced(a[i])
    requires forall j :: 0 <= j < |b| ==> Balanced(b[j])
    ensures forall i :: 0 <= i < |a + b| ==> Balanced((a + b)[i])
  {
    forall i | 0 <= i < |a + b| ensures Balanced((a + b)[i]) {
      if i >= |a| {
        assert (a + b)[i] == b[i - |a|];
      }
    }
  }

  /** Valid entities have balanced views. */
  lemma ValidBalanced(ss: seq<Settlement>)
    requires forall i :: 0 <= i < |ss| ==> ss[i].Valid()
    ensures forall i :: 0 <= i < |Views(ss)| ==> Balanced(Views(ss)[i])
  {
    forall i | 0 <= i < |ss| ensures Balanced(Views(ss)[i]) {
      ViewAt(ss, i);
    }
  }

  /** Entities whose views are balanced are valid. */
  lemma BalancedValid(ss: seq<Settlement>, vs: seq<SettlementRow>)
    requires Views(ss) == vs && forall i :: 0 <= i < |vs| ==> Balanced(vs[i])
    ensures forall i :: 0 <= i < |ss| ==> ss[i].Valid()
  {
    forall i | 0 <= i < |ss| ensures ss[i].Valid() {
      ViewAt(ss, i);
    }
  }

  /** The loop keeps every row and every staged insert balanced. */
  lemma {:induction false} ApplyItemsBalanced(rows: seq<SettlementRow>, existing: set<int>, date: int,
                                              items: seq<SettlementRow>, now: int)
    requires forall i :: 0 <= i < |rows| ==> Balanced(rows[i])
    requires forall j :: 0 <= j < |items| ==> Balanced(items[j])
    ensures forall i :: 0 <= i < |ApplyItems(rows, existing, date, items, now).rows| ==>
              Balanced(ApplyItems(rows, existing, date, items, now).rows[i])
    ensures forall t :: 0 <= t < |ApplyItems(rows, existing, date, items, now).inserts| ==>
              Balanced(ApplyItems(rows, existing, date, items, now).inserts[t])
    decreases |items|
  {
    if items != [] {
      var init := items[..|items| - 1];
      var c := items[|items| - 1];
      assert forall j :: 0 <= j < |init| ==> init[j] == items[j];
      ApplyItemsBalanced(rows, existing, date, init, now);
      var q := ApplyItems(rows, existing, date, init, now);
      if c.sellerId in existing {
        var u := UpdateWhere(q.rows, date, c, now);
        forall i | 0 <= i < |u| ensures Balanced(u[i]) {
          if HasKey(q.rows[i], c.sellerId, date) {
            assert u[i] == UpdatedBy(q.rows[i], c, now);
          }
        }
      } else {
        var ins := q.inserts + [c];
        forall t | 0 <= t < |ins| ensures Balanced(ins[t]) {
          if t < |q.inserts| {
            assert ins[t] == q.inserts[t];
          }
        }
      }
    }
  }

  /** Two distinct lists with nothing in common concatenate to a distinct list. */
  lemma DistinctConcat(a: seq<Settlement>, b: seq<Settlement>)
    requires DistinctObjects(a) && DistinctObjects(b)
    requires forall t :: 0 <= t < |b| ==> b[t] !in a
    ensures DistinctObjects(a + b)
  {
    var ab := a + b;
    forall x, y | 0 <= x < y < |ab| ensures ab[x] != ab[y] {
      if y >= |a| && x < |a| {
        assert ab[y] == b[y - |a|] && ab[x] == a[x];
      }
    }
  }

  /** What the fetch and toMap leave: the map holds, per seller, the one row of that seller and date. */
  lemma FetchedEntities(rows: seq<Settlement>, found: seq<Settlement>, existingMap: map<int, Settlement>,
                        date: int, sellerIds: seq<int>)
    requires found == Matching(rows, date, sellerIds)
    requires forall s :: s in existingMap <==> s in SellerIdsOf(found)
    requires forall j :: 0 <= j < |found| ==> found[j].sellerId in existingMap && existingMap[found[j].sellerId] == found[j]
    ensures existingMap.Keys == ExistingSellers(Views(found))
    ensures forall s :: s in existingMap ==>
              existingMap[s] in rows && existingMap[s].sellerId == s && existingMap[s].settlementDate == date
    ensures forall m :: 0 <= m < |rows| && rows[m].settlementDate == date && rows[m].sellerId in existingMap ==>
              existingMap[rows[m].sellerId] == rows[m]
  {
    forall s ensures s in existingMap <==> s in ExistingSellers(Views(found)) {
      if s in existingMap {
        var j :| 0 <= j < |found| && SellerIdsOf(found)[j] == s;
        ViewAt(found, j);
      }
      if s in ExistingSellers(Views(found)) {
        var j :| 0 <= j < |found| && Views(found)[j].sellerId == s;
        ViewAt(found, j);
      }
    }
    forall m | 0 <= m < |rows| && rows[m].settlementDate == date && rows[m].sellerId in existingMap
      ensures existingMap[rows[m].sellerId] == rows[m]
    {
      var j :| 0 <= j < |found| && SellerIdsOf(found)[j] == rows[m].sellerId;
      assert rows[m] in found;
    }
  }
}
