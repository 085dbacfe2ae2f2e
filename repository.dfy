/**
 * SettlementRepository: the query semantics of the settlements table, stated on values,
 * and the store object whose rows are Settlement entities.
 */
module Repository {
  import opened Settlements

  /** A row's key is (sellerId, settlementDate); nothing in the schema enforces its uniqueness. */
  predicate HasKey(r: SettlementRow, sellerId: int, date: int)
  {
    r.sellerId == sellerId && r.settlementDate == date
  }

  /** At most one row per (sellerId, settlementDate). */
  predicate UniqueKeys(rows: seq<SettlementRow>)
  {
    forall i, j :: 0 <= i < j < |rows| ==>
      rows[i].sellerId != rows[j].sellerId || rows[i].settlementDate != rows[j].settlementDate
  }

  /**
   * findBySettlementDateAndSellerIdIn: the rows of that date whose seller is in the list,
   * in table order.
   */
  function FindBySettlementDateAndSellerIdIn(rows: seq<SettlementRow>, date: int, sellerIds: seq<int>)
    : (found: seq<SettlementRow>)
    ensures forall r :: r in found <==> r in rows && r.settlementDate == date && r.sellerId in sellerIds
    ensures |found| <= |rows|
  {
    if rows == [] then []
    else (if rows[0].settlementDate == date && rows[0].sellerId in sellerIds then [rows[0]] else [])
         + FindBySettlementDateAndSellerIdIn(rows[1..], date, sellerIds)
  }

  /** The number of rows carrying a key. */
  function CountKey(rows: seq<SettlementRow>, sellerId: int, date: int): nat
  {
    if rows == [] then 0
    else (if HasKey(rows[0], sellerId, date) then 1 else 0) + CountKey(rows[1..], sellerId, date)
  }

  lemma {:induction false} CountKeyZero(rows: seq<SettlementRow>, sellerId: int, date: int)
    ensures CountKey(rows, sellerId, date) == 0 <==> forall i :: 0 <= i < |rows| ==> !HasKey(rows[i], sellerId, date)
  {
    if rows != [] {
      CountKeyZero(rows[1..], sellerId, date);
      assert forall i :: 1 <= i < |rows| ==> rows[i] == rows[1..][i - 1];
    }
  }

  /** An Optional-returning derived query: more than one match is an error, not a choice. */
  datatype Lookup = NotFound | Found(row: SettlementRow) | NonUniqueResult

  /** findBySellerIdAndSettlementDate */
  function FindBySellerIdAndSettlementDate(rows: seq<SettlementRow>, sellerId: int, date: int): (r: Lookup)
    ensures r.NotFound? <==> forall i :: 0 <= i < |rows| ==> !HasKey(rows[i], sellerId, date)
    ensures r.Found? ==> r.row in rows && HasKey(r.row, sellerId, date) && CountKey(rows, sellerId, date) == 1
    ensures r.NonUniqueResult? <==> CountKey(rows, sellerId, date) >= 2
  {
    CountKeyZero(rows, sellerId, date);
    FindOneWithKey(rows, sellerId, date)
  }

  function FindOneWithKey(rows: seq<SettlementRow>, sellerId: int, date: int): (r: Lookup)
    ensures r.NotFound? <==> CountKey(rows, sellerId, date) == 0
    ensures r.Found? ==> r.row in rows && HasKey(r.row, sellerId, date) && CountKey(rows, sellerId, date) == 1
    ensures r.NonUniqueResult? <==> CountKey(rows, sellerId, date) >= 2
  {
    if rows == [] then NotFound
    else
      var rest := FindOneWithKey(rows[1..], sellerId, date);
      if !HasKey(rows[0], sellerId, date) then rest
      else if rest.NotFound? then Found(rows[0])
      else NonUniqueResult
  }

  /** With unique keys the single-row query never meets the error case. */
  lemma {:induction false} UniqueKeysSingleMatch(rows: seq<SettlementRow>, sellerId: int, date: int)
    requires UniqueKeys(rows)
    ensures CountKey(rows, sellerId, date) <= 1
    ensures !FindBySellerIdAndSettlementDate(rows, sellerId, date).NonUniqueResult?
  {
    if rows != [] {
      UniqueKeysSingleMatch(rows[1..], sellerId, date);
      if HasKey(rows[0], sellerId, date) {
        forall i | 0 <= i < |rows[1..]|
          ensures !HasKey(rows[1..][i], sellerId, date)
        {
          assert rows[1..][i] == rows[i + 1];
        }
        CountKeyZero(rows[1..], sellerId, date);
      }
    }
  }

  /** existsBySettlementDate */
  function ExistsBySettlementDate(rows: seq<SettlementRow>, date: int): (b: bool)
    ensures b <==> exists i :: 0 <= i < |rows| && rows[i].settlementDate == date
  {
    if rows == [] then false
    else if rows[0].settlementDate == date then true
    else
      assert forall i :: 1 <= i < |rows| ==> rows[i] == rows[1..][i - 1];
      ExistsBySettlementDate(rows[1..], date)
  }

  /** The values of a sequence of entities. */
  function Views(ss: seq<Settlement>): (vs: seq<SettlementRow>)
    reads ss
    ensures |vs| == |ss|
  {
    if ss == [] then [] else [ss[0].View()] + Views(ss[1..])
  }

  /** The view of a list of entities is the list of their views. */
  lemma {:induction false} ViewAt(ss: seq<Settlement>, i: int)
    requires 0 <= i < |ss|
    ensures Views(ss)[i] == ss[i].View()
  {
    if i > 0 {
      ViewAt(ss[1..], i - 1);
    }
  }

  /** The entities of a date whose seller is listed; seller and date are constant fields. */
  function Matching(ss: seq<Settlement>, date: int, sellerIds: seq<int>): (found: seq<Settlement>)
    ensures forall i :: 0 <= i < |found| ==>
      found[i] in ss && found[i].settlementDate == date && found[i].sellerId in sellerIds
    ensures forall i :: 0 <= i < |ss| && ss[i].settlementDate == date && ss[i].sellerId in sellerIds ==>
      ss[i] in found
  {
    if ss == [] then []
    else (if ss[0].settlementDate == date && ss[0].sellerId in sellerIds then [ss[0]] else [])
         + Matching(ss[1..], date, sellerIds)
  }

  /** The entity query returns exactly the rows the value query describes. */
  lemma {:induction false} MatchingViews(ss: seq<Settlement>, date: int, sellerIds: seq<int>)
    ensures Views(Matching(ss, date, sellerIds)) == FindBySettlementDateAndSellerIdIn(Views(ss), date, sellerIds)
  {
    if ss != [] {
      MatchingViews(ss[1..], date, sellerIds);
      var head := if ss[0].settlementDate == date && ss[0].sellerId in sellerIds then [ss[0]] else [];
      ViewsAppend(head, Matching(ss[1..], date, sellerIds));
      assert Views(ss) == [ss[0].View()] + Views(ss[1..]);
      assert Views(ss)[1..] == Views(ss[1..]);
    }
  }

  /** Entity views of a concatenation. */
  lemma {:induction false} ViewsAppend(a: seq<Settlement>, b: seq<Settlement>)
    ensures Views(a + b) == Views(a) + Views(b)
  {
    if a != [] {
      assert (a + b)[1..] == a[1..] + b;
      ViewsAppend(a[1..], b);
    } else {
      assert a + b == b;
    }
  }

  /**
   * saveAll on entities: one that the store does not hold yet is persisted (appended);
   * one it holds is merged, which appends nothing.
   */
  function Persisted(rows: seq<Settlement>, toSave: seq<Settlement>): (r: seq<Settlement>)
    ensures rows <= r && |r| <= |rows| + |toSave|
    ensures forall i :: 0 <= i < |toSave| ==> toSave[i] in r
    ensures forall i :: 0 <= i < |r| ==> r[i] in rows || r[i] in toSave
  {
    if toSave == [] then rows
    else
      var before := Persisted(rows, toSave[..|toSave| - 1]);
      if toSave[|toSave| - 1] in before then before else before + [toSave[|toSave| - 1]]
  }

  /** The entities of toSave that rows does not hold, in order. */
  function NotStored(toSave: seq<Settlement>, rows: seq<Settlement>): (n: seq<Settlement>)
    ensures forall i :: 0 <= i < |n| ==> n[i] in toSave && n[i] !in rows
    ensures forall i :: 0 <= i < |toSave| && toSave[i] !in rows ==> toSave[i] in n
  {
    if toSave == [] then []
    else NotStored(toSave[..|toSave| - 1], rows)
         + (if toSave[|toSave| - 1] in rows then [] else [toSave[|toSave| - 1]])
  }

  predicate DistinctObjects(ss: seq<Settlement>)
  {
    forall i, j :: 0 <= i < j < |ss| ==> ss[i] != ss[j]
  }

  /** When the new entities are distinct, saveAll appends each of them once, in order. */
  lemma {:induction false} PersistedAppendsNew(rows: seq<Settlement>, toSave: seq<Settlement>)
    requires DistinctObjects(NotStored(toSave, rows))
    ensures Persisted(rows, toSave) == rows + NotStored(toSave, rows)
  {
    if toSave != [] {
      var init := toSave[..|toSave| - 1];
      var x := toSave[|toSave| - 1];
      var n := NotStored(init, rows);
      assert NotStored(toSave, rows) == n + (if x in rows then [] else [x]);
      assert DistinctObjects(n) by {
        forall i, j | 0 <= i < j < |n| ensures n[i] != n[j] {
          assert n[i] == NotStored(toSave, rows)[i] && n[j] == NotStored(toSave, rows)[j];
        }
      }
      PersistedAppendsNew(rows, init);
      if x !in rows {
        assert NotStored(toSave, rows)[|n|] == x;
        forall i | 0 <= i < |n| ensures n[i] != x {
          assert n[i] == NotStored(toSave, rows)[i];
        }
        assert x !in rows + n;
      }
    }
  }

  /** The settlements table as a collection of entities. */
  class SettlementStore {
    var rows: seq<Settlement>

    /** Each entity is held once and keeps the money identity. */
    ghost predicate Valid()
      reads this, rows
    {
      && DistinctObjects(rows)
      && forall i :: 0 <= i < |rows| ==> rows[i].Valid()
    }

    function Snapshot(): seq<SettlementRow>
      reads this, rows
    {
      Views(rows)
    }

    constructor ()
      ensures Valid() && rows == []
    {
      rows := [];
    }

    /** findBySettlementDateAndSellerIdIn, returning the managed entities. */
    function FindBySettlementDateAndSellerIdIn(date: int, sellerIds: seq<int>): (found: seq<Settlement>)
      reads this
      ensures forall i :: 0 <= i < |found| ==>
        found[i] in rows && found[i].settlementDate == date && found[i].sellerId in sellerIds
      ensures forall i :: 0 <= i < |rows| && rows[i].settlementDate == date && rows[i].sellerId in sellerIds ==>
        rows[i] in found
    {
      Matching(rows, date, sellerIds)
    }

    /** saveAll */
    method SaveAll(toSave: seq<Settlement>)
      modifies this`rows
      ensures rows == Persisted(old(rows), toSave)
    {
      ghost var start := rows;
      var i := 0;
      while i < |toSave|
        invariant 0 <= i <= |toSave|
        invariant rows == Persisted(start, toSave[..i])
      {
        assert toSave[..i + 1][..i] == toSave[..i];
        if toSave[i] !in rows {
          rows := rows + [toSave[i]];
        }
        i := i + 1;
      }
      assert toSave[..i] == toSave;
    }
  }
}
