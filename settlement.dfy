/**
 * The Settlement entity: one persisted row per seller and date.
 *
 * Units: totalSales is in cents (scale 2) and commissionRate in hundredths (scale 2).
 * BigDecimal.multiply of two scale-2 numbers is exact and has scale 4, so commission and
 * netAmount are held in ten-thousandths of the currency unit; nothing is rounded.
 */
module Settlements {

  /** PENDING is the only constant the core writes; the others are carried by name. */
  datatype SettlementStatus = PENDING | OtherStatus(name: string)

  /** The value of a settlement row. */
  datatype SettlementRow = SettlementRow(
    sellerId: int,
    settlementDate: int,
    totalSales: int,
    commissionRate: int,
    commission: int,
    netAmount: int,
    orderCount: int,
    itemCount: int,
    status: SettlementStatus,
    createdAt: int,
    updatedAt: int)

  /** totalSales.multiply(commissionRate), at scale 4. */
  function Commission(totalSales: int, commissionRate: int): int
  {
    totalSales * commissionRate
  }

  /** totalSales.subtract(commission), with totalSales brought to scale 4. */
  function NetAmount(totalSales: int, commission: int): int
  {
    totalSales * 100 - commission
  }

  /** The money identity of a row: commission = sales x rate and commission + net = sales. */
  predicate Balanced(r: SettlementRow)
  {
    && r.commission == Commission(r.totalSales, r.commissionRate)
    && r.commission + r.netAmount == r.totalSales * 100
  }

  /** With a rate in [0, 1] and non-negative sales, commission and net both lie in [0, sales]. */
  lemma CommissionBounds(totalSales: int, commissionRate: int)
    requires 0 <= commissionRate <= 100 && totalSales >= 0
    ensures 0 <= Commission(totalSales, commissionRate) <= totalSales * 100
    ensures 0 <= NetAmount(totalSales, Commission(totalSales, commissionRate)) <= totalSales * 100
  {
    assert totalSales * commissionRate <= totalSales * 100 by {
      assert totalSales * (100 - commissionRate) >= 0;
    }
  }

  /** The builder constructor's row: status PENDING, both timestamps set to now. */
  function NewRow(sellerId: int, settlementDate: int, totalSales: int, commissionRate: int,
                  orderCount: int, itemCount: int, now: int): (r: SettlementRow)
    ensures Balanced(r) && r.status == PENDING
    ensures r.sellerId == sellerId && r.settlementDate == settlementDate
    ensures r.totalSales == totalSales && r.commissionRate == commissionRate
    ensures r.orderCount == orderCount && r.itemCount == itemCount
    ensures r.createdAt == now && r.updatedAt == now
  {
    var commission := Commission(totalSales, commissionRate);
    SettlementRow(sellerId, settlementDate, totalSales, commissionRate, commission,
                  NetAmount(totalSales, commission), orderCount, itemCount, PENDING, now, now)
  }

  /**
   * The row after update(...): money and counts replaced and recomputed, status back to
   * PENDING whatever it was, seller, date and createdAt kept, updatedAt refreshed.
   */
  function Updated(r: SettlementRow, totalSales: int, commissionRate: int,
                   orderCount: int, itemCount: int, now: int): (u: SettlementRow)
    ensures Balanced(u) && u.status == PENDING
    ensures u.sellerId == r.sellerId && u.settlementDate == r.settlementDate
    ensures u.createdAt == r.createdAt && u.updatedAt == now
    ensures u.totalSales == totalSales && u.commissionRate == commissionRate
    ensures u.orderCount == orderCount && u.itemCount == itemCount
  {
    var commission := Commission(totalSales, commissionRate);
    r.(totalSales := totalSales, commissionRate := commissionRate, commission := commission,
       netAmount := NetAmount(totalSales, commission), orderCount := orderCount,
       itemCount := itemCount, status := PENDING, updatedAt := now)
  }

  /** A row with its updatedAt stamp blanked: equality of these is "equal apart from updatedAt". */
  function Unstamped(r: SettlementRow): SettlementRow
  {
    r.(updatedAt := 0)
  }

  /** Updating twice with the same arguments gives the state of updating once, apart from updatedAt. */
  lemma UpdateTwice(r: SettlementRow, totalSales: int, commissionRate: int,
                    orderCount: int, itemCount: int, t1: int, t2: int)
    ensures var once := Updated(r, totalSales, commissionRate, orderCount, itemCount, t1);
            Unstamped(Updated(once, totalSales, commissionRate, orderCount, itemCount, t2)) == Unstamped(once)
  {
  }

  /** Updating a balanced PENDING row with its own values changes nothing but updatedAt. */
  lemma UpdateWithOwnValues(r: SettlementRow, now: int)
    requires Balanced(r) && r.status == PENDING
    ensures Unstamped(Updated(r, r.totalSales, r.commissionRate, r.orderCount, r.itemCount, now)) == Unstamped(r)
  {
  }

  /** The entity object; update changes it in place. No method changes seller, date or createdAt. */
  class Settlement {
    const sellerId: int
    const settlementDate: int
    var totalSales: int
    var commissionRate: int
    var commission: int
    var netAmount: int
    var orderCount: int
    var itemCount: int
    var status: SettlementStatus
    const createdAt: int
    var updatedAt: int

    function View(): SettlementRow
      reads this
    {
      SettlementRow(sellerId, settlementDate, totalSales, commissionRate, commission, netAmount,
                    orderCount, itemCount, status, createdAt, updatedAt)
    }

    ghost predicate Valid()
      reads this
    {
      Balanced(View())
    }

    /** The builder constructor. */
    constructor (sellerId: int, settlementDate: int, totalSales: int, commissionRate: int,
                 orderCount: int, itemCount: int, now: int)
      ensures Valid()
      ensures View() == NewRow(sellerId, settlementDate, totalSales, commissionRate, orderCount, itemCount, now)
    {
      this.sellerId := sellerId;
      this.settlementDate := settlementDate;
      this.totalSales := totalSales;
      this.commissionRate := commissionRate;
      this.commission := Commission(totalSales, commissionRate);
      this.netAmount := NetAmount(totalSales, Commission(totalSales, commissionRate));
      this.orderCount := orderCount;
      this.itemCount := itemCount;
      this.status := PENDING;
      this.createdAt := now;
      this.updatedAt := now;
    }

    /** update: re-settlement of an existing row, in place. */
    method Update(totalSales: int, commissionRate: int, orderCount: int, itemCount: int, now: int)
      modifies this
      ensures Valid()
      ensures View() == Updated(old(View()), totalSales, commissionRate, orderCount, itemCount, now)
    {
      this.totalSales := totalSales;
      this.commissionRate := commissionRate;
      this.commission := Commission(totalSales, commissionRate);
      this.netAmount := NetAmount(totalSales, this.commission);
      this.orderCount := orderCount;
      this.itemCount := itemCount;
      this.status := PENDING;
      this.updatedAt := now;
    }
  }
}
