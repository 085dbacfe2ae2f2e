/** SettlementProcessor: one aggregate in, one fresh PENDING settlement out. */
module Processor {
  import opened Wrappers
  import opened Grades
  import opened Aggregation
  import opened Settlements

  /**
   * The date a step-scoped bean settles: the targetDate job parameter when given,
   * otherwise the day before the bean's "today".
   */
  function TargetDate(param: Option<int>, today: int): (d: int)
    ensures param.Some? ==> d == param.value
    ensures param.None? ==> d + 1 == today
  {
    match param
    case Some(day) => day
    case None => today - 1
  }

  const TwoTo31: int := 0x8000_0000
  const TwoTo32: int := 0x1_0000_0000

  /** Long.intValue(): the low 32 bits read as a two's-complement int. */
  function IntValue(x: int): (r: int)
    ensures -TwoTo31 <= r < TwoTo31
    ensures (x - r) % TwoTo32 == 0
    ensures -TwoTo31 <= x < TwoTo31 ==> r == x
  {
    (x + TwoTo31) % TwoTo32 - TwoTo31
  }

  /** The value of the settlement process(aggregation) builds for the given date. */
  function ProcessedRow(agg: SellerAggregation, settlementDate: int, now: int): (r: SettlementRow)
    ensures r.sellerId == agg.sellerId && r.settlementDate == settlementDate
    ensures r.totalSales == agg.totalSales
    ensures r.commissionRate == CommissionRate(agg.sellerGrade)
    ensures Balanced(r) && r.status == PENDING
    ensures 0 <= agg.orderCount < TwoTo31 ==> r.orderCount == agg.orderCount
    ensures 0 <= agg.itemCount < TwoTo31 ==> r.itemCount == agg.itemCount
  {
    NewRow(agg.sellerId, settlementDate, agg.totalSales, CommissionRate(agg.sellerGrade),
           IntValue(agg.orderCount), IntValue(agg.itemCount), now)
  }

  /** A processed aggregate with non-negative sales pays a commission and a net amount within [0, sales]. */
  lemma ProcessedWithinSales(agg: SellerAggregation, settlementDate: int, now: int)
    requires agg.totalSales >= 0
    ensures var r := ProcessedRow(agg, settlementDate, now);
            0 <= r.commission <= r.totalSales * 100 && 0 <= r.netAmount <= r.totalSales * 100
  {
    CommissionBounds(agg.totalSales, CommissionRate(agg.sellerGrade));
  }

  /** process: allocates the Settlement entity the writer will upsert. */
  method Process(agg: SellerAggregation, settlementDate: int, now: int) returns (s: Settlement)
    ensures fresh(s) && s.Valid()
    ensures s.View() == ProcessedRow(agg, settlementDate, now)
  {
    s := new Settlement(agg.sellerId, settlementDate, agg.totalSales, CommissionRate(agg.sellerGrade),
                        IntValue(agg.orderCount), IntValue(agg.itemCount), now);
  }
}
