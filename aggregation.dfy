/** SellerAggregation: one row of the reader's GROUP BY, with its grade parsed. */
module Aggregation {
  import opened Wrappers
  import opened Grades

  /** totalSales is in cents; the two counts are Java longs. */
  datatype SellerAggregation = SellerAggregation(
    sellerId: int,
    sellerGrade: SellerGrade,
    totalSales: int,
    orderCount: int,
    itemCount: int)

  /** The outcome of the constructor: built, or the exception SellerGrade.valueOf raises. */
  datatype Parsed = Built(agg: SellerAggregation) | IllegalGradeName(name: string)

  /**
   * The SellerAggregation constructor. It accepts the grade only when the string is
   * exactly a grade's name and fails loudly on any other string; every other field is
   * stored as given.
   */
  function NewSellerAggregation(sellerId: int, gradeName: string, totalSales: int,
                                orderCount: int, itemCount: int): (r: Parsed)
    ensures r.Built? <==> exists g :: Name(g) == gradeName
    ensures r.Built? ==> Name(r.agg.sellerGrade) == gradeName
    ensures r.Built? ==> r.agg.sellerId == sellerId && r.agg.totalSales == totalSales
    ensures r.Built? ==> r.agg.orderCount == orderCount && r.agg.itemCount == itemCount
    ensures r.IllegalGradeName? ==> r.name == gradeName
  {
    match ValueOf(gradeName)
    case Some(g) => Built(SellerAggregation(sellerId, g, totalSales, orderCount, itemCount))
    case None => IllegalGradeName(gradeName)
  }
}
