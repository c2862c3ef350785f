/** The three low-stock notions of the repository. They disagree, and each is
    kept under its own name: the "is low" flag (`quantity < 10`) of the
    inventory helpers, the "Low Stock (n left)" label (`stock < 20`) of the
    search results, and the low-stock query (`0 < stock <= threshold`,
    threshold 20 by default) of the Drug model. */
module Stock {
  import opened Text

  const FlagBelow: int := 10
  const LabelBelow: int := 20
  const QueryThresholdDefault: int := 20

  const OutOfStock := "Out of Stock"
  const InStock := "In Stock"
  const LowPrefix := "Low Stock ("

  /** The `is_low_stock` flag and the low-stock counters. */
  predicate LowFlag(quantity: int) {
    quantity < FlagBelow
  }

  /** A row the low-stock query returns for `threshold`. */
  predicate LowQuery(stock: int, threshold: int) {
    0 < stock <= threshold
  }

  /** The availability label: 'Out of Stock' for exactly zero, 'Low Stock (n left)'
      below 20 (negative counts included), 'In Stock' otherwise. The same rule
      is written three times: in the client data manager, in the inventory
      endpoint and in the Drug model's SQL `CASE`. */
  function StockStatus(stock: int): (status: string)
    ensures status == OutOfStock <==> stock == 0
    ensures status == InStock <==> stock >= LabelBelow
    ensures StartsWith(status, LowPrefix) <==> stock != 0 && stock < LabelBelow
    ensures StartsWith(status, LowPrefix) ==> status == LowPrefix + IntToString(stock) + " left)"
  {
    if stock == 0 then
      assert OutOfStock[1] != LowPrefix[1];
      OutOfStock
    else if stock < LabelBelow then
      var l := LowPrefix + IntToString(stock) + " left)";
      assert l[0] == 'L' && l[..|LowPrefix|] == LowPrefix;
      l
    else InStock
  }

  /** Every positive quantity the flag calls low also carries the low label. */
  lemma FlagImpliesLabel(quantity: int)
    requires quantity > 0 && LowFlag(quantity)
    ensures StartsWith(StockStatus(quantity), LowPrefix)
  {
  }

  /** The flag and the label disagree on 10..19: labelled low, not flagged. */
  lemma FlagAndLabelDisagree(quantity: int)
    requires FlagBelow <= quantity < LabelBelow
    ensures StartsWith(StockStatus(quantity), LowPrefix) && !LowFlag(quantity)
  {
  }

  /** The query with its default threshold returns stock 20, which the label
      calls 'In Stock'. */
  lemma QueryAndLabelDisagree()
    ensures LowQuery(LabelBelow, QueryThresholdDefault) && StockStatus(LabelBelow) == InStock
  {
  }
}
