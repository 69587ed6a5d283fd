/** Sample data for the concrete runs that show where a promise fails. */
module Samples {
  import opened Wrappers
  import opened PaymentTables

  const SAMPLE_TXID := "aaaaaaaaaaaaaaaa" + "aaaaaaaaaaaaaaaa" + "aaaaaaaaaaaaaaaa" + "aaaaaaaaaaaaaaaa"

  /** An invoice of 100 made at time 1000 and height 50, with a minute to pay and a policy of two confirmations. */
  const INVOICE := CreateRequest("pay_a", LEGACY_MERCHANT_ID, "P1", "s1", 100, 2, 1000, 50, 1060, None, [], None, None)
}
