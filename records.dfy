/**
 * The records the aggregator consumes and the pieces it hands to the optimizer
 * (src/json_utils.rs). Amounts are already scaled to fixed point; Rust's
 * `usize` is modelled as an unbounded `nat`.
 */
module Records {
  import opened Wrappers

  /** A purchasable stock piece: its length, its price and an optional bound on
      how many may be bought (`None` means unlimited). Equality is equality of
      all three fields, which is what keys the name lookup. */
  datatype StockPiece = StockPiece(length: nat, price: nat, quantity: Option<nat>)

  /** A demanded cut: how many pieces of which length. */
  datatype CutPiece = CutPiece(externalId: Option<nat>, quantity: nat, length: nat)

  /** One well-formed entry of a file's "sources" collection. */
  datatype SourceRecord = SourceRecord(tag: string, name: string, cost: nat, length: nat, quantity: Option<nat>)

  /** One well-formed entry of a file's "cuts" collection. */
  datatype CutRecord = CutRecord(tag: string, length: nat, quantity: nat)

  /** The conversion `Into<StockPiece> for &Source_s`: the record's cost becomes the price. */
  function ToStockPiece(s: SourceRecord): (p: StockPiece)
    ensures p.length == s.length && p.price == s.cost && p.quantity == s.quantity
  {
    StockPiece(s.length, s.cost, s.quantity)
  }

  /** The conversion `Into<CutPiece> for &Cut_s`: no external id. */
  function ToCutPiece(c: CutRecord): (p: CutPiece)
    ensures p.externalId == None && p.length == c.length && p.quantity == c.quantity
  {
    CutPiece(None, c.quantity, c.length)
  }

  /** Mathematical exponentiation, the reference for `IPow`. */
  ghost function Pow(b: nat, e: nat): nat
  {
    if e == 0 then 1 else b * Pow(b, e - 1)
  }

  /** `i_pow`: starts from `base` and multiplies by `base` once per value in
      the range `1..exp`, so an exponent of 0 yields `base`, not 1. */
  method IPow(base: nat, exp: nat) returns (rv: nat)
    ensures exp >= 1 ==> rv == Pow(base, exp)
    ensures exp == 0 ==> rv == base
  {
    rv := base;
    var i := 1;
    assert Pow(base, 1) == base * Pow(base, 0);
    while i < exp
      invariant 1 <= i <= if exp == 0 then 1 else exp
      invariant rv == Pow(base, i)
      invariant exp == 0 ==> rv == base
    {
      rv := rv * base;
      i := i + 1;
    }
  }
}
