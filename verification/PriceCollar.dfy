/** The price collar (price_collar.cpp), over exact prices. */
module PriceCollar {
  import opened Orders

  datatype RejectReason = NONE | PRICE_TOO_HIGH | PRICE_TOO_LOW

  datatype CollarResult = CollarResult(accepted: bool, reason: RejectReason)

  /** `band` is the fraction, so 0.1 for a collar of ten percent. */
  function Check(band: real, price: real, last: Option<real>): CollarResult {
    if last.None? then CollarResult(true, NONE) else
      var ref := last.value;
      var width := ref * band;
      if price > ref + width then CollarResult(false, PRICE_TOO_HIGH)
      else if price < ref - width then CollarResult(false, PRICE_TOO_LOW)
      else CollarResult(true, NONE)
  }

  /**
   The collar accepts exactly the prices whose distance from the last price is at most the band.
   When the last price and the band have opposite signs it accepts no price at all, not even the
   last price itself.
   */
  lemma AcceptedPrices(band: real, price: real, ref: real)
    ensures Check(band, price, Some(ref)).accepted <==> ref * (1.0 - band) <= price <= ref * (1.0 + band)
    ensures (exists p :: Check(band, p, Some(ref)).accepted) <==> ref * band >= 0.0
    ensures !Check(band, price, Some(ref)).accepted ==>
              Check(band, price, Some(ref)).reason == if price > ref * (1.0 + band) then PRICE_TOO_HIGH else PRICE_TOO_LOW
  {
    assert ref * (1.0 - band) == ref - ref * band && ref * (1.0 + band) == ref + ref * band;
    if ref * band >= 0.0 {
      assert Check(band, ref, Some(ref)).accepted;
    }
  }
}
