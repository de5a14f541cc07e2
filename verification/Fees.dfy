/** Fee-bump replacement policy. */
module Fees {
  import opened Prelude

  const BPS: nat := 10_000

  /** Legacy and access-list transactions bid `gas_price`; later types bid `max_fee` when they have one. */
  function ReplacementFee(txType: U8, gasPrice: Option<U128>, maxFee: Option<U128>): U128 {
    if txType == 0 || txType == 1 then OrZero(gasPrice)
    else if maxFee.Some? then maxFee.value
    else OrZero(gasPrice)
  }

  function OrZero(fee: Option<U128>): U128 {
    match fee
    case None => 0
    case Some(v) => v
  }

  function Clamped(n: nat): U128 {
    if n <= U128_MAX then n else U128_MAX
  }

  function SaturatingMul(a: U128, b: U128): U128 {
    Clamped(a * b)
  }

  /** `div_ceil` on a bounded numerator. */
  function DivCeil(n: nat, d: nat): (q: nat)
    requires d > 0
    ensures n <= q * d < n + d
  {
    (n + d - 1) / d
  }

  /** The least fee that may replace an incumbent bidding `fee`. */
  function Threshold(fee: U128, bumpBps: U16): (t: U128)
  {
    var scaled := SaturatingMul(fee, BPS + bumpBps);
    DivCeilBounded(scaled);
    DivCeil(scaled, BPS)
  }

  lemma DivCeilBounded(n: U128)
    ensures DivCeil(n, BPS) <= U128_MAX
  {
  }

  /** The bidding range in which a replacement always has to raise the bid. */
  predicate InRaisingRange(fee: U128, bumpBps: U16) {
    bumpBps >= 1 && fee >= 1 && BPS * fee < U128_MAX
  }

  /**
    A replacement has to outbid its incumbent exactly in that range: a zero bump, a
    zero bid, or a bid so high that the product saturates lets an equal bid replace.
   */
  lemma ThresholdRaisesIff(fee: U128, bumpBps: U16)
    ensures Threshold(fee, bumpBps) > fee <==> InRaisingRange(fee, bumpBps)
  {
    ScaledSplit(fee, bumpBps);
    if bumpBps >= 1 && fee >= 1 {
      ProductAtLeast(fee, bumpBps);
    }
  }

  lemma ScaledSplit(fee: nat, bumpBps: nat)
    ensures fee * (BPS + bumpBps) == BPS * fee + fee * bumpBps
    ensures bumpBps == 0 || fee == 0 ==> fee * bumpBps == 0
  {
  }

  lemma ProductAtLeast(a: nat, b: nat)
    requires b >= 1
    ensures a * b >= a
  {
  }

  /** A bid that may replace another sets a threshold at least as high, saturation included. */
  lemma ThresholdNeverFalls(fee: U128, bid: U128, bumpBps: U16)
    requires bid >= Threshold(fee, bumpBps)
    ensures Threshold(bid, bumpBps) >= Threshold(fee, bumpBps)
  {
    if bid >= fee {
      ThresholdMonotone(fee, bid, bumpBps);
    } else {
      SaturatedThreshold(fee, bid, bumpBps);
    }
  }

  /** A bid below the one it may replace is one whose own product saturates. */
  lemma SaturatedThreshold(fee: U128, bid: U128, bumpBps: U16)
    requires Threshold(fee, bumpBps) <= bid < fee
    ensures Threshold(bid, bumpBps) == Threshold(fee, bumpBps) == DivCeil(U128_MAX, BPS)
  {
    hide DivCeil, Clamped;
    ScaledAtLeast(fee, bumpBps);
    ScaledAtLeast(bid, bumpBps);
    BothClamped(fee * (BPS + bumpBps), bid * (BPS + bumpBps), fee, bid);
  }

  lemma ScaledAtLeast(fee: nat, bumpBps: nat)
    ensures fee * (BPS + bumpBps) >= BPS * fee
  {
    ScaledSplit(fee, bumpBps);
  }

  lemma BothClamped(scaledFee: nat, scaledBid: nat, fee: nat, bid: nat)
    requires scaledFee >= BPS * fee && scaledBid >= BPS * bid
    requires DivCeil(Clamped(scaledFee), BPS) <= bid < fee
    ensures Clamped(scaledFee) == Clamped(scaledBid) == U128_MAX
  {
  }

  lemma ThresholdMonotone(low: U128, high: U128, bumpBps: U16)
    requires low <= high
    ensures Threshold(low, bumpBps) <= Threshold(high, bumpBps)
  {
    assert low * (BPS + bumpBps) <= high * (BPS + bumpBps);
    DivCeilMonotone(SaturatingMul(low, BPS + bumpBps), SaturatingMul(high, BPS + bumpBps));
  }

  lemma DivCeilMonotone(a: nat, b: nat)
    requires a <= b
    ensures DivCeil(a, BPS) <= DivCeil(b, BPS)
  {
  }

  function Pow(b: nat, e: nat): nat {
    if e == 0 then 1 else b * Pow(b, e - 1)
  }

  /** Below saturation one accepted replacement multiplies the bid by at least 1 + bump/10000. */
  lemma ThresholdScales(fee: U128, bumpBps: U16)
    requires fee * (BPS + bumpBps) <= U128_MAX
    ensures Threshold(fee, bumpBps) * BPS >= fee * (BPS + bumpBps)
  {
  }
}
