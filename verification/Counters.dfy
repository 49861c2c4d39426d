/** The persisted counters (database/src/database/stats.rs): field-wise
    saturating sums and differences of u64. */
module Counters {
  import opened Model

  datatype Stats = Stats(
    deployments: nat,
    mints: nat,
    transfers: nat,
    royaltyFees: nat,
    securityFees: nat,
    listings: nat,
    sends: nat)

  const ZERO: Stats := Stats(0, 0, 0, 0, 0, 0, 0)

  function SaturatingAdd(a: nat, b: nat): nat {
    if a + b > U64_MAX then U64_MAX else a + b
  }

  function SaturatingSub(a: nat, b: nat): nat {
    if a < b then 0 else a - b
  }

  /** A sum is the true one or the greatest u64 below it; a difference is the true one, or
      zero when there is none. */
  lemma SaturationLaws(a: nat, b: nat, n: nat)
    requires a <= U64_MAX && b <= U64_MAX
    ensures SaturatingAdd(a, b) <= a + b && SaturatingAdd(a, b) <= U64_MAX
    ensures n <= a + b && n <= U64_MAX ==> n <= SaturatingAdd(a, b)
    ensures SaturatingSub(a, b) + b >= a
    ensures n + b >= a ==> n >= SaturatingSub(a, b)
  {
  }

  /** Every counter is a u64. */
  predicate FitsU64(s: Stats) {
    && s.deployments <= U64_MAX && s.mints <= U64_MAX && s.transfers <= U64_MAX && s.royaltyFees <= U64_MAX
    && s.securityFees <= U64_MAX && s.listings <= U64_MAX && s.sends <= U64_MAX
  }

  function Add(a: Stats, b: Stats): Stats {
    Stats(SaturatingAdd(a.deployments, b.deployments),
          SaturatingAdd(a.mints, b.mints),
          SaturatingAdd(a.transfers, b.transfers),
          SaturatingAdd(a.royaltyFees, b.royaltyFees),
          SaturatingAdd(a.securityFees, b.securityFees),
          SaturatingAdd(a.listings, b.listings),
          SaturatingAdd(a.sends, b.sends))
  }

  function Sub(a: Stats, b: Stats): Stats {
    Stats(SaturatingSub(a.deployments, b.deployments),
          SaturatingSub(a.mints, b.mints),
          SaturatingSub(a.transfers, b.transfers),
          SaturatingSub(a.royaltyFees, b.royaltyFees),
          SaturatingSub(a.securityFees, b.securityFees),
          SaturatingSub(a.listings, b.listings),
          SaturatingSub(a.sends, b.sends))
  }

  /** The sum without saturation: what the counters stand for. */
  function Plus(a: Stats, b: Stats): Stats {
    Stats(a.deployments + b.deployments, a.mints + b.mints, a.transfers + b.transfers,
          a.royaltyFees + b.royaltyFees, a.securityFees + b.securityFees,
          a.listings + b.listings, a.sends + b.sends)
  }

  /** The sums inside one batch are not saturating: u64 arithmetic wraps around. */
  function Wrap(n: nat): nat {
    n % (U64_MAX + 1)
  }

  function Wrapped(s: Stats): Stats {
    Stats(Wrap(s.deployments), Wrap(s.mints), Wrap(s.transfers), Wrap(s.royaltyFees),
          Wrap(s.securityFees), Wrap(s.listings), Wrap(s.sends))
  }

  lemma WrapAdds(a: nat, b: nat)
    ensures Wrap(Wrap(a) + b) == Wrap(a + b)
    ensures a <= U64_MAX ==> Wrap(a) == a
  {
  }

  /** Wrapping after every step is wrapping once at the end, and nothing at all when the
      sum fits. */
  lemma WrappedSum(a: Stats, b: Stats)
    ensures Wrapped(Plus(Wrapped(a), b)) == Wrapped(Plus(a, b))
    ensures FitsU64(a) ==> Wrapped(a) == a
    ensures FitsU64(Wrapped(a))
  {
    hide Wrap;
    WrapAdds(a.deployments, b.deployments);
    WrapAdds(a.mints, b.mints);
    WrapAdds(a.transfers, b.transfers);
    WrapAdds(a.royaltyFees, b.royaltyFees);
    WrapAdds(a.securityFees, b.securityFees);
    WrapAdds(a.listings, b.listings);
    WrapAdds(a.sends, b.sends);
    WrapFits();
  }

  lemma WrapLeaves(s: Stats)
    requires FitsU64(s)
    ensures Wrapped(s) == s
  {
  }

  lemma NothingWrapped()
    ensures Wrapped(ZERO) == ZERO
  {
  }

  lemma WrapFits()
    ensures forall n :: Wrap(n) <= U64_MAX
  {
  }

  function RoyaltyFee(r: Option<Royalty>): nat {
    if r.Some? then r.value.fee else 0
  }

  /** What one accepted operation takes off the counters when it is rolled back. */
  function Removed(op: Operation): Stats {
    var fee := op.common.fee;
    match op.info
    case DeployOp(d) => Stats(1, 0, 0, RoyaltyFee(d.royalty), fee, 0, 0)
    case MintOp(m) => Stats(0, 1, 0, RoyaltyFee(m.royalty), fee, 0, 0)
    case TransferOp(_) => Stats(0, 0, 1, 0, fee, 0, 0)
    case DiscountOp(_) => Stats(0, 0, 0, 0, fee, 0, 0)
    case ListOp(_) => Stats(0, 0, 0, 0, fee, 1, 0)
    case SendOp(_) => Stats(0, 0, 0, 0, fee, 0, 1)
  }

  /** What one accepted operation adds to the counters.  A deployment adds its
      premints to `mints`; `Removed` does not take them off again. */
  function Added(op: Operation): Stats {
    match op.info
    case DeployOp(d) => Removed(op).(mints := d.premint)
    case _ => Removed(op)
  }
}
