/** The keys of the discounts in force, whose scripts have no fixed width, and the range
    scan that looks up a fee (database/src/database/partition.rs, `VipKey` and
    `last_fee_wtx`). */
module FeeKeys {
  import opened Model
  import opened Orders
  import opened Keys

  const TAIL: seq<nat> := [8, 8]

  function ScriptBytes(s: Script): Bytes {
    Be(2, s.version) + s.bytes
  }

  /** What the keys of one script and tick have in common. */
  function FeePrefix(s: Script, t: Tick): Bytes {
    ScriptBytes(s) + Be(TICK_LENGTH, t)
  }

  function Tail(score: u64, fee: u64): Bytes {
    Pack(TAIL, [Reversed(score), fee])
  }

  function VipBytes(k: VipKey): Bytes {
    FeePrefix(k.spk, k.tick) + Tail(k.score, k.fee)
  }

  /** `from_key_bytes` cuts the fields off from the end. */
  function VipFromBytes(b: Bytes): (Script, nat, nat, nat)
    requires |b| >= TICK_LENGTH + 18
  {
    var n := |b|;
    var version := FromBe(b[..2]);
    (Script(if version < 0x1_0000 then version else 0, b[2..n - 16 - TICK_LENGTH]),
     FromBe(b[n - 16 - TICK_LENGTH..n - 16]), FromBe(b[n - 16..n - 8]), FromBe(b[n - 8..]))
  }

  lemma TailParts(score: u64, fee: u64)
    ensures Tail(score, fee) == Be(8, Reversed(score)) + Be(8, fee)
  {
    assert Pack(TAIL[1..][1..], [Reversed(score), fee][1..][1..]) == [];
    assert Pack(TAIL[1..], [Reversed(score), fee][1..]) == Be(8, fee) + [];
  }

  lemma VersionFits(v: nat)
    ensures v < 0x1_0000 <==> v < Pow256(2)
  {
    assert Pow256(2) == 0x1_0000;
  }

  lemma VipParts(k: VipKey)
    ensures var b, n := VipBytes(k), |k.spk.bytes|;
            && |b| == n + TICK_LENGTH + 18
            && b[..2] == Be(2, k.spk.version) && b[2..n + 2] == k.spk.bytes && b[n + 2..n + 2 + TICK_LENGTH] == Be(TICK_LENGTH, k.tick)
            && b[n + 2 + TICK_LENGTH..n + 10 + TICK_LENGTH] == Be(8, Reversed(k.score)) && b[n + 10 + TICK_LENGTH..] == Be(8, k.fee)
  {
    TailParts(k.score, k.fee);
  }

  lemma VipComesBack(k: VipKey)
    ensures |VipBytes(k)| >= TICK_LENGTH + 18 && VipFromBytes(VipBytes(k)) == (k.spk, k.tick, Reversed(k.score), k.fee)
  {
    hide VipBytes, FromBe, Be;
    VipParts(k);
    VersionFits(k.spk.version);
    U64Fits(Reversed(k.score));
    U64Fits(k.fee);
    TickFits(k.tick);
    NumberComesBack(2, k.spk.version);
    NumberComesBack(TICK_LENGTH, k.tick);
    NumberComesBack(8, Reversed(k.score));
    NumberComesBack(8, k.fee);
  }

  lemma SameBytesSameKey(k: VipKey, l: VipKey)
    requires VipBytes(k) == VipBytes(l)
    ensures k == l
  {
    hide VipBytes, VipFromBytes;
    VipComesBack(k);
    VipComesBack(l);
  }

  // ---------------------------------------------------------------- what the range holds

  /** The bounds of the scan: from the greatest to the least score, the end excluded. */
  predicate InRange(s: Script, t: Tick, x: Bytes) {
    !LexLess(x, FeePrefix(s, t) + Tail(U64_MAX, 0)) && LexLess(x, FeePrefix(s, t) + Tail(0, U64_MAX))
  }

  lemma {:induction false} OffThePrefix(p: Bytes, x: Bytes, y: Bytes, z: Bytes)
    requires !(p <= x)
    ensures LexLess(x, p + y) <==> LexLess(x, p + z)
  {
    if p != [] && x != [] && x[0] == p[0] {
      assert p == [p[0]] + p[1..] && x == [x[0]] + x[1..];
      OffThePrefix(p[1..], x[1..], y, z);
      assert (p + y)[1..] == p[1..] + y && (p + z)[1..] == p[1..] + z;
    }
  }

  lemma TailFits(score: u64, fee: u64)
    ensures FitIn(TAIL, [Reversed(score), fee])
  {
    U64Fits(Reversed(score));
    U64Fits(fee);
  }

  lemma TailOrder(s: u64, f: u64, s': u64, f': u64)
    ensures LexLess(Tail(s, f), Tail(s', f')) <==> s > s' || (s == s' && f < f')
    ensures Tail(s, f) == Tail(s', f') <==> s == s' && f == f'
  {
    hide Pack, LexLess;
    TailFits(s, f);
    TailFits(s', f');
    var u, v := [Reversed(s), f], [Reversed(s'), f'];
    PackOrder(TAIL, u, v);
    assert Before(u[1..], v[1..]) <==> f < f';
    assert u[0] < v[0] <==> s > s';
  }

  /** A key in the range starts with the script and tick; every own key is in it but the
      one at the excluded end. */
  lemma RangeIsPrefix(s: Script, t: Tick, k: VipKey)
    ensures InRange(s, t, VipBytes(k)) ==> FeePrefix(s, t) <= VipBytes(k)
    ensures k.spk == s && k.tick == t ==> (InRange(s, t, VipBytes(k)) <==> k.score > 0 || k.fee < U64_MAX)
  {
    hide Tail, FeePrefix, LexLess;
    var p := FeePrefix(s, t);
    if k.spk == s && k.tick == t {
      JoinOrder(p, Tail(k.score, k.fee), p, Tail(U64_MAX, 0));
      JoinOrder(p, Tail(k.score, k.fee), p, Tail(0, U64_MAX));
      TailOrder(k.score, k.fee, U64_MAX, 0);
      TailOrder(k.score, k.fee, 0, U64_MAX);
      NotBelowItself(p);
    } else if !(p <= VipBytes(k)) {
      OffThePrefix(p, VipBytes(k), Tail(U64_MAX, 0), Tail(0, U64_MAX));
    }
  }

  // ---------------------------------------------------------------- the scan

  function KeysInRange(vip: set<VipKey>, s: Script, t: Tick): set<VipKey> {
    set k | k in vip && InRange(s, t, VipBytes(k))
  }

  predicate NotAfter(k: VipKey, l: VipKey) {
    !LexLess(VipBytes(l), VipBytes(k))
  }

  predicate NotBefore(l: VipKey, k: VipKey) {
    NotAfter(k, l)
  }

  lemma NotAfterIsTransitive(a: VipKey, b: VipKey, c: VipKey)
    requires NotAfter(a, b) && NotAfter(b, c)
    ensures NotAfter(a, c)
  {
    hide VipBytes, LexLess;
    OneIsLess(VipBytes(a), VipBytes(b));
    OneIsLess(VipBytes(b), VipBytes(c));
    OneIsLess(VipBytes(a), VipBytes(c));
    if VipBytes(a) != VipBytes(b) && VipBytes(b) != VipBytes(c) {
      OrderIsTransitive(VipBytes(a), VipBytes(b), VipBytes(c));
    }
  }

  /** Byte order is a total order on the keys, and no two keys have the same bytes. */
  lemma KeysAreOrdered()
    ensures TotalOrder(NotBefore)
    ensures forall k, l :: NotAfter(k, l) && NotAfter(l, k) ==> k == l
  {
    hide VipBytes, LexLess;
    forall k, l ensures NotAfter(k, l) || NotAfter(l, k) {
      OneIsLess(VipBytes(k), VipBytes(l));
      NotBelowItself(VipBytes(k));
    }
    forall k, l | NotAfter(k, l) && NotAfter(l, k) ensures k == l {
      OneIsLess(VipBytes(k), VipBytes(l));
      SameBytesSameKey(k, l);
    }
    forall a, b, c | NotAfter(a, b) && NotAfter(b, c) ensures NotAfter(a, c) {
      NotAfterIsTransitive(a, b, c);
    }
  }

  /** The first key in byte order. */
  function FirstKey(keys: set<VipKey>): (k: VipKey)
    requires keys != {}
    ensures k in keys && forall l :: l in keys ==> NotAfter(k, l)
  {
    hide NotAfter;
    KeysAreOrdered();
    HasGreatest(keys, NotBefore);
    assert exists k :: k in keys && forall l :: l in keys ==> NotAfter(k, l) by {
      var k :| k in keys && forall l :: l in keys ==> NotBefore(l, k);
      assert forall l :: l in keys ==> NotAfter(k, l);
    }
    var k :| k in keys && forall l :: l in keys ==> NotAfter(k, l);
    k
  }

  /** `last_fee_wtx`: the fee of the first key in the range. */
  function ScannedFee(vip: set<VipKey>, s: Script, t: Tick): Option<u64> {
    var keys := KeysInRange(vip, s, t);
    if keys == {} then None else Some(FirstKey(keys).fee)
  }
}
