/** The range scan for a fee finds the latest discount of the script and tick it is asked
    for (database/src/database/partition.rs, `last_fee_wtx`): the receivers the code knows
    are address scripts, and the bytes of no address script begin with those of another. */
module FeeScan {
  import opened Model
  import opened Keys
  import opened FeeKeys
  import opened Ledger
  import opened Invariants
  import opened Steps
  import opened Filtering
  import opened Residues

  function DiscountScores(vip: set<VipKey>, spk: Script, t: Tick): set<nat> {
    set k | k in vip && k.spk == spk && k.tick == t :: k.score
  }

  function FeesAt(vip: set<VipKey>, spk: Script, t: Tick, score: nat): set<nat> {
    set k | k in vip && k.spk == spk && k.tick == t && k.score == score :: k.fee
  }

  /** The fee of the latest discount for `spk`; of two with one score, the smaller. */
  function LastFee(vip: set<VipKey>, spk: Script, t: Tick): Option<nat> {
    var scores := DiscountScores(vip, spk, t);
    if scores == {} then None
    else
      assert FeesAt(vip, spk, t, MaxOf(scores)) != {} by {
        var k :| k in vip && k.spk == spk && k.tick == t && k.score == MaxOf(scores);
        assert k.fee in FeesAt(vip, spk, t, MaxOf(scores));
      }
      Some(MinOf(FeesAt(vip, spk, t, MaxOf(scores))))
  }

  // ---------------------------------------------------------------- keys of one script

  lemma OwnOrder(k: VipKey, l: VipKey)
    requires k.spk == l.spk && k.tick == l.tick
    ensures NotAfter(k, l) <==> l.score < k.score || (l.score == k.score && k.fee <= l.fee)
  {
    hide Tail, FeePrefix, LexLess;
    var p := FeePrefix(k.spk, k.tick);
    JoinOrder(p, Tail(l.score, l.fee), p, Tail(k.score, k.fee));
    NotBelowItself(p);
    TailOrder(l.score, l.fee, k.score, k.fee);
  }

  ghost predicate Latest(vip: set<VipKey>, s: Script, t: Tick, k: VipKey) {
    && k.spk == s && k.tick == t && LastFee(vip, s, t) == Some(k.fee)
    && (forall l :: l in vip && l.spk == s && l.tick == t ==> l.score < k.score || (l.score == k.score && k.fee <= l.fee))
  }

  /** The row that `LastFee` speaks of. */
  lemma LatestRow(vip: set<VipKey>, s: Script, t: Tick)
    requires LastFee(vip, s, t).Some?
    ensures exists k :: k in vip && Latest(vip, s, t, k)
  {
    var score := MaxOf(DiscountScores(vip, s, t));
    var k :| k in vip && k.spk == s && k.tick == t && k.score == score && k.fee == MinOf(FeesAt(vip, s, t, score));
    forall l | l in vip && l.spk == s && l.tick == t ensures l.score < k.score || (l.score == k.score && k.fee <= l.fee) {
      assert l.score in DiscountScores(vip, s, t);
      assert l.score == score ==> l.fee in FeesAt(vip, s, t, score);
    }
    assert Latest(vip, s, t, k);
  }

  lemma HasFee(vip: set<VipKey>, k: VipKey)
    requires k in vip
    ensures LastFee(vip, k.spk, k.tick).Some?
  {
    assert k.score in DiscountScores(vip, k.spk, k.tick);
  }

  // ---------------------------------------------------------------- when the scan is right

  /** No discount has the greatest fee, since it lies below a royalty. */
  ghost predicate FeesBelowMax(vip: set<VipKey>) {
    forall k :: k in vip ==> k.fee < U64_MAX
  }

  /** The range of the script and tick holds no key of another. */
  ghost predicate OwnRange(vip: set<VipKey>, s: Script, t: Tick) {
    forall k :: k in KeysInRange(vip, s, t) ==> k.spk == s && k.tick == t
  }

  lemma OwnRangeIsRight(vip: set<VipKey>, s: Script, t: Tick)
    requires FeesBelowMax(vip) && OwnRange(vip, s, t)
    ensures ScannedFee(vip, s, t) == LastFee(vip, s, t)
  {
    hide LastFee, NotAfter, InRange;
    var keys := KeysInRange(vip, s, t);
    if LastFee(vip, s, t).Some? {
      LatestRow(vip, s, t);
      var best :| best in vip && Latest(vip, s, t, best);
      RangeIsPrefix(s, t, best);
      assert best in keys;
      OwnOrder(FirstKey(keys), best);
    } else if keys != {} {
      HasFee(vip, FirstKey(keys));
    }
  }

  /** The scan over every part of a table is right if and only if no key of another script
      or tick lies in the range. */
  lemma ScanIsRightIff(vip: set<VipKey>, s: Script, t: Tick)
    requires FeesBelowMax(vip)
    ensures (forall part :: part <= vip ==> ScannedFee(part, s, t) == LastFee(part, s, t)) <==> OwnRange(vip, s, t)
  {
    hide LastFee, NotAfter, InRange, ScannedFee;
    if OwnRange(vip, s, t) {
      forall part | part <= vip ensures ScannedFee(part, s, t) == LastFee(part, s, t) {
        OwnRangeIsRight(part, s, t);
      }
    } else {
      var k :| k in KeysInRange(vip, s, t) && !(k.spk == s && k.tick == t);
      OnlyForeign(k, s, t);
      assert {k} <= vip;
    }
  }

  lemma OnlyForeign(k: VipKey, s: Script, t: Tick)
    requires InRange(s, t, VipBytes(k)) && !(k.spk == s && k.tick == t)
    ensures ScannedFee({k}, s, t) != LastFee({k}, s, t)
  {
    hide InRange, NotAfter;
    assert k in KeysInRange({k}, s, t);
    assert DiscountScores({k}, s, t) == {};
  }

  // ---------------------------------------------------------------- address scripts

  /** The bytes of neither script begin with the other's. */
  predicate Apart(a: Script, b: Script) {
    !(ScriptBytes(a) <= ScriptBytes(b)) && !(ScriptBytes(b) <= ScriptBytes(a))
  }

  lemma BothPrefixes(a: Bytes, b: Bytes, x: Bytes)
    requires a <= x && b <= x
    ensures a <= b || b <= a
  {
    if |a| <= |b| {
      assert a == x[..|a|] == b[..|a|];
    } else {
      assert b == x[..|b|] == a[..|b|];
    }
  }

  lemma PrefixIsOwn(s: Script, t: Tick, k: VipKey)
    requires k.spk != s ==> Apart(k.spk, s)
    requires FeePrefix(s, t) <= VipBytes(k)
    ensures k.spk == s && k.tick == t
  {
    var x, v, w := VipBytes(k), ScriptBytes(s), ScriptBytes(k.spk);
    JoinsAssociate(w, Be(TICK_LENGTH, k.tick), Tail(k.score, k.fee));
    assert v <= FeePrefix(s, t) && w <= x;
    assert v <= x;
    BothPrefixes(v, w, x);
    SameScript(s, k.spk);
    TickFits(t);
    TickFits(k.tick);
    assert Be(TICK_LENGTH, t) == x[|v|..|v| + TICK_LENGTH] == Be(TICK_LENGTH, k.tick);
    NumberOrder(TICK_LENGTH, t, k.tick);
  }

  lemma SameScript(a: Script, b: Script)
    requires ScriptBytes(a) == ScriptBytes(b)
    ensures a == b
  {
    hide Be;
    JoinEqual(Be(2, a.version), a.bytes, Be(2, b.version), b.bytes);
    VersionFits(a.version);
    VersionFits(b.version);
    NumberOrder(2, a.version, b.version);
  }

  /** The three kinds of address scripts differ in length or in their first byte. */
  lemma AddressesAreApart(a: Script, b: Script)
    requires AddressScript(a) && AddressScript(b) && a != b
    ensures Apart(a, b)
  {
    hide Be;
    var x, y := ScriptBytes(a), ScriptBytes(b);
    assert x[2..] == a.bytes && y[2..] == b.bytes;
    assert x[2] == a.bytes[0] && y[2] == b.bytes[0];
    if x == y { SameScript(a, b); }
  }

  /** Every discount in force belongs to an address. */
  ghost predicate AddressesOnly(vip: set<VipKey>) {
    forall k :: k in vip ==> AddressScript(k.spk)
  }

  lemma AddressRangeIsOwn(vip: set<VipKey>, s: Script, t: Tick)
    requires AddressesOnly(vip) && AddressScript(s)
    ensures OwnRange(vip, s, t)
  {
    hide InRange, Apart, AddressScript;
    forall k | k in KeysInRange(vip, s, t) ensures k.spk == s && k.tick == t {
      RangeIsPrefix(s, t, k);
      if k.spk != s { AddressesAreApart(k.spk, s); }
      PrefixIsOwn(s, t, k);
    }
  }

  // ---------------------------------------------------------------- every reachable state

  lemma AcceptedDiscount(c: Core, x: ContextOp)
    requires x.op.info.DiscountOp?
    ensures var e := EffectOf(c, x); e.Effect? && e.error.None? ==> x.op.info.discount.fee < U64_MAX
  {
  }

  lemma StepKeepsAddresses(c: Core, d: Core, x: ContextOp)
    requires OneStep(c, d, x) && AddressesOnly(c.vip) && FeesBelowMax(c.vip)
    ensures AddressesOnly(d.vip) && FeesBelowMax(d.vip)
  {
    hide Good, AddsOnly, EffectOf, RegistryOk, AddressScript;
    RegistryOfGood(c, x.score);
    EffectOnVip(c, x);
    if x.op.info.DiscountOp? { AcceptedDiscount(c, x); }
  }

  lemma {:induction false} DiscountsOfRun(h: seq<ContextOp>)
    requires ValidHistory(h)
    ensures AddressesOnly(Run(h).vip) && FeesBelowMax(Run(h).vip)
    decreases |h|
  {
    hide ValidHistory, OneStep, AddressesOnly, FeesBelowMax, Apply;
    if h == [] {
      assert AddressesOnly({}) && FeesBelowMax({}) by { NoDiscounts(); }
    } else {
      PrefixIsValid(h);
      DiscountsOfRun(h[..|h| - 1]);
      RunStep(h);
      StepKeepsAddresses(Run(h[..|h| - 1]), Run(h), h[|h| - 1]);
    }
  }

  lemma NoDiscounts()
    ensures AddressesOnly({}) && FeesBelowMax({})
  {
  }

  /** Whatever valid history came before, the scan for an address finds its latest
      discount for the tick, and finds none when there is none. */
  lemma FeeScanIsRight(h: seq<ContextOp>, s: Script, t: Tick)
    requires ValidHistory(h) && AddressScript(s)
    ensures ScannedFee(Run(h).vip, s, t) == LastFee(Run(h).vip, s, t)
  {
    hide ValidHistory, Run, AddressesOnly, FeesBelowMax, OwnRange, AddressScript, ScannedFee, LastFee;
    DiscountsOfRun(h);
    AddressRangeIsOwn(Run(h).vip, s, t);
    OwnRangeIsRight(Run(h).vip, s, t);
  }
}
