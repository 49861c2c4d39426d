/** The other keys that hold a script of no fixed width: the discount log, and the two
    address indexes (database/src/database/partition.rs, `ScoredDiscountKey` and
    `AddressHoldingKey`). */
module ScriptKeys {
  import opened Model
  import opened Keys
  import opened FeeKeys

  // ---------------------------------------------------------------- the discount log

  function DiscountBytes(k: DiscountKey): Bytes {
    Be(8, k.score) + (Be(TICK_LENGTH, k.tick) + ScriptBytes(k.spk))
  }

  /** `from_key_bytes` cuts the fields off from the front. */
  function DiscountFromBytes(b: Bytes): (nat, nat, Script)
    requires |b| >= TICK_LENGTH + 10
  {
    var version := FromBe(b[TICK_LENGTH + 8..TICK_LENGTH + 10]);
    (FromBe(b[..8]), FromBe(b[8..TICK_LENGTH + 8]), Script(if version < 0x1_0000 then version else 0, b[TICK_LENGTH + 10..]))
  }

  lemma DiscountParts(k: DiscountKey)
    ensures var b := DiscountBytes(k);
            && |b| >= TICK_LENGTH + 10
            && b[..8] == Be(8, k.score) && b[8..TICK_LENGTH + 8] == Be(TICK_LENGTH, k.tick)
            && b[TICK_LENGTH + 8..TICK_LENGTH + 10] == Be(2, k.spk.version) && b[TICK_LENGTH + 10..] == k.spk.bytes
  {
    hide Be;
  }

  lemma DiscountComesBack(k: DiscountKey)
    ensures |DiscountBytes(k)| >= TICK_LENGTH + 10 && DiscountFromBytes(DiscountBytes(k)) == (k.score, k.tick, k.spk)
  {
    hide DiscountBytes, FromBe, Be;
    DiscountParts(k);
    U64Fits(k.score);
    TickFits(k.tick);
    VersionFits(k.spk.version);
    NumberComesBack(8, k.score);
    NumberComesBack(TICK_LENGTH, k.tick);
    NumberComesBack(2, k.spk.version);
  }

  /** The range that starts at the eight bytes of a score, with nothing after them, holds
      exactly the discounts from that score on. */
  lemma DiscountsFromScore(k: DiscountKey, threshold: u64)
    ensures !LexLess(DiscountBytes(k), Be(8, threshold)) <==> k.score >= threshold
  {
    hide Be, LexLess;
    U64Fits(k.score);
    U64Fits(threshold);
    var rest := Be(TICK_LENGTH, k.tick) + ScriptBytes(k.spk);
    JoinOrder(Be(8, k.score), rest, Be(8, threshold), []);
    assert Be(8, threshold) + [] == Be(8, threshold);
    NumberOrder(8, k.score, threshold);
    NothingBelowEmpty(rest);
  }

  lemma NothingBelowEmpty(b: Bytes)
    ensures !LexLess(b, [])
  {
  }

  // ---------------------------------------------------------------- the address indexes

  /** Token ids are 64 bits wide. */
  function HoldingBytes(k: HoldingKey): Bytes {
    FeePrefix(k.spk, k.token.tick) + Be(8, k.token.tokenId)
  }

  /** `from_key_bytes` cuts the fields off from the end. */
  function HoldingFromBytes(b: Bytes): (Script, nat, nat)
    requires |b| >= TICK_LENGTH + 10
  {
    var n := |b|;
    var version := FromBe(b[..2]);
    (Script(if version < 0x1_0000 then version else 0, b[2..n - 8 - TICK_LENGTH]), FromBe(b[n - 8 - TICK_LENGTH..n - 8]), FromBe(b[n - 8..]))
  }

  lemma HoldingParts(k: HoldingKey)
    ensures var b, n := HoldingBytes(k), |k.spk.bytes|;
            && |b| == n + TICK_LENGTH + 10
            && b[..2] == Be(2, k.spk.version) && b[2..n + 2] == k.spk.bytes
            && b[n + 2..n + 2 + TICK_LENGTH] == Be(TICK_LENGTH, k.token.tick) && b[n + 2 + TICK_LENGTH..] == Be(8, k.token.tokenId)
  {
    hide Be;
  }

  lemma HoldingComesBack(k: HoldingKey)
    requires k.token.tokenId <= U64_MAX
    ensures |HoldingBytes(k)| >= TICK_LENGTH + 10
    ensures HoldingFromBytes(HoldingBytes(k)) == (k.spk, k.token.tick, k.token.tokenId)
  {
    hide HoldingBytes, FromBe, Be;
    HoldingParts(k);
    U64Fits(k.token.tokenId);
    TickFits(k.token.tick);
    VersionFits(k.spk.version);
    NumberComesBack(2, k.spk.version);
    NumberComesBack(TICK_LENGTH, k.token.tick);
    NumberComesBack(8, k.token.tokenId);
  }

  /** Different rows of an address index have different keys. */
  lemma HoldingsAreApart(k: HoldingKey, l: HoldingKey)
    requires k.token.tokenId <= U64_MAX && l.token.tokenId <= U64_MAX && HoldingBytes(k) == HoldingBytes(l)
    ensures k == l
  {
    hide HoldingBytes, HoldingFromBytes;
    HoldingComesBack(k);
    HoldingComesBack(l);
  }

  lemma DiscountsAreApart(k: DiscountKey, l: DiscountKey)
    requires DiscountBytes(k) == DiscountBytes(l)
    ensures k == l
  {
    hide DiscountBytes, DiscountFromBytes;
    DiscountComesBack(k);
    DiscountComesBack(l);
  }
}
