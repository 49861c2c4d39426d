/** The keys of the tables whose scans matter: the first key a scan meets is the newest
    row, as the ledger's specification says. */
module RowKeys {
  import opened Model
  import opened Ledger
  import opened Rollback
  import opened Chain
  import opened Keys

  const TICK: seq<nat> := [TICK_LENGTH]
  const TOKEN: seq<nat> := [TICK_LENGTH, 8]
  const MINT_KEY: seq<nat> := [TICK_LENGTH, 8, 8, 8]
  const HISTORY_KEY: seq<nat> := [TICK_LENGTH, 8, 8]
  const CHANGE_KEY: seq<nat> := [8, TICK_LENGTH, 8, 8]
  const BLOCK_KEY: seq<nat> := [8, HASH_LENGTH]
  const DEPLOYMENT_KEY: seq<nat> := [8, TICK_LENGTH]

  predicate Fits8(x: nat) {
    x <= U64_MAX
  }

  /** The first key of a table that starts with `prefix`. */
  ghost predicate FirstHit(table: set<Bytes>, prefix: Bytes, b: Bytes) {
    && b in table && prefix <= b
    && (forall x :: x in table && prefix <= x ==> !LexLess(x, b))
  }

  // ---------------------------------------------------------------- filling a key

  /** `copy_from_slice` into the part of a key that starts at `from`. */
  method CopyInto(key: array<nat>, from: nat, b: Bytes)
    requires from + |b| <= key.Length
    modifies key
    ensures key[..] == old(key[..from]) + b + old(key[from + |b|..])
  {
    for i := 0 to |b|
      invariant key[..] == old(key[..from]) + b[..i] + old(key[from + i..])
    {
      key[from + i] := b[i];
      assert b[..i + 1] == b[..i] + [b[i]];
    }
  }

  method MintOwnedKey(k: MintKey) returns (key: array<nat>)
    requires MintFits(k)
    ensures fresh(key) && key[..] == MintBytes(k)
  {
    key := new nat[TICK_LENGTH + 24](_ => 0);
    CopyInto(key, 0, Be(TICK_LENGTH, k.token.tick));
    CopyInto(key, TICK_LENGTH, Be(8, Reversed(k.seqNo)));
    CopyInto(key, TICK_LENGTH + 8, Be(8, k.token.tokenId));
    CopyInto(key, TICK_LENGTH + 16, Be(8, k.score));
    FourFields(MINT_KEY, MintFields(k));
  }

  method ChangeOwnedKey(k: ChangeKey) returns (key: array<nat>)
    requires ChangeFits(k)
    ensures fresh(key) && key[..] == ChangeBytes(k)
  {
    key := new nat[TICK_LENGTH + 24](_ => 0);
    CopyInto(key, 0, Be(8, k.score));
    CopyInto(key, 8, Be(TICK_LENGTH, k.token.tick));
    CopyInto(key, TICK_LENGTH + 8, Be(8, k.token.tokenId));
    CopyInto(key, TICK_LENGTH + 16, Be(8, Reversed(k.seqNo)));
    FourFields(CHANGE_KEY, ChangeFields(k));
  }

  method HistoryOwnedKey(k: HistoryKey) returns (key: array<nat>)
    requires HistoryFits(k)
    ensures fresh(key) && key[..] == HistoryBytes(k)
  {
    hide Be, Pack;
    key := new nat[TICK_LENGTH + 16](_ => 0);
    CopyInto(key, 0, Be(TICK_LENGTH, k.token.tick));
    CopyInto(key, TICK_LENGTH, Be(8, k.token.tokenId));
    CopyInto(key, TICK_LENGTH + 8, Be(8, Reversed(k.score)));
    ThreeFields(HISTORY_KEY, HistoryFields(k));
  }

  lemma FirstField(w: seq<nat>, v: seq<nat>)
    requires |w| == |v| && w != []
    ensures Pack(w, v) == Be(w[0], v[0]) + Pack(w[1..], v[1..])
  {
    hide Be;
  }

  lemma TwoFields(w: seq<nat>, v: seq<nat>)
    requires |w| == 2 == |v|
    ensures Pack(w, v) == Be(w[0], v[0]) + Be(w[1], v[1])
  {
    hide Be;
    FirstField(w, v);
    assert Pack(w[1..], v[1..]) == Be(w[1], v[1]) + [];
  }

  lemma ThreeFields(w: seq<nat>, v: seq<nat>)
    requires |w| == 3 == |v|
    ensures Pack(w, v) == Be(w[0], v[0]) + Be(w[1], v[1]) + Be(w[2], v[2])
  {
    hide Be, Pack;
    FirstField(w, v);
    TwoFields(w[1..], v[1..]);
    JoinsAssociate(Be(w[0], v[0]), Be(w[1], v[1]), Be(w[2], v[2]));
  }

  lemma FourFields(w: seq<nat>, v: seq<nat>)
    requires |w| == 4 == |v|
    ensures Pack(w, v) == Be(w[0], v[0]) + Be(w[1], v[1]) + Be(w[2], v[2]) + Be(w[3], v[3])
  {
    hide Be, Pack;
    FirstField(w, v);
    ThreeFields(w[1..], v[1..]);
    JoinsAssociate(Be(w[0], v[0]), Be(w[1], v[1]) + Be(w[2], v[2]), Be(w[3], v[3]));
    JoinsAssociate(Be(w[0], v[0]), Be(w[1], v[1]), Be(w[2], v[2]));
  }

  // ---------------------------------------------------------------- mints

  predicate MintFits(k: MintKey) {
    Fits8(k.seqNo) && Fits8(k.token.tokenId) && Fits8(k.score)
  }

  function MintFields(k: MintKey): seq<nat>
    requires MintFits(k)
  {
    [k.token.tick, Reversed(k.seqNo), k.token.tokenId, k.score]
  }

  function MintBytes(k: MintKey): Bytes
    requires MintFits(k)
  {
    Pack(MINT_KEY, MintFields(k))
  }

  /** `new_unchecked`, on the bytes of a tick. */
  function AsTick(n: nat): Tick {
    if TICK_MIN <= n < TICK_COUNT then n else TICK_MIN
  }

  /** `from_key_bytes`. */
  function MintFromBytes(b: Bytes): MintKey {
    var v := Unpack(MINT_KEY, b);
    MintKey(TokenKey(AsTick(v[0]), v[2]), if v[1] <= U64_MAX then U64_MAX - v[1] else 0, v[3])
  }

  lemma MintFieldsFit(k: MintKey)
    requires MintFits(k)
    ensures FitIn(MINT_KEY, MintFields(k))
  {
    TickFits(k.token.tick);
    U64Fits(Reversed(k.seqNo));
    U64Fits(k.token.tokenId);
    U64Fits(k.score);
  }

  lemma MintComesBack(k: MintKey)
    requires MintFits(k)
    ensures MintFromBytes(MintBytes(k)) == k
  {
    hide Pack, Unpack;
    MintFieldsFit(k);
    FieldsComeBack(MINT_KEY, MintFields(k));
  }

  lemma MintPrefix(k: MintKey, t: Tick)
    requires MintFits(k)
    ensures Pack(TICK, [t]) <= MintBytes(k) <==> k.token.tick == t
  {
    hide Pack;
    TickFits(t);
    TickFits(k.token.tick);
    assert MINT_KEY == TICK + [8, 8, 8];
    assert MintFields(k) == [k.token.tick] + [Reversed(k.seqNo), k.token.tokenId, k.score];
    StartsWith(TICK, [8, 8, 8], [t], [k.token.tick], [Reversed(k.seqNo), k.token.tokenId, k.score]);
  }

  /** Within a tick the keys run from the latest mint to the first. */
  lemma MintOrder(k: MintKey, l: MintKey)
    requires MintFits(k) && MintFits(l) && k.token.tick == l.token.tick
    ensures k.seqNo > l.seqNo ==> LexLess(MintBytes(k), MintBytes(l))
  {
    hide Pack, LexLess;
    MintFieldsFit(k);
    MintFieldsFit(l);
    PackOrder(MINT_KEY, MintFields(k), MintFields(l));
    var u, v := MintFields(k), MintFields(l);
    assert u[1..][0] < v[1..][0] || k.seqNo <= l.seqNo;
  }

  function MintTable(mints: set<MintKey>): set<Bytes>
    requires forall k :: k in mints ==> MintFits(k)
  {
    set k | k in mints :: MintBytes(k)
  }

  /** The first key with the tick's prefix carries the last sequence number; without such
      a key nothing was minted. */
  lemma FirstMintIsLatest(mints: set<MintKey>, t: Tick)
    requires forall k :: k in mints ==> MintFits(k)
    ensures forall b :: FirstHit(MintTable(mints), Pack(TICK, [t]), b) ==> MintFromBytes(b).seqNo == LastMint(mints, t)
    ensures (forall b :: b in MintTable(mints) ==> !(Pack(TICK, [t]) <= b)) ==> LastMint(mints, t) == 0
  {
    hide Pack, Unpack, LexLess, MintFromBytes, MintFits, MintBytes;
    var prefix := Pack(TICK, [t]);
    if MintSeqs(mints, t) != {} {
      var best :| best in mints && best.token.tick == t && best.seqNo == LastMint(mints, t);
      MintPrefix(best, t);
      assert MintBytes(best) in MintTable(mints);
    }
    forall b | FirstHit(MintTable(mints), prefix, b) ensures MintFromBytes(b).seqNo == LastMint(mints, t) {
      var k :| k in mints && b == MintBytes(k);
      MintPrefix(k, t);
      MintComesBack(k);
      assert k.seqNo in MintSeqs(mints, t);
      var best :| best in mints && best.token.tick == t && best.seqNo == LastMint(mints, t);
      MintPrefix(best, t);
      MintOrder(best, k);
      assert MintBytes(best) in MintTable(mints);
    }
  }

  // ---------------------------------------------------------------- owners

  predicate HistoryFits(k: HistoryKey) {
    Fits8(k.token.tokenId) && Fits8(k.score)
  }

  function HistoryFields(k: HistoryKey): seq<nat>
    requires HistoryFits(k)
  {
    [k.token.tick, k.token.tokenId, Reversed(k.score)]
  }

  function HistoryBytes(k: HistoryKey): Bytes
    requires HistoryFits(k)
  {
    Pack(HISTORY_KEY, HistoryFields(k))
  }

  function HistoryFromBytes(b: Bytes): HistoryKey {
    var v := Unpack(HISTORY_KEY, b);
    HistoryKey(TokenKey(AsTick(v[0]), v[1]), if v[2] <= U64_MAX then U64_MAX - v[2] else 0)
  }

  lemma HistoryFieldsFit(k: HistoryKey)
    requires HistoryFits(k)
    ensures FitIn(HISTORY_KEY, HistoryFields(k))
  {
    TickFits(k.token.tick);
    U64Fits(k.token.tokenId);
    U64Fits(Reversed(k.score));
  }

  lemma HistoryComesBack(k: HistoryKey)
    requires HistoryFits(k)
    ensures HistoryFromBytes(HistoryBytes(k)) == k
  {
    hide Pack, Unpack;
    HistoryFieldsFit(k);
    FieldsComeBack(HISTORY_KEY, HistoryFields(k));
  }

  lemma HistoryPrefix(k: HistoryKey, token: TokenKey)
    requires HistoryFits(k) && Fits8(token.tokenId)
    ensures Pack(TOKEN, [token.tick, token.tokenId]) <= HistoryBytes(k) <==> k.token == token
  {
    hide Pack;
    TickFits(token.tick);
    TickFits(k.token.tick);
    U64Fits(token.tokenId);
    U64Fits(k.token.tokenId);
    assert HISTORY_KEY == TOKEN + [8];
    assert HistoryFields(k) == [k.token.tick, k.token.tokenId] + [Reversed(k.score)];
    StartsWith(TOKEN, [8], [token.tick, token.tokenId], [k.token.tick, k.token.tokenId], [Reversed(k.score)]);
  }

  lemma HistoryOrder(k: HistoryKey, l: HistoryKey)
    requires HistoryFits(k) && HistoryFits(l) && k.token == l.token
    ensures k.score > l.score ==> LexLess(HistoryBytes(k), HistoryBytes(l))
  {
    hide Pack, LexLess;
    HistoryFieldsFit(k);
    HistoryFieldsFit(l);
    PackOrder(HISTORY_KEY, HistoryFields(k), HistoryFields(l));
    var u, v := HistoryFields(k), HistoryFields(l);
    assert Before(u[1..][1..], v[1..][1..]) <==> k.score > l.score;
    assert Before(u[1..], v[1..]) <==> Before(u[1..][1..], v[1..][1..]);
  }

  function HistoryTable(history: map<HistoryKey, Script>): set<Bytes>
    requires forall k :: k in history ==> HistoryFits(k)
  {
    set k | k in history :: HistoryBytes(k)
  }

  /** The first key with the token's prefix is the latest owner's. */
  lemma FirstOwnerIsLatest(history: map<HistoryKey, Script>, token: TokenKey)
    requires Fits8(token.tokenId) && forall k :: k in history ==> HistoryFits(k)
    ensures forall b :: FirstHit(HistoryTable(history), Pack(TOKEN, [token.tick, token.tokenId]), b) ==>
              var k := HistoryFromBytes(b);
              k in history && k.token == token && LastOwner(history, token) == Some(Holding(history[k], k.score))
    ensures (forall b :: b in HistoryTable(history) ==> !(Pack(TOKEN, [token.tick, token.tokenId]) <= b)) ==> LastOwner(history, token) == None
  {
    hide Pack, Unpack, LexLess, HistoryFromBytes, HistoryFits, HistoryBytes;
    var prefix := Pack(TOKEN, [token.tick, token.tokenId]);
    if HistoryScores(history, token) != {} {
      var best := HistoryKey(token, MaxOf(HistoryScores(history, token)));
      assert best in history;
      HistoryPrefix(best, token);
      assert HistoryBytes(best) in HistoryTable(history);
    }
    forall b | FirstHit(HistoryTable(history), prefix, b)
      ensures HistoryFromBytes(b) in history && HistoryFromBytes(b).token == token
      ensures LastOwner(history, token) == Some(Holding(history[HistoryFromBytes(b)], HistoryFromBytes(b).score))
    {
      var k :| k in history && b == HistoryBytes(k);
      HistoryPrefix(k, token);
      HistoryComesBack(k);
      assert k.score in HistoryScores(history, token);
      var best := HistoryKey(token, MaxOf(HistoryScores(history, token)));
      assert best in history;
      HistoryPrefix(best, token);
      HistoryOrder(best, k);
      assert HistoryBytes(best) in HistoryTable(history);
      assert k == best;
    }
  }

  // ---------------------------------------------------------------- changes of owner and blocks

  predicate ChangeFits(k: ChangeKey) {
    Fits8(k.score) && Fits8(k.token.tokenId) && Fits8(k.seqNo)
  }

  function ChangeFields(k: ChangeKey): seq<nat>
    requires ChangeFits(k)
  {
    [k.score, k.token.tick, k.token.tokenId, Reversed(k.seqNo)]
  }

  function ChangeBytes(k: ChangeKey): Bytes
    requires ChangeFits(k)
  {
    Pack(CHANGE_KEY, ChangeFields(k))
  }

  lemma ChangeFieldsFit(k: ChangeKey)
    requires ChangeFits(k)
    ensures FitIn(CHANGE_KEY, ChangeFields(k))
  {
    TickFits(k.token.tick);
    U64Fits(k.score);
    U64Fits(k.token.tokenId);
    U64Fits(Reversed(k.seqNo));
  }

  /** `KeyLe`, the order in which a rollback unwinds, is the byte order of the table. */
  lemma ChangeOrder(k: ChangeKey, l: ChangeKey)
    requires ChangeFits(k) && ChangeFits(l)
    ensures KeyLe(k, l) <==> !LexLess(ChangeBytes(l), ChangeBytes(k))
  {
    hide Pack, LexLess;
    ChangeFieldsFit(k);
    ChangeFieldsFit(l);
    PackOrder(CHANGE_KEY, ChangeFields(l), ChangeFields(k));
    var u, v := ChangeFields(l), ChangeFields(k);
    assert Before(u[1..][1..][1..], v[1..][1..][1..]) <==> u[3] < v[3];
    assert Before(u[1..][1..], v[1..][1..]) <==> u[2] < v[2] || (u[2] == v[2] && u[3] < v[3]);
    assert Before(u[1..], v[1..]) <==> u[1] < v[1] || (u[1] == v[1] && Before(u[1..][1..], v[1..][1..]));
  }

  function BlockBytes(b: BlockKey): Bytes {
    Pack(BLOCK_KEY, [b.blueScore, b.hash])
  }

  /** `BlockLe` is the byte order of the chain index, so its last key is the tip. */
  lemma BlockOrder(a: BlockKey, b: BlockKey)
    ensures BlockLe(a, b) <==> !LexLess(BlockBytes(b), BlockBytes(a))
  {
    hide Pack, LexLess;
    BlockFieldsFit(a);
    BlockFieldsFit(b);
    var u, v := [b.blueScore, b.hash], [a.blueScore, a.hash];
    PackOrder(BLOCK_KEY, u, v);
    assert Before(u[1..], v[1..]) <==> u[1] < v[1];
  }

  lemma BlockFieldsFit(b: BlockKey)
    ensures FitIn(BLOCK_KEY, [b.blueScore, b.hash])
  {
    U64Fits(b.blueScore);
    HashFits(b.hash);
  }

  // ---------------------------------------------------------------- layouts

  /** Tick, reversed sequence number, token id and score, from the first byte on. */
  lemma MintLayout(k: MintKey)
    requires MintFits(k)
    ensures var b := MintBytes(k);
            && |b| == 34
            && b[..10] == Be(10, k.token.tick) && b[10..18] == Be(8, U64_MAX - k.seqNo)
            && b[18..26] == Be(8, k.token.tokenId) && b[26..] == Be(8, k.score)
  {
    hide Be, Pack;
    FourFields(MINT_KEY, MintFields(k));
  }

  /** Score, tick, token id and reversed sequence number. */
  lemma ChangeLayout(k: ChangeKey)
    requires ChangeFits(k)
    ensures var b := ChangeBytes(k);
            && |b| == 34
            && b[..8] == Be(8, k.score) && b[8..18] == Be(10, k.token.tick)
            && b[18..26] == Be(8, k.token.tokenId) && b[26..] == Be(8, U64_MAX - k.seqNo)
  {
    hide Be, Pack;
    FourFields(CHANGE_KEY, ChangeFields(k));
  }

  /** Tick, token id and reversed score. */
  lemma HistoryLayout(k: HistoryKey)
    requires HistoryFits(k)
    ensures var b := HistoryBytes(k);
            && |b| == 26
            && b[..10] == Be(10, k.token.tick) && b[10..18] == Be(8, k.token.tokenId) && b[18..] == Be(8, U64_MAX - k.score)
  {
    hide Be, Pack;
    ThreeFields(HISTORY_KEY, HistoryFields(k));
  }

  /** Blue score and hash. */
  lemma BlockLayout(b: BlockKey)
    ensures |BlockBytes(b)| == 40 && BlockBytes(b)[..8] == Be(8, b.blueScore) && BlockBytes(b)[8..] == Be(32, b.hash)
  {
    hide Be, Pack;
    TwoFields(BLOCK_KEY, [b.blueScore, b.hash]);
  }

  // ---------------------------------------------------------------- decoding

  lemma ChangeComesBack(k: ChangeKey)
    requires ChangeFits(k)
    ensures Unpack(CHANGE_KEY, ChangeBytes(k)) == [k.score, k.token.tick, k.token.tokenId, Reversed(k.seqNo)]
  {
    hide Pack, Unpack;
    ChangeFieldsFit(k);
    FieldsComeBack(CHANGE_KEY, ChangeFields(k));
  }

  lemma BlockComesBack(b: BlockKey)
    ensures Unpack(BLOCK_KEY, BlockBytes(b)) == [b.blueScore, b.hash]
  {
    hide Pack, Unpack;
    BlockFieldsFit(b);
    FieldsComeBack(BLOCK_KEY, [b.blueScore, b.hash]);
  }

  // ---------------------------------------------------------------- where the rollback scans start

  /** The scan of ownership changes starts at the least tick with the threshold as score,
      token 0 and reversed sequence number 0: it meets exactly the scores from the
      threshold on. */
  lemma ChangesFromThreshold(k: ChangeKey, threshold: u64)
    requires ChangeFits(k)
    ensures !LexLess(ChangeBytes(k), Pack(CHANGE_KEY, [threshold, TICK_MIN, 0, 0])) <==> k.score >= threshold
  {
    hide Pack, LexLess;
    ChangeFieldsFit(k);
    StartFits(threshold);
    var u, v := ChangeFields(k), [threshold, TICK_MIN, 0, 0];
    PackOrder(CHANGE_KEY, u, v);
    assert Before(u[1..][1..][1..], v[1..][1..][1..]) <==> u[3] < 0;
    assert Before(u[1..][1..], v[1..][1..]) <==> false;
    assert Before(u[1..], v[1..]) <==> false;
  }

  lemma StartFits(threshold: u64)
    ensures FitIn(CHANGE_KEY, [threshold, TICK_MIN, 0, 0]) && FitIn(DEPLOYMENT_KEY, [threshold, TICK_MIN])
  {
    U64Fits(threshold);
    U64Fits(0);
    TickFits(TICK_MIN);
  }

  /** So does the scan of deployments. */
  lemma DeploymentsFromThreshold(score: u64, tick: Tick, threshold: u64)
    ensures !LexLess(Pack(DEPLOYMENT_KEY, [score, tick]), Pack(DEPLOYMENT_KEY, [threshold, TICK_MIN])) <==> score >= threshold
  {
    hide Pack, LexLess;
    U64Fits(score);
    TickFits(tick);
    StartFits(threshold);
    var u, v := [score, tick], [threshold, TICK_MIN];
    PackOrder(DEPLOYMENT_KEY, u, v);
    assert Before(u[1..], v[1..]) <==> u[1] < v[1];
  }
}
