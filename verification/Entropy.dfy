/** The entropy of a mergeset (nexus/src/syncer.rs, `MergesetEntropyBuilder`): the exclusive
    or of the hashes of all its blocks, eight bytes at a time. */
module Entropy {

  // ---------------------------------------------------------------- words

  /** `u64::from_le_bytes`. */
  function FromLe(b: seq<bv8>): bv64
    requires |b| == 8
  {
    Glued(b[0] as bv64, b[1] as bv64, b[2] as bv64, b[3] as bv64, b[4] as bv64, b[5] as bv64, b[6] as bv64, b[7] as bv64)
  }

  function Glued(b0: bv64, b1: bv64, b2: bv64, b3: bv64, b4: bv64, b5: bv64, b6: bv64, b7: bv64): bv64 {
    b0 | (b1 << 8) | (b2 << 16) | (b3 << 24) | (b4 << 32) | (b5 << 40) | (b6 << 48) | (b7 << 56)
  }

  lemma GluedBytes(b0: bv64, b1: bv64, b2: bv64, b3: bv64, b4: bv64, b5: bv64, b6: bv64, b7: bv64)
    requires b0 <= 0xFF && b1 <= 0xFF && b2 <= 0xFF && b3 <= 0xFF && b4 <= 0xFF && b5 <= 0xFF && b6 <= 0xFF && b7 <= 0xFF
    ensures var w := Glued(b0, b1, b2, b3, b4, b5, b6, b7);
            && w & 0xFF == b0 && (w >> 8) & 0xFF == b1 && (w >> 16) & 0xFF == b2 && (w >> 24) & 0xFF == b3
            && (w >> 32) & 0xFF == b4 && (w >> 40) & 0xFF == b5 && (w >> 48) & 0xFF == b6 && (w >> 56) & 0xFF == b7
  {
  }

  lemma ByteIsSmall(b: bv8)
    ensures b as bv64 <= 0xFF
  {
  }

  /** The first byte of the eight is the lowest of the word, the last the highest. */
  lemma WordHoldsBytes(b: seq<bv8>)
    requires |b| == 8
    ensures var w := FromLe(b);
            && w & 0xFF == b[0] as bv64 && (w >> 8) & 0xFF == b[1] as bv64
            && (w >> 16) & 0xFF == b[2] as bv64 && (w >> 24) & 0xFF == b[3] as bv64
            && (w >> 32) & 0xFF == b[4] as bv64 && (w >> 40) & 0xFF == b[5] as bv64
            && (w >> 48) & 0xFF == b[6] as bv64 && (w >> 56) & 0xFF == b[7] as bv64
  {
    hide Glued;
    forall i | 0 <= i < 8 ensures b[i] as bv64 <= 0xFF {
      ByteIsSmall(b[i]);
    }
    GluedBytes(b[0] as bv64, b[1] as bv64, b[2] as bv64, b[3] as bv64, b[4] as bv64, b[5] as bv64, b[6] as bv64, b[7] as bv64);
  }

  // ---------------------------------------------------------------- exclusive or

  function Xor(a: bv64, b: bv64): bv64 {
    a ^ b
  }

  lemma XorAssociates(a: bv64, b: bv64, c: bv64)
    ensures Xor(Xor(a, b), c) == Xor(a, Xor(b, c))
  {
  }

  lemma XorCommutes(a: bv64, b: bv64)
    ensures Xor(a, b) == Xor(b, a)
  {
  }

  lemma XorNothing(a: bv64)
    ensures Xor(a, 0) == a
  {
  }

  /** The exclusive or of all words. */
  function XorAll(words: seq<bv64>): bv64 {
    if words == [] then 0 else Xor(XorAll(words[..|words| - 1]), words[|words| - 1])
  }

  lemma {:induction false} XorJoins(a: seq<bv64>, b: seq<bv64>)
    ensures XorAll(a + b) == Xor(XorAll(a), XorAll(b))
  {
    hide Xor;
    XorNothing(XorAll(a));
    if b == [] {
      assert a + b == a;
    } else {
      var n := |b| - 1;
      XorJoins(a, b[..n]);
      assert (a + b)[..|a + b| - 1] == a + b[..n];
      XorAssociates(XorAll(a), XorAll(b[..n]), b[n]);
    }
  }

  // ---------------------------------------------------------------- bit by bit

  function Half(w: bv64): bv64 {
    w >> 1
  }

  predicate Low(w: bv64) {
    w & 1 == 1
  }

  /** Bit `k` of a word, from the low end. */
  predicate Bit(w: bv64, k: nat) {
    if k == 0 then Low(w) else Bit(Half(w), k - 1)
  }

  lemma XorIs(a: bv64, b: bv64)
    ensures Xor(a, b) == a ^ b
  {
  }

  lemma HalfIs(w: bv64)
    ensures Half(w) == w >> 1
  {
  }

  lemma HalvesXor(a: bv64, b: bv64)
    ensures (a ^ b) >> 1 == (a >> 1) ^ (b >> 1)
  {
  }

  lemma HalfXor(a: bv64, b: bv64)
    ensures Half(Xor(a, b)) == Xor(Half(a), Half(b))
  {
    hide Xor, Half;
    XorIs(a, b);
    HalfIs(a);
    HalfIs(b);
    HalfIs(a ^ b);
    XorIs(a >> 1, b >> 1);
    HalvesXor(a, b);
  }

  lemma LowXor(a: bv64, b: bv64)
    ensures Low(Xor(a, b)) <==> Low(a) != Low(b)
  {
    assert (a ^ b) & 1 == 1 <==> (a & 1 == 1) != (b & 1 == 1);
  }

  lemma {:induction false} BitOfXor(a: bv64, b: bv64, k: nat)
    ensures Bit(Xor(a, b), k) <==> Bit(a, k) != Bit(b, k)
    decreases k
  {
    hide Xor, Half, Low;
    HalfXor(a, b);
    LowXor(a, b);
    if k > 0 {
      BitOfXor(Half(a), Half(b), k - 1);
    }
  }

  lemma {:induction false} NoBits(k: nat)
    ensures !Bit(0, k)
  {
    if k > 0 {
      NoBits(k - 1);
    }
  }

  /** How many words have bit `k` set. */
  function WithBit(words: seq<bv64>, k: nat): nat {
    if words == [] then 0 else WithBit(words[..|words| - 1], k) + (if Bit(words[|words| - 1], k) then 1 else 0)
  }

  /** A bit of the exclusive or is set when an odd number of words has it set. */
  lemma {:induction false} BitIsParity(words: seq<bv64>, k: nat)
    ensures Bit(XorAll(words), k) <==> WithBit(words, k) % 2 == 1
  {
    hide Xor, Bit;
    if words == [] {
      NoBits(k);
    } else {
      var n := |words| - 1;
      BitIsParity(words[..n], k);
      BitOfXor(XorAll(words[..n]), words[n], k);
    }
  }

  lemma XorWithItself(a: bv64)
    ensures Xor(a, a) == 0
  {
  }

  /** Of two lists with the same members, the second without the last one of the first. */
  lemma WithoutLast<T>(a: seq<T>, b: seq<T>) returns (i: nat)
    requires multiset(a) == multiset(b) && a != []
    ensures i < |b| && b[i] == a[|a| - 1]
    ensures multiset(a[..|a| - 1]) == multiset(b[..i] + b[i + 1..])
  {
    var n := |a| - 1;
    RemovingOne(a, n);
    assert a[..n] + a[n + 1..] == a[..n];
    assert a[n] in multiset(b);
    i :| 0 <= i < |b| && b[i] == a[n];
    RemovingOne(b, i);
  }

  lemma NoneLeft<T>(b: seq<T>)
    requires multiset(b) == multiset([])
    ensures b == []
  {
    assert |multiset(b)| == 0;
  }

  lemma SameXor(a: seq<bv64>, b: seq<bv64>, i: nat)
    requires a != [] && i < |b| && b[i] == a[|a| - 1]
    requires XorAll(a[..|a| - 1]) == XorAll(b[..i] + b[i + 1..])
    ensures XorAll(a) == XorAll(b)
  {
    hide XorAll;
    XorMoves(b, i);
    XorLast(a);
  }

  /** The order of the words does not matter. */
  lemma {:induction false} XorIgnoresOrder(a: seq<bv64>, b: seq<bv64>)
    requires multiset(a) == multiset(b)
    ensures XorAll(a) == XorAll(b)
    decreases |a|
  {
    hide XorAll;
    if a == [] {
      NoneLeft(b);
    } else {
      var i := WithoutLast(a, b);
      XorIgnoresOrder(a[..|a| - 1], b[..i] + b[i + 1..]);
      SameXor(a, b, i);
    }
  }

  lemma RemovingOne<T>(s: seq<T>, i: nat)
    requires i < |s|
    ensures multiset(s) - multiset{s[i]} == multiset(s[..i] + s[i + 1..])
    ensures s[i] in multiset(s)
  {
    assert s == s[..i] + [s[i]] + s[i + 1..];
  }

  lemma XorLast(s: seq<bv64>)
    requires s != []
    ensures XorAll(s) == Xor(XorAll(s[..|s| - 1]), s[|s| - 1])
  {
  }

  lemma XorMoves(s: seq<bv64>, i: nat)
    requires i < |s|
    ensures XorAll(s) == Xor(XorAll(s[..i] + s[i + 1..]), s[i])
  {
    hide XorAll, Xor;
    var low, high := s[..i], s[i + 1..];
    assert s == low + [s[i]] + high;
    XorJoins(low + [s[i]], high);
    XorJoins(low, high);
    assert (low + [s[i]])[..i] == low;
    XorLast(low + [s[i]]);
    XorAssociates(XorAll(low), s[i], XorAll(high));
    XorAssociates(XorAll(low), XorAll(high), s[i]);
    XorCommutes(s[i], XorAll(high));
  }

  // ---------------------------------------------------------------- blocks

  const HASH_BYTES: nat := 32

  predicate IsHash(b: seq<bv8>) {
    |b| == HASH_BYTES
  }

  /** The four words of a hash. */
  function WordsOf(hash: seq<bv8>): (words: seq<bv64>)
    requires IsHash(hash)
    ensures |words| == 4
  {
    [FromLe(hash[..8]), FromLe(hash[8..16]), FromLe(hash[16..24]), FromLe(hash[24..32])]
  }

  function AllWords(hashes: seq<seq<bv8>>): seq<bv64>
    requires forall h :: h in hashes ==> IsHash(h)
  {
    if hashes == [] then [] else AllWords(hashes[..|hashes| - 1]) + WordsOf(hashes[|hashes| - 1])
  }

  /** Word `j` of hash `i` is made of the eight bytes from `8 * j` on. */
  lemma {:induction false} WordsInPlace(hashes: seq<seq<bv8>>, i: nat, j: nat)
    requires (forall h :: h in hashes ==> IsHash(h)) && i < |hashes| && j < 4
    ensures |AllWords(hashes)| == 4 * |hashes| && IsHash(hashes[i])
    ensures AllWords(hashes)[4 * i + j] == FromLe(hashes[i][8 * j..8 * j + 8])
    decreases |hashes|
  {
    hide FromLe, WordsOf;
    var n := |hashes| - 1;
    if i < n {
      WordsInPlace(hashes[..n], i, j);
    } else {
      if n > 0 { WordsInPlace(hashes[..n], 0, 0); }
      WordAt(hashes[n], j);
    }
  }

  lemma {:induction false} WordsJoin(a: seq<seq<bv8>>, b: seq<seq<bv8>>)
    requires (forall h :: h in a ==> IsHash(h)) && (forall h :: h in b ==> IsHash(h))
    ensures AllWords(a + b) == AllWords(a) + AllWords(b)
  {
    hide WordsOf;
    if b == [] {
      assert a + b == a;
    } else {
      WordsJoin(a, b[..|b| - 1]);
      assert (a + b)[..|a + b| - 1] == a + b[..|b| - 1];
    }
  }

  lemma MiddleOut(a: seq<bv64>, w: seq<bv64>, b: seq<bv64>)
    ensures multiset(a + w + b) == multiset(a + b) + multiset(w)
  {
  }

  lemma OneHash(hash: seq<bv8>)
    requires IsHash(hash)
    ensures AllWords([hash]) == WordsOf(hash)
  {
    hide WordsOf;
    assert [hash][..0] == [];
    assert AllWords([]) == [];
  }

  lemma WordsMove(s: seq<seq<bv8>>, i: nat)
    requires i < |s| && forall h :: h in s ==> IsHash(h)
    ensures multiset(AllWords(s)) == multiset(AllWords(s[..i] + s[i + 1..])) + multiset(WordsOf(s[i]))
  {
    hide WordsOf, AllWords, IsHash;
    assert s == s[..i] + [s[i]] + s[i + 1..];
    WordsJoin(s[..i] + [s[i]], s[i + 1..]);
    WordsJoin(s[..i], [s[i]]);
    OneHash(s[i]);
    WordsJoin(s[..i], s[i + 1..]);
    MiddleOut(AllWords(s[..i]), WordsOf(s[i]), AllWords(s[i + 1..]));
  }

  /** The entropy depends on which blocks are merged, not on their order. */
  lemma {:induction false} EntropyIgnoresOrder(a: seq<seq<bv8>>, b: seq<seq<bv8>>)
    requires (forall h :: h in a ==> IsHash(h)) && (forall h :: h in b ==> IsHash(h)) && multiset(a) == multiset(b)
    ensures multiset(AllWords(a)) == multiset(AllWords(b)) && XorAll(AllWords(a)) == XorAll(AllWords(b))
    decreases |a|
  {
    hide XorAll, WordsOf;
    if a == [] {
      NoneLeft(b);
    } else {
      var n := |a| - 1;
      var i := WithoutLast(a, b);
      var rest := b[..i] + b[i + 1..];
      EntropyIgnoresOrder(a[..n], rest);
      WordsMove(b, i);
    }
    XorIgnoresOrder(AllWords(a), AllWords(b));
  }

  /** A bit of the entropy is the parity of that bit over all words of all hashes. */
  lemma EntropyIsParity(hashes: seq<seq<bv8>>, k: nat)
    requires forall h :: h in hashes ==> IsHash(h)
    ensures Bit(XorAll(AllWords(hashes)), k) <==> WithBit(AllWords(hashes), k) % 2 == 1
  {
    hide XorAll, AllWords, WithBit, Bit;
    BitIsParity(AllWords(hashes), k);
  }

  /** A block counted twice is a block not counted. */
  lemma TwiceIsNothing(hashes: seq<seq<bv8>>, hash: seq<bv8>)
    requires (forall h :: h in hashes ==> IsHash(h)) && IsHash(hash)
    ensures forall h :: h in hashes + [hash, hash] ==> IsHash(h)
    ensures XorAll(AllWords(hashes + [hash, hash])) == XorAll(AllWords(hashes))
  {
    hide XorAll, AllWords, WordsOf, Xor, IsHash;
    WordsJoin(hashes, [hash, hash]);
    assert [hash, hash] == [hash] + [hash];
    WordsJoin([hash], [hash]);
    OneHash(hash);
    var w := XorAll(WordsOf(hash));
    XorJoins(WordsOf(hash), WordsOf(hash));
    XorWithItself(w);
    XorJoins(AllWords(hashes), AllWords([hash, hash]));
    XorNothing(XorAll(AllWords(hashes)));
  }

  class MergesetEntropyBuilder {
    var entropy: bv64
    ghost var hashes: seq<seq<bv8>>

    ghost predicate Valid()
      reads this
    {
      (forall h :: h in hashes ==> IsHash(h)) && entropy == XorAll(AllWords(hashes))
    }

    constructor ()
      ensures Valid() && hashes == []
    {
      entropy, hashes := 0, [];
    }

    /** Folds the hash into the entropy in chunks of eight bytes. */
    method AddBlockHash(hash: seq<bv8>)
      requires Valid() && IsHash(hash)
      modifies this
      ensures Valid() && hashes == old(hashes) + [hash]
    {
      hide XorAll, FromLe, WordsOf, AllWords;
      ghost var done, words := AllWords(hashes), WordsOf(hash);
      NoneYet(done, words);
      for chunk := 0 to HASH_BYTES / 8
        invariant entropy == XorAll(done + words[..chunk]) && hashes == old(hashes)
      {
        WordAt(hash, chunk);
        NextWord(done, words, chunk);
        entropy := entropy ^ FromLe(hash[8 * chunk..8 * chunk + 8]);
      }
      OneMoreHash(hashes, hash);
      hashes := hashes + [hash];
    }

    /** Each bit of the result is the parity of that bit over the words of all hashes added. */
    method Finalize() returns (r: bv64)
      requires Valid()
      ensures r == XorAll(AllWords(hashes)) && forall k: nat :: Bit(r, k) <==> WithBit(AllWords(hashes), k) % 2 == 1
    {
      hide Bit, WithBit, XorAll, AllWords;
      r := entropy;
      forall k: nat ensures Bit(r, k) <==> WithBit(AllWords(hashes), k) % 2 == 1 {
        EntropyIsParity(hashes, k);
      }
    }
  }

  lemma NoneYet(done: seq<bv64>, words: seq<bv64>)
    ensures done + words[..0] == done
  {
  }

  lemma WordAt(hash: seq<bv8>, k: nat)
    requires IsHash(hash) && k < 4
    ensures WordsOf(hash)[k] == FromLe(hash[8 * k..8 * k + 8])
  {
    hide FromLe;
    assert k == 0 || k == 1 || k == 2 || k == 3;
  }

  lemma NextWord(done: seq<bv64>, words: seq<bv64>, k: nat)
    requires k < |words|
    ensures XorAll(done + words[..k + 1]) == Xor(XorAll(done + words[..k]), words[k])
  {
    hide XorAll;
    var next := done + words[..k + 1];
    assert next[..|next| - 1] == done + words[..k];
    XorLast(next);
  }

  lemma OneMoreHash(hashes: seq<seq<bv8>>, hash: seq<bv8>)
    requires IsHash(hash) && forall h :: h in hashes ==> IsHash(h)
    ensures forall h :: h in hashes + [hash] ==> IsHash(h)
    ensures AllWords(hashes + [hash]) == AllWords(hashes) + WordsOf(hash)[..4]
  {
    hide WordsOf;
    assert (hashes + [hash])[..|hashes|] == hashes;
    assert WordsOf(hash)[..4] == WordsOf(hash);
  }

  /** `process_reconstructed_acceptance_data`: the hashes of all merged blocks, with or
      without transactions. */
  method EntropyOf(hashes: seq<seq<bv8>>) returns (r: bv64)
    requires forall h :: h in hashes ==> IsHash(h)
    ensures r == XorAll(AllWords(hashes)) && forall k: nat :: Bit(r, k) <==> WithBit(AllWords(hashes), k) % 2 == 1
  {
    hide Bit, WithBit, XorAll, AllWords;
    var builder := new MergesetEntropyBuilder();
    for i := 0 to |hashes|
      invariant builder.Valid() && builder.hashes == hashes[..i] && fresh(builder)
    {
      builder.AddBlockHash(hashes[i]);
    }
    assert hashes[..|hashes|] == hashes;
    r := builder.Finalize();
  }
}
