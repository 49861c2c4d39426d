/** The byte keys of the store (database/src/database/partition.rs): fixed-width
    big-endian fields, some of them reversed as `u64::MAX - x`, so that the first key a
    scan meets is the newest row. */
module Keys {
  import opened Model

  type Bytes = seq<nat>

  const TICK_LENGTH: nat := 10
  const HASH_LENGTH: nat := 32

  // ---------------------------------------------------------------- big-endian numbers

  function Pow256(n: nat): (p: nat)
    ensures p >= 1
  {
    if n == 0 then 1 else 256 * Pow256(n - 1)
  }

  /** The last `width` base-256 digits of `x`, most significant first. */
  function Be(width: nat, x: nat): (b: Bytes)
    ensures |b| == width && forall i :: 0 <= i < width ==> b[i] < 256
  {
    if width == 0 then [] else Be(width - 1, x / 256) + [x % 256]
  }

  function FromBe(b: Bytes): nat {
    if b == [] then 0 else 256 * FromBe(b[..|b| - 1]) + b[|b| - 1]
  }

  lemma {:induction false} NumberComesBack(width: nat, x: nat)
    requires x < Pow256(width)
    ensures FromBe(Be(width, x)) == x
  {
    if width > 0 {
      NumberComesBack(width - 1, x / 256);
      assert Be(width, x)[..width - 1] == Be(width - 1, x / 256);
    }
  }

  lemma {:induction false} BytesComeBack(b: Bytes)
    requires forall i :: 0 <= i < |b| ==> b[i] < 256
    ensures Be(|b|, FromBe(b)) == b && FromBe(b) < Pow256(|b|)
  {
    if b != [] {
      BytesComeBack(b[..|b| - 1]);
    }
  }

  /** u64 values and the eight-byte width. */
  lemma U64Fits(x: nat)
    ensures Pow256(8) == U64_MAX + 1
    ensures x <= U64_MAX <==> x < Pow256(8)
  {
    assert Pow256(4) == 0x1_0000_0000;
    assert Pow256(8) == 0x1_0000_0000 * 0x1_0000_0000;
  }

  /** A tick and a hash as numbers of their width. */
  lemma TickFits(t: Tick)
    ensures t < Pow256(TICK_LENGTH)
  {
    assert Pow256(5) == 0x1_00_00_00_00_00;
    assert Pow256(TICK_LENGTH) == Pow256(5) * Pow256(5);
  }

  lemma HashFits(h: Hash)
    ensures h < Pow256(HASH_LENGTH)
  {
    PowersMultiply(8, 8);
    PowersMultiply(16, 16);
    assert Pow256(8) == 0x1_00000000_00000000 by { U64Fits(0); }
    assert Pow256(16) == 0x1_00000000_00000000_00000000_00000000;
  }

  lemma {:induction false} PowersMultiply(m: nat, n: nat)
    ensures Pow256(m + n) == Pow256(m) * Pow256(n)
  {
    if m > 0 {
      PowersMultiply(m - 1, n);
    }
  }

  /** `u64::MAX - x`. */
  function Reversed(x: u64): u64 {
    U64_MAX - x
  }

  // ---------------------------------------------------------------- byte order

  predicate LexLess(a: Bytes, b: Bytes) {
    if b == [] then false
    else if a == [] then true
    else a[0] < b[0] || (a[0] == b[0] && LexLess(a[1..], b[1..]))
  }

  lemma {:induction false} JoinOrder(a: Bytes, b: Bytes, c: Bytes, d: Bytes)
    requires |a| == |c|
    ensures LexLess(a + b, c + d) <==> LexLess(a, c) || (a == c && LexLess(b, d))
  {
    if a == [] {
      assert a + b == b && c + d == d;
    } else {
      JoinOrder(a[1..], b, c[1..], d);
      assert (a + b)[1..] == a[1..] + b && (c + d)[1..] == c[1..] + d;
      assert a == [a[0]] + a[1..] && c == [c[0]] + c[1..];
    }
  }

  lemma {:induction false} NotBelowItself(a: Bytes)
    ensures !LexLess(a, a)
  {
    if a != [] {
      NotBelowItself(a[1..]);
    }
  }

  /** Byte strings are totally ordered. */
  lemma {:induction false} OneIsLess(a: Bytes, b: Bytes)
    ensures a == b || LexLess(a, b) || LexLess(b, a)
    ensures !(LexLess(a, b) && LexLess(b, a))
  {
    if a != [] && b != [] && a[0] == b[0] {
      OneIsLess(a[1..], b[1..]);
      assert a == [a[0]] + a[1..] && b == [b[0]] + b[1..];
    }
  }

  lemma {:induction false} OrderIsTransitive(a: Bytes, b: Bytes, c: Bytes)
    requires LexLess(a, b) && LexLess(b, c)
    ensures LexLess(a, c)
  {
    if a != [] && a[0] == b[0] == c[0] {
      OrderIsTransitive(a[1..], b[1..], c[1..]);
    }
  }

  /** Big-endian bytes are ordered as the numbers. */
  lemma {:induction false} NumberOrder(width: nat, x: nat, y: nat)
    requires x < Pow256(width) && y < Pow256(width)
    ensures LexLess(Be(width, x), Be(width, y)) <==> x < y
    ensures Be(width, x) == Be(width, y) <==> x == y
  {
    if width > 0 {
      NumberOrder(width - 1, x / 256, y / 256);
      JoinOrder(Be(width - 1, x / 256), [x % 256], Be(width - 1, y / 256), [y % 256]);
      LastDigit(width, x, y);
      SplitDigits(x, y);
    }
  }

  lemma LastDigit(width: nat, x: nat, y: nat)
    requires width > 0
    ensures Be(width, x) == Be(width, y) <==> Be(width - 1, x / 256) == Be(width - 1, y / 256) && x % 256 == y % 256
    ensures LexLess([x % 256], [y % 256]) <==> x % 256 < y % 256
  {
    var p, q := Be(width - 1, x / 256), Be(width - 1, y / 256);
    assert (p + [x % 256])[..width - 1] == p && (q + [y % 256])[..width - 1] == q;
    assert (p + [x % 256])[width - 1] == x % 256 && (q + [y % 256])[width - 1] == y % 256;
  }

  lemma SplitDigits(x: nat, y: nat)
    ensures x < y <==> x / 256 < y / 256 || (x / 256 == y / 256 && x % 256 < y % 256)
    ensures x == y <==> x / 256 == y / 256 && x % 256 == y % 256
  {
  }

  // ---------------------------------------------------------------- keys of several fields

  /** The fields one after the other, each in its width. */
  function Pack(widths: seq<nat>, values: seq<nat>): Bytes
    requires |widths| == |values|
  {
    if widths == [] then [] else Be(widths[0], values[0]) + Pack(widths[1..], values[1..])
  }

  function Unpack(widths: seq<nat>, b: Bytes): (values: seq<nat>)
    ensures |values| == |widths|
  {
    if widths == [] then []
    else
      var n := if widths[0] <= |b| then widths[0] else |b|;
      [FromBe(b[..n])] + Unpack(widths[1..], b[n..])
  }

  ghost predicate FitIn(widths: seq<nat>, values: seq<nat>) {
    |widths| == |values| && forall i :: 0 <= i < |widths| ==> values[i] < Pow256(widths[i])
  }

  /** The first field in which the two differ decides. */
  predicate Before(u: seq<nat>, v: seq<nat>)
    requires |u| == |v|
  {
    u != [] && (u[0] < v[0] || (u[0] == v[0] && Before(u[1..], v[1..])))
  }

  lemma {:induction false} PackOrder(widths: seq<nat>, u: seq<nat>, v: seq<nat>)
    requires FitIn(widths, u) && FitIn(widths, v)
    ensures LexLess(Pack(widths, u), Pack(widths, v)) <==> Before(u, v)
    ensures Pack(widths, u) == Pack(widths, v) <==> u == v
  {
    if widths != [] {
      NumberOrder(widths[0], u[0], v[0]);
      PackOrder(widths[1..], u[1..], v[1..]);
      var (a, b, c, d) := (Be(widths[0], u[0]), Pack(widths[1..], u[1..]), Be(widths[0], v[0]), Pack(widths[1..], v[1..]));
      JoinOrder(a, b, c, d);
      JoinEqual(a, b, c, d);
      assert u == [u[0]] + u[1..] && v == [v[0]] + v[1..];
    }
  }

  lemma JoinEqual(a: Bytes, b: Bytes, c: Bytes, d: Bytes)
    requires |a| == |c|
    ensures a + b == c + d <==> a == c && b == d
  {
    assert (a + b)[..|a|] == a && (c + d)[..|c|] == c && (a + b)[|a|..] == b && (c + d)[|c|..] == d;
  }

  /** Reading a key gives the fields it was made of. */
  lemma {:induction false} FieldsComeBack(widths: seq<nat>, values: seq<nat>)
    requires FitIn(widths, values)
    ensures Unpack(widths, Pack(widths, values)) == values
  {
    if widths != [] {
      NumberComesBack(widths[0], values[0]);
      FieldsComeBack(widths[1..], values[1..]);
      var head, rest := Be(widths[0], values[0]), Pack(widths[1..], values[1..]);
      assert (head + rest)[..widths[0]] == head && (head + rest)[widths[0]..] == rest;
    }
  }

  lemma {:induction false} PackJoins(w: seq<nat>, w': seq<nat>, u: seq<nat>, u': seq<nat>)
    requires |w| == |u| && |w'| == |u'|
    ensures Pack(w + w', u + u') == Pack(w, u) + Pack(w', u')
  {
    if w == [] {
      assert w + w' == w' && u + u' == u';
    } else {
      PackJoins(w[1..], w', u[1..], u');
      assert (w + w')[1..] == w[1..] + w' && (u + u')[1..] == u[1..] + u';
      JoinsAssociate(Be(w[0], u[0]), Pack(w[1..], u[1..]), Pack(w', u'));
    }
  }

  lemma JoinsAssociate(a: Bytes, b: Bytes, c: Bytes)
    ensures a + (b + c) == a + b + c
  {
  }

  /** A key starts with packed fields exactly when its own first fields are those. */
  lemma StartsWith(w: seq<nat>, w': seq<nat>, u: seq<nat>, v: seq<nat>, v': seq<nat>)
    requires FitIn(w, u) && FitIn(w, v) && |w'| == |v'|
    ensures Pack(w, u) <= Pack(w + w', v + v') <==> u == v
  {
    PackJoins(w, w', v, v');
    PackOrder(w, u, v);
    PackLength(w, u, v);
    var p, q, rest := Pack(w, u), Pack(w, v), Pack(w', v');
    assert p <= q + rest <==> p == q by {
      if p <= q + rest {
        assert (q + rest)[..|p|] == p && (q + rest)[..|q|] == q;
      }
    }
  }

  lemma {:induction false} PackLength(w: seq<nat>, u: seq<nat>, v: seq<nat>)
    requires |w| == |u| == |v|
    ensures |Pack(w, u)| == |Pack(w, v)|
  {
    if w != [] {
      PackLength(w[1..], u[1..], v[1..]);
    }
  }
}
