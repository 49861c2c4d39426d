/** The greatest element of a finite set, for any total order. */
module Orders {

  ghost predicate TotalOrder<T(!new)>(le: (T, T) -> bool) {
    && (forall a, b :: le(a, b) || le(b, a))
    && (forall a, b, c :: le(a, b) && le(b, c) ==> le(a, c))
  }

  lemma {:induction false} GreatestIn<T(!new)>(s: set<T>, le: (T, T) -> bool) returns (m: T)
    requires s != {} && TotalOrder(le)
    ensures m in s && forall x :: x in s ==> le(x, m)
  {
    var y :| y in s;
    m := y;
    if s != {y} {
      var n := GreatestIn(s - {y}, le);
      m := if le(n, y) then y else n;
      assert forall x :: x in s ==> x == y || x in s - {y};
    }
  }

  lemma HasGreatest<T(!new)>(s: set<T>, le: (T, T) -> bool)
    requires s != {} && TotalOrder(le)
    ensures exists m :: m in s && forall x :: x in s ==> le(x, m)
  {
    var m := GreatestIn(s, le);
  }
}
