/** Paging through a table (nexus/src/utils.rs, `ResultSplitLastCollector::from_iter`;
    nexus/src/nft_view.rs, `process_iter` and the lists built on it; nexus/src/accessor.rs,
    `to_paginated` and `resolve_u64_iter_args`). */
module Pages {
  import opened Model
  import opened Rollback

  /** A row of a scan, or the error of reading it. */
  datatype Result<T> = Ok(value: T) | Err
  datatype Direction = Forward | Backward
  datatype Row<V> = Row(key: u64, value: V)
  datatype Pagination<V> = Pagination(data: seq<Row<V>>, next: Option<u64>)
  datatype IterArgs = IterArgs(offset: Option<u64>, limit: Option<nat>, direction: Option<Direction>)

  const MAX_ITERATOR_LIMIT: nat := 50

  // ---------------------------------------------------------------- one page

  ghost predicate AllOk<T>(items: seq<Result<T>>) {
    forall i :: 0 <= i < |items| ==> items[i].Ok?
  }

  function Values<T>(items: seq<Result<T>>): (values: seq<T>)
    requires AllOk(items)
    ensures |values| == |items|
  {
    if items == [] then [] else Values(items[..|items| - 1]) + [items[|items| - 1].value]
  }

  /** Everything but the last value, and the last value. */
  function SplitLast<T>(values: seq<T>): Option<(seq<T>, T)> {
    if values == [] then None else Some((values[..|values| - 1], values[|values| - 1]))
  }

  /** The first error ends the scan; otherwise the last value is kept apart. */
  method CollectSplitLast<T>(items: seq<Result<T>>) returns (r: Result<Option<(seq<T>, T)>>)
    ensures r.Ok? <==> AllOk(items)
    ensures r.Ok? ==> r.value == SplitLast(Values(items))
  {
    var init: seq<T>, last: Option<T> := [], None;
    for i := 0 to |items|
      invariant AllOk(items[..i])
      invariant SplitLast(Values(items[..i])) == (if last.Some? then Some((init, last.value)) else None)
      invariant last.None? ==> init == []
    {
      assert items[..i + 1][..i] == items[..i];
      if items[i].Err? {
        return Err;
      }
      if last.Some? {
        assert Values(items[..i]) == init + [last.value];
        init := init + [last.value];
      } else {
        assert Values(items[..i]) == [];
      }
      assert Values(items[..i + 1]) == init + [items[i].value];
      last := Some(items[i].value);
    }
    assert items[..|items|] == items;
    r := Ok(if last.Some? then Some((init, last.value)) else None);
  }

  /** A full page says where the next one starts; a short one is the last. */
  function Paginated<V>(split: Option<(seq<Row<V>>, Row<V>)>, limit: nat): Pagination<V> {
    match split
    case None => Pagination([], None)
    case Some((container, last)) =>
      if |container| < limit then Pagination(container + [last], None) else Pagination(container, Some(last.key))
  }

  method ToPaginated<V>(split: Option<(seq<Row<V>>, Row<V>)>, limit: nat) returns (p: Pagination<V>)
    ensures p == Paginated(split, limit)
  {
    if split.None? {
      return Pagination([], None);
    }
    var (container, last) := split.value;
    if |container| < limit {
      container := container + [last];
      return Pagination(container, None);
    }
    p := Pagination(container, Some(last.key));
  }

  function Start(d: Direction): u64 {
    match d
    case Forward => 0
    case Backward => U64_MAX
  }

  function ResolveIterArgs(args: IterArgs): (r: (u64, Direction, nat))
    ensures r.2 <= 50 && (args.limit.Some? ==> r.2 <= args.limit.value)
    ensures r.2 == 50 || args.limit == Some(r.2)
    ensures if args.direction.Some? then r.1 == args.direction.value else r.1.Forward?
    ensures args.offset.Some? ==> r.0 == args.offset.value
    ensures args.offset.None? ==> r.0 == if r.1.Forward? then 0 else U64_MAX
  {
    var direction := args.direction.GetOr(Forward);
    var limit := args.limit.GetOr(MAX_ITERATOR_LIMIT);
    (args.offset.GetOr(Start(direction)), direction, if limit < MAX_ITERATOR_LIMIT then limit else MAX_ITERATOR_LIMIT)
  }

  // ---------------------------------------------------------------- scans

  function Reverse<T>(s: seq<T>): (r: seq<T>)
    ensures |r| == |s| && forall i :: 0 <= i < |s| ==> r[i] == s[|s| - 1 - i]
  {
    if s == [] then [] else [s[|s| - 1]] + Reverse(s[..|s| - 1])
  }

  ghost predicate Rising<V>(rows: seq<Row<V>>) {
    forall i, j :: 0 <= i < j < |rows| ==> rows[i].key < rows[j].key
  }

  /** The rows in the direction of the scan. */
  function Directed<V>(rows: seq<Row<V>>, d: Direction): (directed: seq<Row<V>>)
    ensures |directed| == |rows|
  {
    match d
    case Forward => rows
    case Backward => Reverse(rows)
  }

  predicate Reached(d: Direction, offset: u64, key: u64) {
    match d
    case Forward => offset <= key
    case Backward => key <= offset
  }

  /** The scan from `offset` on: drops the rows the scan has not reached yet. */
  function From<V>(directed: seq<Row<V>>, d: Direction, offset: u64): (r: seq<Row<V>>)
    ensures |r| <= |directed| && r == directed[|directed| - |r|..]
  {
    if directed == [] || Reached(d, offset, directed[0].key) then directed else From(directed[1..], d, offset)
  }

  /** One page of a scan: at most `limit` rows, one more being read to know whether to go on. */
  function PageOf<V>(scan: seq<Row<V>>, limit: nat): Pagination<V> {
    Paginated(SplitLast(if |scan| <= limit + 1 then scan else scan[..limit + 1]), limit)
  }

  function Page<V>(rows: seq<Row<V>>, d: Direction, limit: nat, offset: u64): Pagination<V> {
    PageOf(From(Directed(rows, d), d, offset), limit)
  }

  /** A scan from an offset, of a row or of none, meets the rows from that key on upwards, or
      downwards, nearest first. */
  lemma FromHolds<V>(rows: seq<Row<V>>, d: Direction, offset: u64, i: nat)
    requires Rising(rows) && i < |rows|
    ensures rows[i] in From(Directed(rows, d), d, offset) <==> if d.Forward? then rows[i].key >= offset else rows[i].key <= offset
    ensures InTurn(From(Directed(rows, d), d, offset), d)
  {
    var all := Directed(rows, d);
    DirectedInTurn(rows, d);
    var at := if d.Forward? then i else |rows| - 1 - i;
    assert all[at] == rows[i];
    FromSuffix(all, d, offset, at);
  }

  /** Rising keys forwards and falling keys backwards. */
  ghost predicate InTurn<V>(scan: seq<Row<V>>, d: Direction) {
    forall i, j :: 0 <= i < j < |scan| ==> if d.Forward? then scan[i].key < scan[j].key else scan[i].key > scan[j].key
  }

  lemma DirectedInTurn<V>(rows: seq<Row<V>>, d: Direction)
    requires Rising(rows)
    ensures InTurn(Directed(rows, d), d)
  {
  }

  /** Where the scan starts: nothing before it is reached, and its first row is. */
  lemma {:induction false} FirstReached<V>(all: seq<Row<V>>, d: Direction, offset: u64)
    ensures var m := |all| - |From(all, d, offset)|;
            && (forall j :: 0 <= j < m ==> !Reached(d, offset, all[j].key))
            && (m < |all| ==> Reached(d, offset, all[m].key))
  {
    hide Reached;
    if all != [] && !Reached(d, offset, all[0].key) {
      FirstReached(all[1..], d, offset);
      var m := |all| - |From(all, d, offset)|;
      forall j | 0 <= j < m ensures !Reached(d, offset, all[j].key) {
        assert j > 0 ==> all[1..][j - 1] == all[j];
      }
      assert m < |all| ==> all[1..][m - 1] == all[m];
    }
  }

  lemma FromSuffix<V>(all: seq<Row<V>>, d: Direction, offset: u64, at: nat)
    requires InTurn(all, d) && at < |all|
    ensures all[at] in From(all, d, offset) <==> if d.Forward? then all[at].key >= offset else all[at].key <= offset
    ensures InTurn(From(all, d, offset), d)
  {
    hide From;
    var r := From(all, d, offset);
    var m := |all| - |r|;
    FirstReached(all, d, offset);
    assert forall j :: 0 <= j < |r| ==> r[j] == all[m + j];
    if at >= m {
      assert r[at - m] == all[at];
    }
  }

  // ---------------------------------------------------------------- the walk

  lemma FromARow<V>(rows: seq<Row<V>>, d: Direction, i: nat)
    requires Rising(rows) && i < |rows|
    ensures From(Directed(rows, d), d, Directed(rows, d)[i].key) == Directed(rows, d)[i..]
  {
    Skips(Directed(rows, d), d, Directed(rows, d)[i].key, i);
  }

  /** The first row the scan has reached decides where it starts. */
  lemma {:induction false} Skips<V>(directed: seq<Row<V>>, d: Direction, offset: u64, i: nat)
    requires i < |directed| && Reached(d, offset, directed[i].key)
    requires forall j :: 0 <= j < i ==> !Reached(d, offset, directed[j].key)
    ensures From(directed, d, offset) == directed[i..]
  {
    if i > 0 {
      Skips(directed[1..], d, offset, i - 1);
      assert directed[1..][i - 1..] == directed[i..];
    }
  }

  lemma FromTheStart<V>(rows: seq<Row<V>>, d: Direction)
    ensures From(Directed(rows, d), d, Start(d)) == Directed(rows, d)
  {
    if rows != [] {
      assert Reached(d, Start(d), Directed(rows, d)[0].key);
    }
  }

  /** What a page of the scan `all[i..]` holds and where the next one starts. */
  lemma PageOfScan<V>(all: seq<Row<V>>, i: nat, limit: nat)
    requires i <= |all| && limit >= 1
    ensures var p := PageOf(all[i..], limit);
            && (p.next.None? ==> p.data == all[i..])
            && (p.next.Some? ==> i + limit < |all| && p.data == all[i..i + limit] && p.next == Some(all[i + limit].key))
  {
    var scan := all[i..];
    if |scan| > limit {
      var taken := if |scan| <= limit + 1 then scan else scan[..limit + 1];
      assert |taken| == limit + 1 && taken[limit] == all[i + limit];
      assert taken[..limit] == all[i..i + limit];
    } else if scan != [] {
      assert scan[..|scan| - 1] + [scan[|scan| - 1]] == scan;
    }
  }

  /** A page `p` of `all[i..]`, and that its offset leads to the rest. */
  ghost predicate GoesOn<V>(p: Pagination<V>, all: seq<Row<V>>, d: Direction, limit: nat, i: nat)
    requires i <= |all|
  {
    if p.next.None? then p.data == all[i..]
    else i + limit < |all| && From(all, d, p.next.value) == all[i + limit..] && p.data + all[i + limit..] == all[i..]
  }

  lemma SlicesGoOn<V>(p: Pagination<V>, all: seq<Row<V>>, d: Direction, limit: nat, i: nat)
    requires i <= |all| && (p.next.None? ==> p.data == all[i..])
    requires p.next.Some? ==> i + limit < |all| && p.data == all[i..i + limit] && From(all, d, p.next.value) == all[i + limit..]
    ensures GoesOn(p, all, d, limit, i)
  {
    hide From;
    if p.next.Some? {
      assert all[i..i + limit] + all[i + limit..] == all[i..];
    }
  }

  lemma ScanGoesOn<V>(rows: seq<Row<V>>, d: Direction, limit: nat, i: nat)
    requires limit >= 1 && Rising(rows) && i <= |rows|
    ensures GoesOn(PageOf(Directed(rows, d)[i..], limit), Directed(rows, d), d, limit, i)
  {
    hide From, Directed, PageOf, Rising, GoesOn;
    var all := Directed(rows, d);
    PageOfScan(all, i, limit);
    if PageOf(all[i..], limit).next.Some? {
      FromARow(rows, d, i + limit);
    }
    SlicesGoOn(PageOf(all[i..], limit), all, d, limit, i);
  }

  /** A page of the rows from `i` on holds the next ones, and its offset leads to the rest. */
  lemma PageFrom<V>(rows: seq<Row<V>>, d: Direction, limit: nat, offset: u64, i: nat)
    requires limit >= 1 && Rising(rows) && i <= |rows| && From(Directed(rows, d), d, offset) == Directed(rows, d)[i..]
    ensures GoesOn(Page(rows, d, limit, offset), Directed(rows, d), d, limit, i)
  {
    hide From, Directed, PageOf, Rising, GoesOn;
    ScanGoesOn(rows, d, limit, i);
    assert Page(rows, d, limit, offset) == PageOf(Directed(rows, d)[i..], limit);
  }

  /** How many rows a scan from `offset` meets. */
  function Left<V>(rows: seq<Row<V>>, d: Direction, offset: u64): nat {
    |From(Directed(rows, d), d, offset)|
  }

  lemma NextIsFurther<V>(rows: seq<Row<V>>, d: Direction, limit: nat, offset: u64)
    requires limit >= 1 && Rising(rows)
    ensures var p := Page(rows, d, limit, offset); p.next.Some? ==> Left(rows, d, p.next.value) < Left(rows, d, offset)
  {
    hide From, Directed, Page, Rising;
    PageFrom(rows, d, limit, offset, |rows| - Left(rows, d, offset));
  }

  /** Following the next-page offsets until there is none. */
  function Walk<V>(rows: seq<Row<V>>, d: Direction, limit: nat, offset: u64): seq<Row<V>>
    requires limit >= 1 && Rising(rows)
    decreases Left(rows, d, offset)
  {
    hide Left, Page, Rising;
    NextIsFurther(rows, d, limit, offset);
    var p := Page(rows, d, limit, offset);
    if p.next.None? then p.data else p.data + Walk(rows, d, limit, p.next.value)
  }

  lemma {:induction false} WalkIsTheRest<V>(rows: seq<Row<V>>, d: Direction, limit: nat, offset: u64)
    requires limit >= 1 && Rising(rows)
    ensures Walk(rows, d, limit, offset) == From(Directed(rows, d), d, offset)
    decreases Left(rows, d, offset)
  {
    hide From, Directed, Page, Rising;
    var p := Page(rows, d, limit, offset);
    NextIsFurther(rows, d, limit, offset);
    PageFrom(rows, d, limit, offset, |rows| - Left(rows, d, offset));
    if p.next.Some? {
      WalkIsTheRest(rows, d, limit, p.next.value);
    }
  }

  // ---------------------------------------------------------------- the lists

  lemma ScannedKeys<V>(table: map<u64, V>)
    ensures var keys := Ascending(table.Keys);
            && |keys| == |table|
            && (forall i :: 0 <= i < |keys| ==> keys[i] in table)
            && (forall k :: k in table ==> exists i :: 0 <= i < |keys| && keys[i] == k)
            && (forall i, j :: 0 <= i < j < |keys| ==> keys[i] < keys[j])
  {
    hide Ascending;
    var keys := Ascending(table.Keys);
    assert |table.Keys| == |table|;
    assert forall i :: 0 <= i < |keys| ==> keys[i] in keys;
    forall k | k in table ensures exists i :: 0 <= i < |keys| && keys[i] == k {
      assert k in keys;
    }
  }

  function RowsAt<V>(table: map<u64, V>, keys: seq<u64>): (rows: seq<Row<V>>)
    requires forall i :: 0 <= i < |keys| ==> keys[i] in table
    ensures |rows| == |keys| && forall i :: 0 <= i < |keys| ==> rows[i] == Row(keys[i], table[keys[i]])
  {
    if keys == [] then []
    else
      var n := |keys| - 1;
      RowsAt(table, keys[..n]) + [Row(keys[n], table[keys[n]])]
  }

  /** A table read in key order. */
  function Rows<V>(table: map<u64, V>): seq<Row<V>> {
    ScannedKeys(table);
    RowsAt(table, Ascending(table.Keys))
  }

  /** Every row once, with rising keys. */
  lemma RowsAreTheTable<V>(table: map<u64, V>)
    ensures |Rows(table)| == |table| && Rising(Rows(table))
    ensures forall i :: 0 <= i < |Rows(table)| ==> Rows(table)[i].key in table && Rows(table)[i].value == table[Rows(table)[i].key]
    ensures forall k :: k in table ==> exists i :: 0 <= i < |Rows(table)| && Rows(table)[i] == Row(k, table[k])
  {
    hide Ascending, RowsAt;
    ScannedKeys(table);
    var keys := Ascending(table.Keys);
    forall k | k in table ensures exists i :: 0 <= i < |Rows(table)| && Rows(table)[i] == Row(k, table[k]) {
      var i :| 0 <= i < |keys| && keys[i] == k;
      assert Rows(table)[i] == Row(k, table[k]);
    }
  }

  /** The whole walk in one direction, from the default offset. */
  function WholeWalk<V>(table: map<u64, V>, d: Direction, limit: nat): seq<Row<V>>
    requires limit >= 1
  {
    RowsAreTheTable(table);
    Walk(Rows(table), d, limit, Start(d))
  }

  lemma WholeWalkIsDirected<V>(table: map<u64, V>, d: Direction, limit: nat)
    requires limit >= 1
    ensures WholeWalk(table, d, limit) == Directed(Rows(table), d)
  {
    hide From, Rows, Rising, Directed, Walk;
    FromTheStart(Rows(table), d);
    RowsAreTheTable(table);
    WalkIsTheRest(Rows(table), d, limit, Start(d));
  }

  /** On an unchanging table, and with a limit of at least one, the pages visit every row
      exactly once, in key order forwards and in reverse order backwards, and end. */
  lemma WalkVisitsEveryRowOnce<V>(table: map<u64, V>, d: Direction, limit: nat)
    requires limit >= 1
    ensures WholeWalk(table, d, limit) == Directed(Rows(table), d)
    ensures |WholeWalk(table, d, limit)| == |table|
    ensures forall k :: k in table ==> Row(k, table[k]) in WholeWalk(table, d, limit)
    ensures InTurn(WholeWalk(table, d, limit), d)
  {
    hide Rows, Rising, Directed, WholeWalk, InTurn;
    WholeWalkIsDirected(table, d, limit);
    RowsAreTheTable(table);
    DirectedInTurn(Rows(table), d);
    forall k | k in table ensures Row(k, table[k]) in Directed(Rows(table), d) {
      var j :| 0 <= j < |Rows(table)| && Rows(table)[j] == Row(k, table[k]);
      DirectedRow(Rows(table), d, j);
    }
  }

  lemma DirectedRow<V>(rows: seq<Row<V>>, d: Direction, j: nat)
    requires j < |rows|
    ensures rows[j] in Directed(rows, d)
  {
    assert Directed(rows, d)[if d.Forward? then j else |rows| - 1 - j] == rows[j];
  }

  /** A limit of zero, which the arguments allow, gives an empty page that points at
      itself as long as there is a row: the walk never ends. */
  lemma ZeroLimitNeverAdvances<V>(rows: seq<Row<V>>, d: Direction, offset: u64)
    requires Rising(rows)
    ensures var p := Page(rows, d, 0, offset);
            && p.data == []
            && (From(Directed(rows, d), d, offset) != [] <==> p.next.Some?)
            && (p.next.Some? ==> Page(rows, d, 0, p.next.value) == p)
  {
    hide Directed, From, Rising;
    var all := Directed(rows, d);
    var scan := From(all, d, offset);
    if scan != [] {
      var i := |all| - |scan|;
      assert scan[0] == all[i];
      FromARow(rows, d, i);
      assert scan == all[i..];
    }
  }
}
