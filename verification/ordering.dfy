/** Upwind-to-downwind ordering of a layout for one wind direction. Every
    turbine is keyed by the pair (distance to the front line, id), the keys
    are sorted lexicographically, and the layout is rebuilt by indexing it
    with the sorted ids. The distance itself is a parameter `dist(x, y,
    direction)`. */
module Ordering {

  /** One layout row: the id and the planar position of a turbine. */
  datatype Point = Point(id: int, x: real, y: real)

  /** The sort key of a turbine: its distance and its id. */
  datatype Key = Key(dist: real, id: int)

  /** Indexing the layout with an id outside [-n, n) fails. */
  datatype Result<T> = Ok(value: T) | IndexError(id: int)

  /** Lexicographic order on keys: distance first, then id. */
  predicate KeyLe(a: Key, b: Key)
  {
    a.dist < b.dist || (a.dist == b.dist && a.id <= b.id)
  }

  predicate SortedKeys(s: seq<Key>)
  {
    forall i, j | 0 <= i < j < |s| :: KeyLe(s[i], s[j])
  }

  function Insert(k: Key, s: seq<Key>): (r: seq<Key>)
    requires SortedKeys(s)
    ensures SortedKeys(r)
    ensures multiset(r) == multiset(s) + multiset{k}
  {
    if |s| == 0 then [k]
    else if KeyLe(k, s[0]) then [k] + s
    else
      var rest := Insert(k, s[1..]);
      KeepHead(k, s, rest);
      [s[0]] + rest
  }

  /** Putting back the head of a sorted sequence in front of the tail with
      a larger key inserted keeps the order and the contents. */
  lemma KeepHead(k: Key, s: seq<Key>, rest: seq<Key>)
    requires SortedKeys(s) && 0 < |s| && !KeyLe(k, s[0])
    requires SortedKeys(rest) && multiset(rest) == multiset(s[1..]) + multiset{k}
    ensures SortedKeys([s[0]] + rest)
    ensures multiset([s[0]] + rest) == multiset(s) + multiset{k}
  {
    assert s == [s[0]] + s[1..];
    forall j | 0 <= j < |rest| ensures KeyLe(s[0], rest[j]) {
      assert rest[j] in multiset(rest);
      if rest[j] != k {
        assert rest[j] in multiset(s[1..]);
        var i :| 0 <= i < |s[1..]| && s[1..][i] == rest[j];
        assert s[i + 1] == rest[j];
      }
    }
    var r := [s[0]] + rest;
    forall i, j | 0 <= i < j < |r| ensures KeyLe(r[i], r[j]) {
      if 0 < i {
        assert r[i] == rest[i - 1] && r[j] == rest[j - 1];
      }
    }
  }

  /** Sorts keys into lexicographic order. */
  function SortKeys(s: seq<Key>): (r: seq<Key>)
    ensures SortedKeys(r)
    ensures multiset(r) == multiset(s)
  {
    if |s| == 0 then []
    else
      assert s == [s[0]] + s[1..];
      Insert(s[0], SortKeys(s[1..]))
  }

  /** The first key of a sorted sequence is below every key in it. */
  lemma HeadIsLeast(a: seq<Key>, x: Key)
    requires SortedKeys(a) && x in multiset(a)
    ensures KeyLe(a[0], x)
  {
    var j :| 0 <= j < |a| && a[j] == x;
  }

  /** A sorted sequence is its head followed by a sorted tail holding the
      rest of its multiset. */
  lemma SplitHead(a: seq<Key>)
    requires SortedKeys(a) && |a| > 0
    ensures SortedKeys(a[1..])
    ensures multiset(a[1..]) == multiset(a) - multiset{a[0]}
  {
    assert a == [a[0]] + a[1..];
  }

  /** The lexicographic order is total and antisymmetric, so a multiset of
      keys has exactly one sorted arrangement: any sort routine (the
      language's built-in list sort included) yields this same sequence. */
  lemma {:induction false} SortedUnique(a: seq<Key>, b: seq<Key>)
    requires SortedKeys(a) && SortedKeys(b)
    requires multiset(a) == multiset(b)
    ensures a == b
  {
    if |a| == 0 {
      assert |b| == |multiset(b)| == 0;
    } else {
      assert |b| == |multiset(b)| == |a|;
      HeadIsLeast(a, b[0]);
      HeadIsLeast(b, a[0]);
      assert a[0] == b[0];
      SplitHead(a);
      SplitHead(b);
      SortedUnique(a[1..], b[1..]);
      SameHeadSameTail(a, b);
    }
  }

  /** Two non-empty sequences with equal heads and equal tails are equal. */
  lemma SameHeadSameTail<T>(a: seq<T>, b: seq<T>)
    requires 0 < |a| && 0 < |b| && a[0] == b[0] && a[1..] == b[1..]
    ensures a == b
  {
    assert a == [a[0]] + a[1..] && b == [b[0]] + b[1..];
  }

  /** The key of every turbine, in layout order. */
  function Keys(layout: seq<Point>, direction: real, dist: (real, real, real) -> real): (ks: seq<Key>)
    ensures |ks| == |layout|
  {
    seq(|layout|, i requires 0 <= i < |layout| =>
      Key(dist(layout[i].x, layout[i].y, direction), layout[i].id))
  }

  /** Two rearrangements of one multiset have the same length and the same
      members. */
  lemma SameMembers(a: seq<Key>, b: seq<Key>)
    requires multiset(a) == multiset(b)
    ensures |a| == |b|
    ensures forall k | 0 <= k < |a| :: a[k] in b
    ensures forall i | 0 <= i < |b| :: b[i] in a
  {
    assert |a| == |multiset(a)| == |multiset(b)| == |b|;
    forall k | 0 <= k < |a| ensures a[k] in b {
      assert a[k] in multiset(b);
    }
    forall i | 0 <= i < |b| ensures b[i] in a {
      assert b[i] in multiset(a);
    }
  }

  /** Every id of a rearrangement of the keys can index the layout exactly
      when every turbine's own id can. */
  lemma RankedIdsInRange(layout: seq<Point>, ks: seq<Key>, ranked: seq<Key>)
    requires |ks| == |layout| && forall i | 0 <= i < |ks| :: ks[i].id == layout[i].id
    requires multiset(ranked) == multiset(ks)
    ensures (forall k | 0 <= k < |ranked| :: InRange(ranked[k].id, |layout|))
        <==> (forall i | 0 <= i < |layout| :: InRange(layout[i].id, |layout|))
  {
    SameMembers(ranked, ks);
    if forall i | 0 <= i < |layout| :: InRange(layout[i].id, |layout|) {
      forall k | 0 <= k < |ranked| ensures InRange(ranked[k].id, |layout|) {
        var i :| 0 <= i < |ks| && ks[i] == ranked[k];
      }
    }
    if forall k | 0 <= k < |ranked| :: InRange(ranked[k].id, |layout|) {
      forall i | 0 <= i < |layout| ensures InRange(layout[i].id, |layout|) {
        var k :| 0 <= k < |ranked| && ranked[k] == ks[i];
      }
    }
  }

  /** Ids the layout can be indexed by; negative ids count from the end. */
  predicate InRange(id: int, n: nat)
  {
    -(n as int) <= id < n
  }

  function Wrap(id: int, n: nat): (i: nat)
    requires InRange(id, n)
    ensures i < n
  {
    if id >= 0 then id else n + id
  }

  /** The layout row for an id, with list indexing's negative-index rule. */
  function Lookup(layout: seq<Point>, id: int): (r: Result<Point>)
    ensures 0 <= id < |layout| ==> r == Ok(layout[id])
    ensures -|layout| <= id < 0 ==> r == Ok(layout[|layout| + id])
    ensures !InRange(id, |layout|) ==> r == IndexError(id)
  {
    if InRange(id, |layout|) then Ok(layout[Wrap(id, |layout|)]) else IndexError(id)
  }

  /** Looks up the row of every key in turn, failing at the first id out of
      range. */
  function Gather(layout: seq<Point>, ks: seq<Key>): (r: Result<seq<Point>>)
    ensures r.Ok? <==> forall k | 0 <= k < |ks| :: InRange(ks[k].id, |layout|)
    ensures r.Ok? ==> |r.value| == |ks|
    ensures r.Ok? ==> forall k | 0 <= k < |ks| :: r.value[k] == layout[Wrap(ks[k].id, |layout|)]
    ensures r.IndexError? ==> !InRange(r.id, |layout|) && exists k | 0 <= k < |ks| :: ks[k].id == r.id
  {
    if |ks| == 0 then Ok([])
    else
      match Lookup(layout, ks[0].id)
      case IndexError(id) => IndexError(id)
      case Ok(p) =>
        match Gather(layout, ks[1..])
        case IndexError(id) => IndexError(id)
        case Ok(rest) => Ok([p] + rest)
  }

  /** A failed gather reports the first out-of-range id in key order:
      every key before it could be looked up. */
  lemma {:induction false} GatherFailsAtFirst(layout: seq<Point>, ks: seq<Key>)
    ensures Gather(layout, ks).IndexError? ==>
      exists k | 0 <= k < |ks| ::
        ks[k].id == Gather(layout, ks).id && forall j | 0 <= j < k :: InRange(ks[j].id, |layout|)
  {
    if 0 < |ks| && Lookup(layout, ks[0].id).Ok? && Gather(layout, ks).IndexError? {
      GatherFailsAtFirst(layout, ks[1..]);
      var k :| 0 <= k < |ks[1..]| && ks[1..][k].id == Gather(layout, ks[1..]).id
        && forall j | 0 <= j < k :: InRange(ks[1..][j].id, |layout|);
      assert ks[k + 1].id == Gather(layout, ks).id;
      forall j | 0 <= j < k + 1 ensures InRange(ks[j].id, |layout|) {
        if 0 < j {
          assert ks[j] == ks[1..][j - 1];
        }
      }
    }
  }

  /** The layout sorted from most upwind to most downwind. */
  function Order(layout: seq<Point>, direction: real, dist: (real, real, real) -> real): (r: Result<seq<Point>>)
    ensures r.Ok? <==> forall i | 0 <= i < |layout| :: InRange(layout[i].id, |layout|)
    ensures r.Ok? ==> |r.value| == |layout|
    ensures r.Ok? ==> forall k | 0 <= k < |layout| ::
      exists i | 0 <= i < |layout| :: InRange(layout[i].id, |layout|) && r.value[k] == layout[Wrap(layout[i].id, |layout|)]
  {
    var ks := Keys(layout, direction, dist);
    var ranked := SortKeys(ks);
    SameMembers(ranked, ks);
    RankedIdsInRange(layout, ks, ranked);
    Gather(layout, ranked)
  }

  /** Element `k` of the ordering is the layout row at the id of the `k`-th
      key in `(distance, id)` order. */
  lemma OrderFollowsKeyOrder(layout: seq<Point>, direction: real, dist: (real, real, real) -> real)
    ensures Order(layout, direction, dist).Ok? ==>
      GatheredInKeyOrder(layout, direction, dist, Order(layout, direction, dist).value)
  {
    var ranked := SortKeys(Keys(layout, direction, dist));
    SameMembers(ranked, Keys(layout, direction, dist));
    assert Order(layout, direction, dist) == Gather(layout, ranked);
  }

  /** `out` is the layout fetched, row by row, at the ids of some
      lexicographically sorted arrangement of the turbines' keys. */
  ghost predicate GatheredInKeyOrder(layout: seq<Point>, direction: real, dist: (real, real, real) -> real,
                                     out: seq<Point>)
  {
    exists ranked: seq<Key> ::
      && SortedKeys(ranked)
      && multiset(ranked) == multiset(Keys(layout, direction, dist))
      && |ranked| == |layout| == |out|
      && forall k | 0 <= k < |layout| ::
           InRange(ranked[k].id, |layout|) && out[k] == layout[Wrap(ranked[k].id, |layout|)]
  }

  predicate Distinct<T(==)>(s: seq<T>)
  {
    forall i, j | 0 <= i < j < |s| :: s[i] != s[j]
  }

  lemma {:induction false} DistinctCount<T>(s: seq<T>, x: T)
    requires Distinct(s)
    ensures multiset(s)[x] <= 1
  {
    if |s| > 0 {
      assert s == [s[0]] + s[1..];
      DistinctCount(s[1..], x);
      if s[0] == x {
        assert x !in s[1..];
      }
    }
  }

  lemma RepeatCount<T>(s: seq<T>, i: nat, j: nat)
    requires i < j < |s| && s[i] == s[j]
    ensures multiset(s)[s[i]] >= 2
  {
    assert s == s[..j] + [s[j]] + s[j + 1..];
    assert s[..j][i] == s[i];
  }

  /** Rearranging a sequence without repeats gives one without repeats. */
  lemma DistinctPermutation<T>(a: seq<T>, b: seq<T>)
    requires multiset(a) == multiset(b) && Distinct(a)
    ensures Distinct(b)
  {
    forall i, j | 0 <= i < j < |b| ensures b[i] != b[j] {
      if b[i] == b[j] {
        RepeatCount(b, i, j);
        DistinctCount(a, b[i]);
      }
    }
  }

  function MapSeq<A, B>(f: A -> B, s: seq<A>): (r: seq<B>)
    ensures |r| == |s|
  {
    seq(|s|, i requires 0 <= i < |s| => f(s[i]))
  }

  lemma MapSeqAppend<A, B>(f: A -> B, s: seq<A>, t: seq<A>)
    ensures multiset(MapSeq(f, s + t)) == multiset(MapSeq(f, s)) + multiset(MapSeq(f, t))
  {
    assert MapSeq(f, s + t) == MapSeq(f, s) + MapSeq(f, t);
  }

  /** Removing the element at `j` removes one copy of it from the multiset. */
  lemma RemoveAt<T>(b: seq<T>, j: nat)
    requires j < |b|
    ensures b == b[..j] + [b[j]] + b[j + 1..]
    ensures multiset(b[..j] + b[j + 1..]) == multiset(b) - multiset{b[j]}
  {
    assert b == b[..j] + [b[j]] + b[j + 1..];
  }

  lemma ReassembleMapped<A, B>(f: A -> B, x: A, tail: seq<A>, front: seq<A>, back: seq<A>)
    requires multiset(MapSeq(f, tail)) == multiset(MapSeq(f, front + back))
    ensures multiset(MapSeq(f, [x] + tail)) == multiset(MapSeq(f, front + [x] + back))
  {
    MapSeqAppend(f, front, back);
    MapSeqAppend(f, [x], tail);
    MapSeqAppend(f, front, [x]);
    MapSeqAppend(f, front + [x], back);
  }

  /** Taking one copy of the same element out of two rearrangements of a
      multiset leaves two rearrangements of one multiset. */
  lemma SameRest<T>(a: seq<T>, b: seq<T>, j: nat)
    requires multiset(a) == multiset(b) && 0 < |a| && j < |b| && b[j] == a[0]
    ensures multiset(a[1..]) == multiset(b[..j] + b[j + 1..])
  {
    assert a == [a[0]] + a[1..];
    RemoveAt(b, j);
  }

  /** Applying one function to every element of two rearrangements of a
      multiset gives two rearrangements of one multiset. */
  lemma {:induction false} MapPermutation<A, B>(f: A -> B, a: seq<A>, b: seq<A>)
    requires multiset(a) == multiset(b)
    ensures multiset(MapSeq(f, a)) == multiset(MapSeq(f, b))
  {
    if |a| == 0 {
      assert |b| == |multiset(b)| == 0;
    } else {
      assert a[0] in multiset(b);
      var j :| 0 <= j < |b| && b[j] == a[0];
      SameRest(a, b, j);
      MapPermutation(f, a[1..], b[..j] + b[j + 1..]);
      ReassembleMapped(f, a[0], a[1..], b[..j], b[j + 1..]);
      assert a == [a[0]] + a[1..];
      RemoveAt(b, j);
    }
  }

  /** Every turbine's id is its position in the layout. */
  predicate WellIndexed(layout: seq<Point>)
  {
    forall i | 0 <= i < |layout| :: layout[i].id == i
  }

  /** `p` comes before `q` in upwind-to-downwind order: strictly closer to
      the front line, or equally close with the smaller id. */
  predicate Precedes(p: Point, q: Point, direction: real, dist: (real, real, real) -> real)
  {
    var dp := dist(p.x, p.y, direction);
    var dq := dist(q.x, q.y, direction);
    dp < dq || (dp == dq && p.id < q.id)
  }

  /** When ids are positions, every rearranged key is the key of the
      turbine its id points at. */
  lemma RankedKeysArePositions(layout: seq<Point>, direction: real, dist: (real, real, real) -> real,
                               ranked: seq<Key>)
    requires WellIndexed(layout)
    requires multiset(ranked) == multiset(Keys(layout, direction, dist))
    ensures |ranked| == |layout|
    ensures forall k | 0 <= k < |ranked| ::
      0 <= ranked[k].id < |layout| && ranked[k] == Keys(layout, direction, dist)[ranked[k].id]
  {
    var ks := Keys(layout, direction, dist);
    SameMembers(ranked, ks);
    forall k | 0 <= k < |ranked|
      ensures 0 <= ranked[k].id < |layout| && ranked[k] == ks[ranked[k].id]
    {
      var i :| 0 <= i < |ks| && ks[i] == ranked[k];
    }
  }

  /** When ids are positions, the keys have no repeats. */
  lemma WellIndexedKeysDistinct(layout: seq<Point>, direction: real, dist: (real, real, real) -> real)
    requires WellIndexed(layout)
    ensures Distinct(Keys(layout, direction, dist))
  {
    var ks := Keys(layout, direction, dist);
    forall i, j | 0 <= i < j < |ks| ensures ks[i] != ks[j] {
      assert ks[i].id == i && ks[j].id == j;
    }
  }

  /** For a layout whose ids are its positions, the ordering succeeds and
      is a rearrangement of the layout: no turbine is lost or repeated. */
  lemma OrderWellIndexedPermutes(layout: seq<Point>, direction: real, dist: (real, real, real) -> real)
    requires WellIndexed(layout)
    ensures Order(layout, direction, dist).Ok?
    ensures multiset(Order(layout, direction, dist).value) == multiset(layout)
  {
    var n := |layout|;
    var ks := Keys(layout, direction, dist);
    var ranked := SortKeys(ks);
    RankedKeysArePositions(layout, direction, dist, ranked);
    var out := Gather(layout, ranked).value;
    assert Order(layout, direction, dist) == Gather(layout, ranked);
    var fetch := (key: Key) => if 0 <= key.id < n then layout[key.id] else Point(key.id, 0.0, 0.0);
    assert MapSeq(fetch, ks) == layout;
    assert MapSeq(fetch, ranked) == out;
    MapPermutation(fetch, ranked, ks);
  }

  /** For a layout whose ids are its positions, the ordering lists the
      turbines by non-decreasing distance, with ties in strictly ascending
      id order. */
  lemma OrderWellIndexedSorted(layout: seq<Point>, direction: real, dist: (real, real, real) -> real)
    requires WellIndexed(layout)
    ensures Order(layout, direction, dist).Ok?
    ensures forall k, l | 0 <= k < l < |layout| ::
      Precedes(Order(layout, direction, dist).value[k], Order(layout, direction, dist).value[l], direction, dist)
  {
    var n := |layout|;
    var ks := Keys(layout, direction, dist);
    var ranked := SortKeys(ks);
    RankedKeysArePositions(layout, direction, dist, ranked);
    var out := Gather(layout, ranked).value;
    assert Order(layout, direction, dist) == Gather(layout, ranked);
    WellIndexedKeysDistinct(layout, direction, dist);
    DistinctPermutation(ks, ranked);
    forall k, l | 0 <= k < l < n ensures Precedes(out[k], out[l], direction, dist) {
      assert KeyLe(ranked[k], ranked[l]) && ranked[k] != ranked[l];
      assert out[k] == layout[ranked[k].id] && out[l] == layout[ranked[l].id];
    }
  }

  /** The layout of the module's own demonstration run. */
  const DemoLayout: seq<Point> :=
    [Point(0, 5.0, 0.0), Point(1, 3.0, 0.0), Point(2, 7.0, 1.0), Point(3, 2.5, 0.0)]

  /** The demo keys in upwind-to-downwind order under the reduction below. */
  const DemoRanked: seq<Key> :=
    [Key(2.5 + 1.0e10, 3), Key(3.0 + 1.0e10, 1), Key(5.0 + 1.0e10, 0), Key(7.0 + 1.0e10, 2)]

  /** The demo keys in layout order under the reduction below. */
  const DemoKeys: seq<Key> :=
    [Key(5.0 + 1.0e10, 0), Key(3.0 + 1.0e10, 1), Key(7.0 + 1.0e10, 2), Key(2.5 + 1.0e10, 3)]

  /** At direction 0 the distance of each demo turbine is its `x + 1e10`,
      as the exact-real formula `|x + 1e10|` gives for these non-negative `x`. */
  predicate DemoDistances(dist: (real, real, real) -> real)
  {
    && dist(5.0, 0.0, 0.0) == 5.0 + 1.0e10
    && dist(3.0, 0.0, 0.0) == 3.0 + 1.0e10
    && dist(7.0, 1.0, 0.0) == 7.0 + 1.0e10
    && dist(2.5, 0.0, 0.0) == 2.5 + 1.0e10
  }

  lemma DemoKeysReduce(dist: (real, real, real) -> real)
    requires DemoDistances(dist)
    ensures Keys(DemoLayout, 0.0, dist) == DemoKeys
  {
    var ks := Keys(DemoLayout, 0.0, dist);
    assert ks[0] == DemoKeys[0] && ks[1] == DemoKeys[1];
    assert ks[2] == DemoKeys[2] && ks[3] == DemoKeys[3];
  }

  lemma DemoRankedSorted()
    ensures SortedKeys(DemoRanked)
    ensures multiset(DemoRanked) == multiset(DemoKeys)
  {
    assert DemoRanked == [DemoKeys[3], DemoKeys[1], DemoKeys[0], DemoKeys[2]];
    assert multiset(DemoKeys) == multiset{DemoKeys[0], DemoKeys[1], DemoKeys[2], DemoKeys[3]};
  }

  lemma DemoRanking(dist: (real, real, real) -> real)
    requires DemoDistances(dist)
    ensures SortKeys(Keys(DemoLayout, 0.0, dist)) == DemoRanked
  {
    DemoKeysReduce(dist);
    DemoRankedSorted();
    SortedUnique(SortKeys(DemoKeys), DemoRanked);
  }

  lemma DemoGather()
    ensures Gather(DemoLayout, DemoRanked) == Ok([DemoLayout[3], DemoLayout[1], DemoLayout[0], DemoLayout[2]])
  {
    var r := Gather(DemoLayout, DemoRanked);
    assert forall k | 0 <= k < |DemoRanked| :: InRange(DemoRanked[k].id, |DemoLayout|);
    assert r.value == [DemoLayout[3], DemoLayout[1], DemoLayout[0], DemoLayout[2]];
  }

  /** For direction 0 the front line is turned by 180 degrees, where the
      distance formula reduces to `|x + 1e10|`, which is `x + 1e10` at each
      demo turbine; under that reduction the demo
      layout orders to ids 3, 1, 0, 2. */
  lemma DemoOrder(dist: (real, real, real) -> real)
    requires DemoDistances(dist)
    ensures Order(DemoLayout, 0.0, dist)
         == Ok([DemoLayout[3], DemoLayout[1], DemoLayout[0], DemoLayout[2]])
  {
    DemoRanking(dist);
    DemoGather();
  }
}
