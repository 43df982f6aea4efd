/**
 * The three directional sweeps `retrieve_xinc`, `retrieve_yinc` and
 * `retrieve_ydec` of QNode, and `sort_and_callback`. The three source
 * functions share one shape and differ only in the sort key, the leaf
 * filter and which pair of quadrants is visited first, so they are one
 * function over `Dir` here. The callback is a pure `Item -> bool` ("keep
 * going"); a sweep yields the items it handed to the callback, in order.
 */
module Sweeps {
  import opened Geometry
  import opened QNodes
  import opened Retrieval
  import opened Sorting

  datatype Dir = XInc | YInc | YDec

  /** The sort key of each sweep's comparator: `sort_lr` orders by x,
      `sort_td` by y, `sort_bt` by y descending. */
  function KeyOf(d: Dir): Item -> real
  {
    match d
    case XInc => (c: Item) => c.x
    case YInc => (c: Item) => c.y
    case YDec => (c: Item) => -c.y
  }

  /** The leaf filter of each sweep (without the dedup test). The x sweep
      leaves out the far x test (its query is unbounded in x); the y sweeps
      leave out the far y test, which for the decreasing sweep, whose query
      is bounded in y, drops the bound at the start line. */
  predicate LeafHit(d: Dir, q: Rect, c: Item)
  {
    && q.x <= c.x + c.w
    && q.y <= c.y + c.h
    && (match d
        case XInc => c.y <= q.y + Raw(q.h)
        case _ => c.x <= q.x + Raw(q.w) || q.w.Inf?)
  }

  /** What a sweep hands to the callback passes one of the two filters it
      uses: the range query's when it drains a straddled pair of quadrants,
      the leaf filter otherwise. */
  predicate Admits(d: Dir, q: Rect, c: Item)
  {
    Overlaps(q, c) || LeafHit(d, q, c)
  }

  /** The callback ran on every item of `out`; it said "go on" for all but
      possibly the last, and `go` records whether it said so for all. */
  ghost predicate Stops(out: seq<Item>, go: bool, f: Item -> bool)
  {
    && (forall i :: 0 <= i < |out| - 1 ==> f(out[i]))
    && (go <==> forall i :: 0 <= i < |out| ==> f(out[i]))
  }

  /** The callback trace of a loop and whether it ran to the end. */
  datatype Run = Run(out: seq<Item>, go: bool)

  /** The loop of `sort_and_callback` (after its sort): call back on each
      item in order and stop at the first `false`. */
  function Deliver(s: seq<Item>, f: Item -> bool): Run
  {
    if s == [] then Run([], true)
    else if !f(s[0]) then Run([s[0]], false)
    else
      var rest := Deliver(s[1..], f);
      Run([s[0]] + rest.out, rest.go)
  }

  /** The loop calls back on a prefix of its list, and on all of it when it
      reaches the end. */
  lemma {:induction false} DeliverTakes(s: seq<Item>, f: Item -> bool)
    ensures var r := Deliver(s, f);
      && |r.out| <= |s| && r.out == s[..|r.out|]
      && (r.go ==> r.out == s)
  {
    if s != [] && f(s[0]) {
      DeliverTakes(s[1..], f);
      var rest := Deliver(s[1..], f);
      assert [s[0]] + rest.out == s[..1 + |rest.out|];
    }
  }

  /** The loop stops at the first `false`, and reaches the end exactly when
      the callback never said `false`. */
  lemma {:induction false} DeliverStops(s: seq<Item>, f: Item -> bool)
    ensures var r := Deliver(s, f); Stops(r.out, r.go, f)
  {
    if s != [] && f(s[0]) {
      DeliverStops(s[1..], f);
      var rest := Deliver(s[1..], f);
      var out := [s[0]] + rest.out;
      assert out[1..] == rest.out;
      forall i | 1 <= i < |out| ensures out[i] == rest.out[i - 1] {
      }
    } else if s != [] {
      assert Deliver(s, f).out[0] == s[0];
    }
  }

  /** The loop calls back on a prefix of its list, stops at the first
      `false`, and reaches the end exactly when the callback never said
      `false`. */
  lemma DeliverSound(s: seq<Item>, f: Item -> bool)
    ensures var r := Deliver(s, f);
      && |r.out| <= |s| && r.out == s[..|r.out|]
      && Stops(r.out, r.go, f)
      && (r.go ==> r.out == s)
  {
    DeliverTakes(s, f);
    DeliverStops(s, f);
  }

  /** The state a sweep leaves behind: the callback trace, the dedup set,
      and whether it ran to the end (the source's return value). */
  datatype Pass = Pass(out: seq<Item>, seen: set<int>, go: bool)

  /** The leaf loop of a sweep over an already sorted list: call back on each
      unseen item the leaf filter admits, stop at the first `false`, and mark
      the id only after the callback said "go on". */
  function LeafSweep(d: Dir, items: seq<Item>, q: Rect, f: Item -> bool, seen: set<int>): Pass
  {
    if items == [] then Pass([], seen, true)
    else
      var c := items[0];
      if LeafHit(d, q, c) && c.id !in seen then
        if !f(c) then Pass([c], seen, false)
        else
          var rest := LeafSweep(d, items[1..], q, f, seen + {c.id});
          Pass([c] + rest.out, rest.seen, rest.go)
      else
        LeafSweep(d, items[1..], q, f, seen)
  }

  /** The quadrants one side of a sweep visits, in the order it drains them:
      the near side first (left, top, bottom), then the far side. */
  function Side(d: Dir, near: bool): (p: (Quadrant, Quadrant))
    ensures p.0 != p.1
  {
    match d
    case XInc => if near then (TL, BL) else (TR, BR)
    case YInc => if near then (TL, TR) else (BL, BR)
    case YDec => if near then (BL, BR) else (TL, TR)
  }

  /** An internal node with the near pair of children `na`, `nb` and the far
      pair `fa`, `fb`. */
  function Rebuild(d: Dir, m: Meta, na: Node, nb: Node, fa: Node, fb: Node): (r: Node)
    ensures r.Internal? && r.meta == m
    ensures Child(r, Side(d, true).0) == na && Child(r, Side(d, true).1) == nb
    ensures Child(r, Side(d, false).0) == fa && Child(r, Side(d, false).1) == fb
  {
    match d
    case XInc => Internal(m, na, fa, nb, fb)
    case YInc => Internal(m, na, nb, fa, fb)
    case YDec => Internal(m, fa, fb, na, nb)
  }

  /** Two distinct children together are smaller than their parent. */
  lemma PairSmaller(n: Node, a: Quadrant, b: Quadrant)
    requires n.Internal? && a != b
    ensures Size(Child(n, a)) + Size(Child(n, b)) < Size(n)
  {
  }

  /** A sweep's result: the node with its leaf lists sorted in place, and
      the pass. */
  datatype Swept = Swept(node: Node, pass: Pass)

  /** One side's result: its two children afterwards, and the pass. */
  datatype Halves = Halves(a: Node, b: Node, pass: Pass)

  /** `QNode.retrieve_xinc`, `retrieve_yinc` and `retrieve_ydec`. A leaf sorts
      its list in place by the sweep key and runs the leaf loop; an internal
      node handles its near side, then, unless the callback stopped it, its
      far side. */
  function Sweep(d: Dir, n: Node, q: Rect, f: Item -> bool, seen: set<int>): Swept
    decreases Size(n), 0
  {
    match n
    case Leaf(m, items) =>
      var sorted := SortBy(items, KeyOf(d));
      Swept(Leaf(m, sorted), LeafSweep(d, sorted, q, f, seen))
    case Internal(m, _, _, _, _) =>
      var ks := FindIndices(m.bounds, q);
      var (a, b) := Side(d, true);
      var (a', b') := Side(d, false);
      PairSmaller(n, a, b);
      PairSmaller(n, a', b');
      var h1 := Part(d, Child(n, a), Child(n, b), a in ks, b in ks, q, f, seen);
      if !h1.pass.go then
        Swept(Rebuild(d, m, h1.a, h1.b, Child(n, a'), Child(n, b')), h1.pass)
      else
        var h2 := Part(d, Child(n, a'), Child(n, b'), a' in ks, b' in ks, q, f, h1.pass.seen);
        Swept(Rebuild(d, m, h1.a, h1.b, h2.a, h2.b),
              Pass(h1.pass.out + h2.pass.out, h2.pass.seen, h2.pass.go))
  }

  /** One side of an internal node. When the query straddles the split
      between its two quadrants, drain both through the range query into a
      buffer, sort it and call back on it (the dedup set is marked while
      draining); when it names only one, sweep that child; otherwise do
      nothing. */
  function Part(d: Dir, ca: Node, cb: Node, hitA: bool, hitB: bool, q: Rect,
                f: Item -> bool, seen: set<int>): Halves
    decreases Size(ca) + Size(cb), 1
  {
    if hitA && hitB then
      var r1 := Retrieve(ca, q, seen);
      var r2 := Retrieve(cb, q, r1.seen);
      var run := Deliver(SortBy(r1.out + r2.out, KeyOf(d)), f);
      Halves(ca, cb, Pass(run.out, r2.seen, run.go))
    else if hitA then
      var s := Sweep(d, ca, q, f, seen);
      Halves(s.node, cb, s.pass)
    else if hitB then
      var s := Sweep(d, cb, q, f, seen);
      Halves(ca, s.node, s.pass)
    else
      Halves(ca, cb, Pass([], seen, true))
  }

  // ---------------------------------------------------------------------
  // What a sweep does to the tree: it only reorders leaf lists.

  /** `n'` is `n` with each leaf list permuted, and nothing else changed. */
  ghost predicate Permuted(n: Node, n': Node)
  {
    match n
    case Leaf(m, items) =>
      n'.Leaf? && n'.meta == m && multiset(n'.items) == multiset(items)
    case Internal(m, tl, tr, bl, br) =>
      && n'.Internal? && n'.meta == m
      && Permuted(tl, n'.tl) && Permuted(tr, n'.tr)
      && Permuted(bl, n'.bl) && Permuted(br, n'.br)
  }

  lemma {:induction false} PermutedRefl(n: Node)
    ensures Permuted(n, n)
  {
    match n
    case Leaf(_, _) =>
    case Internal(_, tl, tr, bl, br) =>
      PermutedRefl(tl); PermutedRefl(tr); PermutedRefl(bl); PermutedRefl(br);
  }

  /** Reordering leaf lists keeps the stored items, the node count, and both
      invariants of the tree. */
  lemma {:induction false} PermutedKeeps(n: Node, n': Node)
    requires Permuted(n, n')
    ensures Stored(n') == Stored(n) && Size(n') == Size(n)
    ensures WF(n) ==> WF(n')
    ensures Placed(n) ==> Placed(n')
  {
    match n
    case Leaf(m, items) =>
      forall c ensures c in n'.items <==> c in items {
        assert c in n'.items <==> c in multiset(n'.items);
      }
      assert |n'.items| == |multiset(n'.items)|;
    case Internal(m, tl, tr, bl, br) =>
      PermutedKeeps(tl, n'.tl); PermutedKeeps(tr, n'.tr);
      PermutedKeeps(bl, n'.bl); PermutedKeeps(br, n'.br);
  }

  lemma RebuildPermuted(d: Dir, n: Node, na: Node, nb: Node, fa: Node, fb: Node)
    requires n.Internal?
    requires Permuted(Child(n, Side(d, true).0), na) && Permuted(Child(n, Side(d, true).1), nb)
    requires Permuted(Child(n, Side(d, false).0), fa) && Permuted(Child(n, Side(d, false).1), fb)
    ensures Permuted(n, Rebuild(d, n.meta, na, nb, fa, fb))
  {
  }

  lemma ChildStored(n: Node, k: Quadrant)
    requires n.Internal?
    ensures Stored(Child(n, k)) <= Stored(n)
  {
  }

  // ---------------------------------------------------------------------
  // What a sweep hands to the callback.

  /** A pass over the items of `pool` started from the dedup set `seen`:
      only admitted items of the pool, each id at most once and none seen
      before; the marks only grow, and a pass that ran to the end marked
      exactly what it delivered; the callback stopped at its first `false`. */
  ghost predicate Delivers(pool: set<Item>, d: Dir, q: Rect, f: Item -> bool, seen: set<int>, p: Pass)
  {
    && (forall i :: 0 <= i < |p.out| ==> p.out[i] in pool && Admits(d, q, p.out[i]))
    && FreshFrom(p.out, seen) && seen <= p.seen
    && (p.go ==> p.seen == seen + Ids(p.out))
    && Stops(p.out, p.go, f)
  }

  /** A pass is a pass over any larger pool. */
  lemma DeliversWiden(pool: set<Item>, pool': set<Item>, d: Dir, q: Rect, f: Item -> bool,
                      seen: set<int>, p: Pass)
    requires Delivers(pool, d, q, f, seen, p) && pool <= pool'
    ensures Delivers(pool', d, q, f, seen, p)
  {
  }

  /** The empty pass that ran to the end. */
  lemma DeliversNothing(pool: set<Item>, d: Dir, q: Rect, f: Item -> bool, seen: set<int>)
    ensures Delivers(pool, d, q, f, seen, Pass([], seen, true))
  {
    assert Ids([]) == {};
  }

  /** A pass that ran to the end, followed by a pass that starts from its
      marks, is one pass. */
  lemma DeliversConcat(pool: set<Item>, d: Dir, q: Rect, f: Item -> bool, seen: set<int>,
                       p1: Pass, p2: Pass)
    requires Delivers(pool, d, q, f, seen, p1) && p1.go
    requires Delivers(pool, d, q, f, p1.seen, p2)
    ensures Delivers(pool, d, q, f, seen, Pass(p1.out + p2.out, p2.seen, p2.go))
  {
    FreshConcat(p1.out, p2.out, seen);
    var out := p1.out + p2.out;
    forall i | 0 <= i < |out| ensures out[i] in pool && Admits(d, q, out[i]) {
      if i >= |p1.out| { assert out[i] == p2.out[i - |p1.out|]; }
    }
    forall i | 0 <= i < |out| ensures f(out[i]) <==> (if i < |p1.out| then f(p1.out[i]) else f(p2.out[i - |p1.out|])) {
      if i >= |p1.out| { assert out[i] == p2.out[i - |p1.out|]; }
    }
  }

  /** One item the leaf filter admits and the callback accepts, then a pass. */
  lemma DeliversCons(pool: set<Item>, d: Dir, q: Rect, f: Item -> bool, seen: set<int>,
                     c: Item, rest: Pass)
    requires c in pool && Admits(d, q, c) && c.id !in seen && f(c)
    requires Delivers(pool, d, q, f, seen + {c.id}, rest)
    ensures Delivers(pool, d, q, f, seen, Pass([c] + rest.out, rest.seen, rest.go))
  {
    assert [c][0] == c;
    assert Ids([c]) == {c.id};
    DeliversConcat(pool, d, q, f, seen, Pass([c], seen + {c.id}, true), rest);
  }

  /** The leaf loop delivers as `Delivers` says. */
  lemma {:induction false} LeafSweepSound(d: Dir, items: seq<Item>, q: Rect, f: Item -> bool, seen: set<int>)
    ensures Delivers((set c | c in items), d, q, f, seen, LeafSweep(d, items, q, f, seen))
  {
    var pool := set c | c in items;
    if items == [] {
      DeliversNothing(pool, d, q, f, seen);
    } else {
      var c := items[0];
      var pool' := set c | c in items[1..];
      if LeafHit(d, q, c) && c.id !in seen {
        if f(c) {
          LeafSweepSound(d, items[1..], q, f, seen + {c.id});
          var rest := LeafSweep(d, items[1..], q, f, seen + {c.id});
          DeliversWiden(pool', pool, d, q, f, seen + {c.id}, rest);
          DeliversCons(pool, d, q, f, seen, c, rest);
        } else {
          assert [c][0] == c;
        }
      } else {
        LeafSweepSound(d, items[1..], q, f, seen);
        DeliversWiden(pool', pool, d, q, f, seen, LeafSweep(d, items[1..], q, f, seen));
      }
    }
  }

  /** A leaf loop that runs to the end marks every item of the leaf that the
      filter admits. */
  lemma {:induction false} LeafSweepComplete(d: Dir, items: seq<Item>, q: Rect, f: Item -> bool, seen: set<int>)
    ensures var p := LeafSweep(d, items, q, f, seen);
      p.go ==> forall c :: c in items && LeafHit(d, q, c) ==> c.id in p.seen
  {
    if items != [] {
      var c := items[0];
      if LeafHit(d, q, c) && c.id !in seen {
        if f(c) {
          LeafSweepComplete(d, items[1..], q, f, seen + {c.id});
          LeafSweepSound(d, items[1..], q, f, seen + {c.id});
        }
      } else {
        LeafSweepComplete(d, items[1..], q, f, seen);
        LeafSweepSound(d, items[1..], q, f, seen);
      }
    }
  }

  /** The leaf loop keeps the order of the (sorted) leaf list. */
  lemma {:induction false} LeafSweepSorted(d: Dir, items: seq<Item>, q: Rect, f: Item -> bool, seen: set<int>)
    requires SortedBy(items, KeyOf(d))
    ensures SortedBy(LeafSweep(d, items, q, f, seen).out, KeyOf(d))
  {
    if items != [] {
      var c := items[0];
      assert SortedBy(items[1..], KeyOf(d));
      if LeafHit(d, q, c) && c.id !in seen {
        if f(c) {
          LeafSweepSorted(d, items[1..], q, f, seen + {c.id});
          LeafSweepSound(d, items[1..], q, f, seen + {c.id});
          var rest := LeafSweep(d, items[1..], q, f, seen + {c.id}).out;
          forall j | 0 <= j < |rest| ensures KeyOf(d)(c) <= KeyOf(d)(rest[j]) {
            var k :| 0 <= k < |items[1..]| && items[1..][k] == rest[j];
            assert items[1 + k] == rest[j];
          }
        }
      } else {
        LeafSweepSorted(d, items[1..], q, f, seen);
      }
    }
  }

  // ---------------------------------------------------------------------
  // The straddle buffer.

  /** Items with distinct ids occur at most once each. */
  lemma {:induction false} DistinctOnce(s: seq<Item>, x: Item)
    requires DistinctIds(s)
    ensures multiset(s)[x] <= 1
  {
    if s != [] {
      assert s == [s[0]] + s[1..];
      DistinctOnce(s[1..], x);
      forall k | 0 <= k < |s[1..]| ensures s[1..][k] != s[0] {
        assert s[1..][k] == s[1 + k];
      }
    }
  }

  /** Distinct ids survive a permutation. */
  lemma DistinctPermute(s: seq<Item>, t: seq<Item>)
    requires DistinctIds(s) && multiset(t) == multiset(s)
    ensures DistinctIds(t)
  {
    forall i, j | 0 <= i < j < |t| ensures t[i].id != t[j].id {
      assert t == t[..j] + t[j..];
      assert t[j] == t[j..][0];
      assert t[i] == t[..j][i];
      DistinctOnce(s, t[j]);
      assert multiset(t[..j])[t[j]] == 0;
      assert t[i] in multiset(t) && t[j] in multiset(t);
      var a :| 0 <= a < |s| && s[a] == t[i];
      var b :| 0 <= b < |s| && s[b] == t[j];
    }
  }

  /** A reordered range-query result reports the same. */
  lemma ReportsPermute(pool: set<Item>, q: Rect, seen: set<int>, r: Found, t: seq<Item>)
    requires Reports(pool, q, seen, r) && multiset(t) == multiset(r.out)
    ensures Reports(pool, q, seen, Found(t, r.seen))
  {
    DistinctPermute(r.out, t);
    forall x ensures x in t <==> x in r.out {
      assert x in t <==> x in multiset(t);
    }
    forall i | 0 <= i < |t| ensures t[i] in pool && Overlaps(q, t[i]) {
      assert t[i] in t;
      var k :| 0 <= k < |r.out| && r.out[k] == t[i];
    }
    forall v ensures v in Ids(t) <==> v in Ids(r.out) {
      if v in Ids(t) {
        var i :| 0 <= i < |t| && t[i].id == v;
        assert t[i] in t;
        var k :| 0 <= k < |r.out| && r.out[k] == t[i];
      }
      if v in Ids(r.out) {
        var k :| 0 <= k < |r.out| && r.out[k].id == v;
        assert r.out[k] in r.out;
        var i :| 0 <= i < |t| && t[i] == r.out[k];
      }
    }
  }

  /** Calling back on a prefix of a range-query result (marked in full
      before the first callback) is a pass. */
  lemma PrefixDelivers(pool: set<Item>, d: Dir, q: Rect, f: Item -> bool, seen: set<int>, r: Found, run: Run)
    requires Reports(pool, q, seen, r)
    requires |run.out| <= |r.out| && run.out == r.out[..|run.out|]
    requires Stops(run.out, run.go, f) && (run.go ==> run.out == r.out)
    ensures Delivers(pool, d, q, f, seen, Pass(run.out, r.seen, run.go))
  {
    forall i | 0 <= i < |run.out| ensures run.out[i] == r.out[i] {
    }
  }

  /** The straddle branch of a side delivers as `Delivers` says. */
  lemma StraddleSound(d: Dir, ca: Node, cb: Node, q: Rect, f: Item -> bool, seen: set<int>)
    ensures var r1 := Retrieve(ca, q, seen);
      var r2 := Retrieve(cb, q, r1.seen);
      var run := Deliver(SortBy(r1.out + r2.out, KeyOf(d)), f);
      Delivers(Stored(ca) + Stored(cb), d, q, f, seen, Pass(run.out, r2.seen, run.go))
  {
    var pool := Stored(ca) + Stored(cb);
    var r1 := Retrieve(ca, q, seen);
    var r2 := Retrieve(cb, q, r1.seen);
    RetrieveSound(ca, q, seen);
    RetrieveSound(cb, q, r1.seen);
    ReportsWiden(Stored(ca), pool, q, seen, r1);
    ReportsWiden(Stored(cb), pool, q, r1.seen, r2);
    ReportsConcat(pool, q, seen, r1, r2);
    var t := SortBy(r1.out + r2.out, KeyOf(d));
    ReportsPermute(pool, q, seen, Found(r1.out + r2.out, r2.seen), t);
    DeliverSound(t, f);
    PrefixDelivers(pool, d, q, f, seen, Found(t, r2.seen), Deliver(t, f));
  }

  // ---------------------------------------------------------------------
  // Soundness of the sweeps.

  /** A sweep hands the callback only stored items its filters admit, each
      id at most once and none seen before; it stops at the first `false`
      and propagates it; a sweep that runs to the end has marked exactly what
      it delivered; and it changes the tree only by reordering leaf lists. */
  lemma {:induction false} SweepSound(d: Dir, n: Node, q: Rect, f: Item -> bool, seen: set<int>)
    ensures Delivers(Stored(n), d, q, f, seen, Sweep(d, n, q, f, seen).pass)
    ensures Permuted(n, Sweep(d, n, q, f, seen).node)
    decreases Size(n), 1
  {
    match n
    case Leaf(m, items) =>
      SortedLeafSound(d, m, items, q, f, seen);
    case Internal(_, _, _, _, _) =>
      InternalSound(d, n, q, f, seen);
  }

  /** The internal-node case: the near side's pass, then, unless it
      stopped, the far side's from where it left the dedup set. */
  lemma {:induction false} InternalSound(d: Dir, n: Node, q: Rect, f: Item -> bool, seen: set<int>)
    requires n.Internal?
    ensures Delivers(Stored(n), d, q, f, seen, Sweep(d, n, q, f, seen).pass)
    ensures Permuted(n, Sweep(d, n, q, f, seen).node)
    decreases Size(n), 0
  {
    var ks := FindIndices(n.meta.bounds, q);
    var a, b := Side(d, true).0, Side(d, true).1;
    var a', b' := Side(d, false).0, Side(d, false).1;
    PairSmaller(n, a, b);
    PairSmaller(n, a', b');
    var h1 := Part(d, Child(n, a), Child(n, b), a in ks, b in ks, q, f, seen);
    PartSound(d, Child(n, a), Child(n, b), a in ks, b in ks, q, f, seen);
    var h2 := Part(d, Child(n, a'), Child(n, b'), a' in ks, b' in ks, q, f, h1.pass.seen);
    if !h1.pass.go {
      StoppedSide(d, n, q, f, seen, h1, h2);
    } else {
      PartSound(d, Child(n, a'), Child(n, b'), a' in ks, b' in ks, q, f, h1.pass.seen);
      BothSides(d, n, q, f, seen, h1, h2);
    }
  }

  /** The near side stopped the sweep: the far side is left as it was. */
  lemma StoppedSide(d: Dir, n: Node, q: Rect, f: Item -> bool, seen: set<int>, h1: Halves, h2: Halves)
    requires n.Internal? && !h1.pass.go
    requires var ks := FindIndices(n.meta.bounds, q);
      var a := Side(d, true).0; var b := Side(d, true).1;
      h1 == Part(d, Child(n, a), Child(n, b), a in ks, b in ks, q, f, seen)
    requires var ks := FindIndices(n.meta.bounds, q);
      var a := Side(d, false).0; var b := Side(d, false).1;
      h2 == Part(d, Child(n, a), Child(n, b), a in ks, b in ks, q, f, h1.pass.seen)
    requires var a := Side(d, true).0; var b := Side(d, true).1;
      && Delivers(Stored(Child(n, a)) + Stored(Child(n, b)), d, q, f, seen, h1.pass)
      && Permuted(Child(n, a), h1.a) && Permuted(Child(n, b), h1.b)
    ensures Delivers(Stored(n), d, q, f, seen, Sweep(d, n, q, f, seen).pass)
    ensures Permuted(n, Sweep(d, n, q, f, seen).node)
  {
    SweepSplit(d, n, q, f, seen, h1, h2);
    var a := Side(d, true).0;
    var b := Side(d, true).1;
    ChildStored(n, a);
    ChildStored(n, b);
    DeliversWiden(Stored(Child(n, a)) + Stored(Child(n, b)), Stored(n), d, q, f, seen, h1.pass);
    PermutedRefl(Child(n, Side(d, false).0));
    PermutedRefl(Child(n, Side(d, false).1));
    RebuildPermuted(d, n, h1.a, h1.b, Child(n, Side(d, false).0), Child(n, Side(d, false).1));
  }

  /** The near side ran to the end and the far side followed it. */
  lemma BothSides(d: Dir, n: Node, q: Rect, f: Item -> bool, seen: set<int>, h1: Halves, h2: Halves)
    requires n.Internal? && h1.pass.go
    requires var ks := FindIndices(n.meta.bounds, q);
      var a := Side(d, true).0; var b := Side(d, true).1;
      h1 == Part(d, Child(n, a), Child(n, b), a in ks, b in ks, q, f, seen)
    requires var ks := FindIndices(n.meta.bounds, q);
      var a := Side(d, false).0; var b := Side(d, false).1;
      h2 == Part(d, Child(n, a), Child(n, b), a in ks, b in ks, q, f, h1.pass.seen)
    requires var a := Side(d, true).0; var b := Side(d, true).1;
      && Delivers(Stored(Child(n, a)) + Stored(Child(n, b)), d, q, f, seen, h1.pass)
      && Permuted(Child(n, a), h1.a) && Permuted(Child(n, b), h1.b)
    requires var a := Side(d, false).0; var b := Side(d, false).1;
      && Delivers(Stored(Child(n, a)) + Stored(Child(n, b)), d, q, f, h1.pass.seen, h2.pass)
      && Permuted(Child(n, a), h2.a) && Permuted(Child(n, b), h2.b)
    ensures Delivers(Stored(n), d, q, f, seen, Sweep(d, n, q, f, seen).pass)
    ensures Permuted(n, Sweep(d, n, q, f, seen).node)
  {
    SweepSplit(d, n, q, f, seen, h1, h2);
    var a := Side(d, true).0;
    var b := Side(d, true).1;
    var a' := Side(d, false).0;
    var b' := Side(d, false).1;
    ChildStored(n, a); ChildStored(n, b); ChildStored(n, a'); ChildStored(n, b');
    DeliversWiden(Stored(Child(n, a)) + Stored(Child(n, b)), Stored(n), d, q, f, seen, h1.pass);
    DeliversWiden(Stored(Child(n, a')) + Stored(Child(n, b')), Stored(n), d, q, f, h1.pass.seen, h2.pass);
    DeliversConcat(Stored(n), d, q, f, seen, h1.pass, h2.pass);
    RebuildPermuted(d, n, h1.a, h1.b, h2.a, h2.b);
  }

  /** A leaf sorts its list and then runs the leaf loop. */
  lemma SortedLeafSound(d: Dir, m: Meta, items: seq<Item>, q: Rect, f: Item -> bool, seen: set<int>)
    ensures var s := Sweep(d, Leaf(m, items), q, f, seen);
      Delivers(Stored(Leaf(m, items)), d, q, f, seen, s.pass) && Permuted(Leaf(m, items), s.node)
  {
    var sorted := SortBy(items, KeyOf(d));
    LeafSweepSound(d, sorted, q, f, seen);
    SortByMembers(items, KeyOf(d));
    assert (set c | c in sorted) == Stored(Leaf(m, items));
  }

  lemma {:induction false} PartSound(d: Dir, ca: Node, cb: Node, hitA: bool, hitB: bool, q: Rect,
                                     f: Item -> bool, seen: set<int>)
    ensures var h := Part(d, ca, cb, hitA, hitB, q, f, seen);
      && Delivers(Stored(ca) + Stored(cb), d, q, f, seen, h.pass)
      && Permuted(ca, h.a) && Permuted(cb, h.b)
    decreases Size(ca) + Size(cb), 1
  {
    var pool := Stored(ca) + Stored(cb);
    if hitA && hitB {
      StraddleSound(d, ca, cb, q, f, seen);
      PermutedRefl(ca);
      PermutedRefl(cb);
    } else if hitA {
      SweepSound(d, ca, q, f, seen);
      DeliversWiden(Stored(ca), pool, d, q, f, seen, Sweep(d, ca, q, f, seen).pass);
      PermutedRefl(cb);
    } else if hitB {
      SweepSound(d, cb, q, f, seen);
      DeliversWiden(Stored(cb), pool, d, q, f, seen, Sweep(d, cb, q, f, seen).pass);
      PermutedRefl(ca);
    } else {
      DeliversNothing(pool, d, q, f, seen);
      PermutedRefl(ca);
      PermutedRefl(cb);
    }
  }

  // ---------------------------------------------------------------------
  // Completeness of the sweeps.

  /** The query shape under which the leaf filter admits everything the range
      query would: `retrieve_xinc`'s leaf test computes `y + height` even when
      the height is the sentinel, so the x sweep needs a finite height. */
  predicate Covers(d: Dir, q: Rect)
  {
    d == XInc ==> q.h.Finite?
  }

  lemma CoversHit(d: Dir, q: Rect, c: Item)
    requires Covers(d, q) && Overlaps(q, c)
    ensures LeafHit(d, q, c)
  {
  }

  /** Every item of `pool` that overlaps the query has its id in `seen`. */
  ghost predicate Marked(pool: set<Item>, q: Rect, seen: set<int>)
  {
    forall c :: c in pool && Overlaps(q, c) ==> c.id in seen
  }

  /** The two sides name all four quadrants. */
  lemma SidesCover(d: Dir, k: Quadrant)
    ensures k == Side(d, true).0 || k == Side(d, true).1 || k == Side(d, false).0 || k == Side(d, false).1
  {
  }

  /** An overlapping item is held by a child that the query names too; so a
      node is marked once every child the query names is. */
  lemma MarkedFromChildren(n: Node, q: Rect, seen: set<int>)
    requires n.Internal? && Placed(n)
    requires var ks := FindIndices(n.meta.bounds, q);
      && (TL in ks ==> Marked(Stored(n.tl), q, seen))
      && (TR in ks ==> Marked(Stored(n.tr), q, seen))
      && (BL in ks ==> Marked(Stored(n.bl), q, seen))
      && (BR in ks ==> Marked(Stored(n.br), q, seen))
    ensures Marked(Stored(n), q, seen)
  {
    var b := n.meta.bounds;
    assert SortsInto(b, TL, n.tl, Stored(n)) && SortsInto(b, TR, n.tr, Stored(n));
    assert SortsInto(b, BL, n.bl, Stored(n)) && SortsInto(b, BR, n.br, Stored(n));
    forall c | c in Stored(n) && Overlaps(q, c) ensures c.id in seen {
      var k := CommonQuadrant(b, q, c);
      match k
      case TL => assert c in Stored(n.tl);
      case TR => assert c in Stored(n.tr);
      case BL => assert c in Stored(n.bl);
      case BR => assert c in Stored(n.br);
    }
  }

  /** A leaf sweep that runs to the end marks every overlapping item. */
  lemma SortedLeafComplete(d: Dir, m: Meta, items: seq<Item>, q: Rect, f: Item -> bool, seen: set<int>)
    requires Covers(d, q)
    ensures var s := Sweep(d, Leaf(m, items), q, f, seen);
      s.pass.go ==> Marked(Stored(Leaf(m, items)), q, s.pass.seen)
  {
    var sorted := SortBy(items, KeyOf(d));
    LeafSweepComplete(d, sorted, q, f, seen);
    SortByMembers(items, KeyOf(d));
    forall c | c in items && Overlaps(q, c) ensures LeafHit(d, q, c) {
      CoversHit(d, q, c);
    }
  }

  /** A sweep that runs to the end has marked every stored item overlapping
      the query (so, with what it marked before, it delivered them all). */
  lemma {:induction false} SweepComplete(d: Dir, n: Node, q: Rect, f: Item -> bool, seen: set<int>)
    requires Placed(n) && Covers(d, q)
    ensures var s := Sweep(d, n, q, f, seen);
      s.pass.go ==> Marked(Stored(n), q, s.pass.seen)
    decreases Size(n), 0
  {
    match n
    case Leaf(m, items) =>
      SortedLeafComplete(d, m, items, q, f, seen);
    case Internal(m, _, _, _, _) =>
      var ks := FindIndices(m.bounds, q);
      var (a, b) := Side(d, true);
      var (a', b') := Side(d, false);
      PairSmaller(n, a, b);
      PairSmaller(n, a', b');
      PlacedChildren(n);
      var h1 := Part(d, Child(n, a), Child(n, b), a in ks, b in ks, q, f, seen);
      PartComplete(d, Child(n, a), Child(n, b), a in ks, b in ks, q, f, seen);
      if h1.pass.go {
        var h2 := Part(d, Child(n, a'), Child(n, b'), a' in ks, b' in ks, q, f, h1.pass.seen);
        PartComplete(d, Child(n, a'), Child(n, b'), a' in ks, b' in ks, q, f, h1.pass.seen);
        PartSound(d, Child(n, a'), Child(n, b'), a' in ks, b' in ks, q, f, h1.pass.seen);
        if h2.pass.go {
          CompleteBothSides(d, n, q, h1.pass.seen, h2.pass.seen);
        }
      }
  }

  lemma PlacedChildren(n: Node)
    requires n.Internal? && Placed(n)
    ensures forall k :: Placed(Child(n, k))
  {
    forall k ensures Placed(Child(n, k)) {
      match k
      case TL => case TR => case BL => case BR =>
    }
  }

  /** Both sides marked what they must, the far side after the near side. */
  lemma CompleteBothSides(d: Dir, n: Node, q: Rect, s1: set<int>, s2: set<int>)
    requires n.Internal? && Placed(n) && s1 <= s2
    requires var ks := FindIndices(n.meta.bounds, q);
      var a := Side(d, true).0; var b := Side(d, true).1;
      && (a in ks ==> Marked(Stored(Child(n, a)), q, s1))
      && (b in ks ==> Marked(Stored(Child(n, b)), q, s1))
    requires var ks := FindIndices(n.meta.bounds, q);
      var a := Side(d, false).0; var b := Side(d, false).1;
      && (a in ks ==> Marked(Stored(Child(n, a)), q, s2))
      && (b in ks ==> Marked(Stored(Child(n, b)), q, s2))
    ensures Marked(Stored(n), q, s2)
  {
    match d
    case XInc => MarkedFromChildren(n, q, s2);
    case YInc => MarkedFromChildren(n, q, s2);
    case YDec => MarkedFromChildren(n, q, s2);
  }

  lemma {:induction false} PartComplete(d: Dir, ca: Node, cb: Node, hitA: bool, hitB: bool, q: Rect,
                                        f: Item -> bool, seen: set<int>)
    requires Placed(ca) && Placed(cb) && Covers(d, q)
    ensures var h := Part(d, ca, cb, hitA, hitB, q, f, seen);
      h.pass.go ==> (hitA ==> Marked(Stored(ca), q, h.pass.seen)) && (hitB ==> Marked(Stored(cb), q, h.pass.seen))
    decreases Size(ca) + Size(cb), 1
  {
    if hitA && hitB {
      var r1 := Retrieve(ca, q, seen);
      RetrieveComplete(ca, q, seen);
      RetrieveComplete(cb, q, r1.seen);
      RetrieveSound(cb, q, r1.seen);
    } else if hitA {
      SweepComplete(d, ca, q, f, seen);
    } else if hitB {
      SweepComplete(d, cb, q, f, seen);
    }
  }

  // ---------------------------------------------------------------------
  // Order of the increasing sweeps.

  /** The query shapes the wrappers build for the increasing sweeps: the x
      sweep is unbounded in x (with a real height), the y sweep unbounded
      in y. */
  predicate Increasing(d: Dir, q: Rect)
  {
    || (d == XInc && q.w.Inf? && q.h.Finite?)
    || (d == YInc && q.h.Inf?)
  }

  /** For those shapes both filters are the range query's overlap test. */
  lemma IncreasingAdmits(d: Dir, q: Rect, c: Item)
    requires Increasing(d, q)
    ensures Admits(d, q, c) <==> Overlaps(q, c)
  {
  }

  lemma IncreasingCovers(d: Dir, q: Rect)
    requires Increasing(d, q)
    ensures Covers(d, q)
  {
  }

  /** The split line an increasing sweep crosses at a node. */
  function Centre(d: Dir, b: Bounds): real
  {
    if d == XInc then CentreX(b) else CentreY(b)
  }

  /** Items held by the near pair of children lie before the split line. */
  lemma NearKeys(d: Dir, n: Node, c: Item)
    requires d != YDec && n.Internal? && Placed(n)
    requires c in Stored(Child(n, Side(d, true).0)) + Stored(Child(n, Side(d, true).1))
    ensures KeyOf(d)(c) < Centre(d, n.meta.bounds)
  {
    var b := n.meta.bounds;
    assert SortsInto(b, TL, n.tl, Stored(n)) && SortsInto(b, TR, n.tr, Stored(n));
    assert SortsInto(b, BL, n.bl, Stored(n)) && SortsInto(b, BR, n.br, Stored(n));
  }

  /** An overlapping item before the split line is held by a near child the
      query names, so a near side that ran to the end has marked it. */
  lemma NearMarked(d: Dir, n: Node, q: Rect, s1: set<int>, c: Item)
    requires d != YDec && n.Internal? && Placed(n)
    requires var ks := FindIndices(n.meta.bounds, q);
      var a := Side(d, true).0; var b := Side(d, true).1;
      && (a in ks || b in ks)
      && (a in ks ==> Marked(Stored(Child(n, a)), q, s1))
      && (b in ks ==> Marked(Stored(Child(n, b)), q, s1))
    requires c in Stored(n) && Overlaps(q, c) && KeyOf(d)(c) < Centre(d, n.meta.bounds)
    ensures c.id in s1
  {
    var b := n.meta.bounds;
    assert SortsInto(b, TL, n.tl, Stored(n)) && SortsInto(b, TR, n.tr, Stored(n));
    assert SortsInto(b, BL, n.bl, Stored(n)) && SortsInto(b, BR, n.br, Stored(n));
    if d == XInc {
      VerticalCommon(b, q, c);
      if TopHit(b, q) && TopHit(b, c.AsRect()) {
        assert c in Stored(n.tl);
      } else {
        assert c in Stored(n.bl);
      }
    } else {
      HorizontalCommon(b, q, c);
      if LeftHit(b, q) && LeftHit(b, c.AsRect()) {
        assert c in Stored(n.tl);
      } else {
        assert c in Stored(n.tr);
      }
    }
  }

  /** Sorted runs on either side of a split line make a sorted run. */
  lemma SortedConcat(s: seq<Item>, t: seq<Item>, key: Item -> real, mid: real)
    requires SortedBy(s, key) && SortedBy(t, key)
    requires forall i :: 0 <= i < |s| ==> key(s[i]) < mid
    requires forall j :: 0 <= j < |t| ==> mid <= key(t[j])
    ensures SortedBy(s + t, key)
  {
    var st := s + t;
    forall i, j | 0 <= i < j < |st| ensures key(st[i]) <= key(st[j]) {
      if j >= |s| {
        assert st[j] == t[j - |s|];
        if i >= |s| { assert st[i] == t[i - |s|]; }
      }
    }
  }

  /** A prefix of a sorted run is sorted. */
  lemma SortedPrefix(s: seq<Item>, k: nat, key: Item -> real)
    requires SortedBy(s, key) && k <= |s|
    ensures SortedBy(s[..k], key)
  {
  }

  /** The increasing sweeps deliver in non-decreasing key order over the
      whole tree: x for `retrieve_xinc`, y for `retrieve_yinc`. */
  lemma {:induction false} SweepSorted(d: Dir, n: Node, q: Rect, f: Item -> bool, seen: set<int>)
    requires Placed(n) && Increasing(d, q)
    ensures SortedBy(Sweep(d, n, q, f, seen).pass.out, KeyOf(d))
    decreases Size(n), 0
  {
    match n
    case Leaf(m, items) =>
      var sorted := SortBy(items, KeyOf(d));
      LeafSweepSorted(d, sorted, q, f, seen);
    case Internal(m, _, _, _, _) =>
      var ks := FindIndices(m.bounds, q);
      var (a, b) := Side(d, true);
      var (a', b') := Side(d, false);
      PairSmaller(n, a, b);
      PairSmaller(n, a', b');
      PlacedChildren(n);
      var h1 := Part(d, Child(n, a), Child(n, b), a in ks, b in ks, q, f, seen);
      PartSorted(d, Child(n, a), Child(n, b), a in ks, b in ks, q, f, seen);
      var h2 := Part(d, Child(n, a'), Child(n, b'), a' in ks, b' in ks, q, f, h1.pass.seen);
      SweepSplit(d, n, q, f, seen, h1, h2);
      if h1.pass.go {
        PartSorted(d, Child(n, a'), Child(n, b'), a' in ks, b' in ks, q, f, h1.pass.seen);
        if a in ks || b in ks {
          SidesInOrder(d, n, q, f, seen, h1, h2);
        } else {
          assert h1.pass.out == [];
          NothingFirst(h1.pass.out, h2.pass.out);
        }
      }
  }

  /** What a sweep of an internal node delivers, given its two sides. */
  lemma SweepSplit(d: Dir, n: Node, q: Rect, f: Item -> bool, seen: set<int>, h1: Halves, h2: Halves)
    requires n.Internal?
    requires var ks := FindIndices(n.meta.bounds, q);
      var a := Side(d, true).0; var b := Side(d, true).1;
      h1 == Part(d, Child(n, a), Child(n, b), a in ks, b in ks, q, f, seen)
    requires var ks := FindIndices(n.meta.bounds, q);
      var a := Side(d, false).0; var b := Side(d, false).1;
      h2 == Part(d, Child(n, a), Child(n, b), a in ks, b in ks, q, f, h1.pass.seen)
    ensures h1.pass.go ==> (Sweep(d, n, q, f, seen) ==
      Swept(Rebuild(d, n.meta, h1.a, h1.b, h2.a, h2.b), Pass(h1.pass.out + h2.pass.out, h2.pass.seen, h2.pass.go)))
    ensures !h1.pass.go ==> (Sweep(d, n, q, f, seen) ==
      Swept(Rebuild(d, n.meta, h1.a, h1.b, Child(n, Side(d, false).0), Child(n, Side(d, false).1)), h1.pass))
    ensures Sweep(d, n, q, f, seen).pass.out == if h1.pass.go then h1.pass.out + h2.pass.out else h1.pass.out
  {
  }

  /** A side that delivered nothing adds nothing in front of the other. */
  lemma NothingFirst(a: seq<Item>, b: seq<Item>)
    requires a == []
    ensures a + b == b
  {
  }

  /** Near-side deliveries lie before the split line and far-side ones on or
      after it. */
  lemma SidesInOrder(d: Dir, n: Node, q: Rect, f: Item -> bool, seen: set<int>, h1: Halves, h2: Halves)
    requires n.Internal? && Placed(n) && Increasing(d, q)
    requires var ks := FindIndices(n.meta.bounds, q);
      var a := Side(d, true).0; var b := Side(d, true).1;
      && (a in ks || b in ks)
      && h1 == Part(d, Child(n, a), Child(n, b), a in ks, b in ks, q, f, seen) && h1.pass.go
    requires var ks := FindIndices(n.meta.bounds, q);
      var a := Side(d, false).0; var b := Side(d, false).1;
      h2 == Part(d, Child(n, a), Child(n, b), a in ks, b in ks, q, f, h1.pass.seen)
    requires SortedBy(h1.pass.out, KeyOf(d)) && SortedBy(h2.pass.out, KeyOf(d))
    ensures SortedBy(h1.pass.out + h2.pass.out, KeyOf(d))
  {
    NearBelow(d, n, q, f, seen, h1);
    FarAbove(d, n, q, f, seen, h1, h2);
    SortedConcat(h1.pass.out, h2.pass.out, KeyOf(d), Centre(d, n.meta.bounds));
  }

  /** Near-side deliveries lie before the split line. */
  lemma NearBelow(d: Dir, n: Node, q: Rect, f: Item -> bool, seen: set<int>, h1: Halves)
    requires n.Internal? && Placed(n) && Increasing(d, q)
    requires var ks := FindIndices(n.meta.bounds, q);
      var a := Side(d, true).0; var b := Side(d, true).1;
      h1 == Part(d, Child(n, a), Child(n, b), a in ks, b in ks, q, f, seen)
    ensures forall i :: 0 <= i < |h1.pass.out| ==> KeyOf(d)(h1.pass.out[i]) < Centre(d, n.meta.bounds)
  {
    var ks := FindIndices(n.meta.bounds, q);
    var a := Side(d, true).0;
    var b := Side(d, true).1;
    PartSound(d, Child(n, a), Child(n, b), a in ks, b in ks, q, f, seen);
    forall i | 0 <= i < |h1.pass.out| ensures KeyOf(d)(h1.pass.out[i]) < Centre(d, n.meta.bounds) {
      NearKeys(d, n, h1.pass.out[i]);
    }
  }

  /** Far-side deliveries lie on or after the split line: an item before it
      that the query meets sits on the near side, whose complete pass
      marked it, so the far side skips it. */
  lemma FarAbove(d: Dir, n: Node, q: Rect, f: Item -> bool, seen: set<int>, h1: Halves, h2: Halves)
    requires n.Internal? && Placed(n) && Increasing(d, q)
    requires var ks := FindIndices(n.meta.bounds, q);
      var a := Side(d, true).0; var b := Side(d, true).1;
      && (a in ks || b in ks)
      && h1 == Part(d, Child(n, a), Child(n, b), a in ks, b in ks, q, f, seen) && h1.pass.go
    requires var ks := FindIndices(n.meta.bounds, q);
      var a := Side(d, false).0; var b := Side(d, false).1;
      h2 == Part(d, Child(n, a), Child(n, b), a in ks, b in ks, q, f, h1.pass.seen)
    ensures forall j :: 0 <= j < |h2.pass.out| ==> Centre(d, n.meta.bounds) <= KeyOf(d)(h2.pass.out[j])
  {
    var ks := FindIndices(n.meta.bounds, q);
    var a := Side(d, true).0;
    var b := Side(d, true).1;
    var a' := Side(d, false).0;
    var b' := Side(d, false).1;
    var mid := Centre(d, n.meta.bounds);
    PlacedChildren(n);
    IncreasingCovers(d, q);
    PartComplete(d, Child(n, a), Child(n, b), a in ks, b in ks, q, f, seen);
    PartSound(d, Child(n, a'), Child(n, b'), a' in ks, b' in ks, q, f, h1.pass.seen);
    forall j | 0 <= j < |h2.pass.out| ensures mid <= KeyOf(d)(h2.pass.out[j]) {
      var c := h2.pass.out[j];
      IncreasingAdmits(d, q, c);
      ChildStored(n, a');
      ChildStored(n, b');
      if KeyOf(d)(c) < mid {
        NearMarked(d, n, q, h1.pass.seen, c);
      }
    }
  }

  lemma {:induction false} PartSorted(d: Dir, ca: Node, cb: Node, hitA: bool, hitB: bool, q: Rect,
                                      f: Item -> bool, seen: set<int>)
    requires Placed(ca) && Placed(cb) && Increasing(d, q)
    ensures SortedBy(Part(d, ca, cb, hitA, hitB, q, f, seen).pass.out, KeyOf(d))
    decreases Size(ca) + Size(cb), 1
  {
    if hitA && hitB {
      var r1 := Retrieve(ca, q, seen);
      var r2 := Retrieve(cb, q, r1.seen);
      var t := SortBy(r1.out + r2.out, KeyOf(d));
      DeliverSound(t, f);
      SortedPrefix(t, |Deliver(t, f).out|, KeyOf(d));
    } else if hitA {
      SweepSorted(d, ca, q, f, seen);
    } else if hitB {
      SweepSorted(d, cb, q, f, seen);
    }
  }

  // ---------------------------------------------------------------------
  // The sweeps as the source runs them.

  /** `sort_and_callback(items, func, cmp)`: sort the buffer, then call back
      on each item until the callback says `false`. */
  method SortAndCallback(items: seq<Item>, f: Item -> bool, d: Dir) returns (out: seq<Item>, go: bool)
    ensures Run(out, go) == Deliver(SortBy(items, KeyOf(d)), f)
  {
    var sorted := SortBy(items, KeyOf(d));
    out, go := DeliverLoop(sorted, f);
  }

  /** The loop of `sort_and_callback`. */
  method DeliverLoop(s: seq<Item>, f: Item -> bool) returns (out: seq<Item>, go: bool)
    ensures Run(out, go) == Deliver(s, f)
  {
    out := [];
    var j := 0;
    while j < |s|
      invariant 0 <= j <= |s|
      invariant var r := Deliver(s[j..], f); Deliver(s, f) == Run(out + r.out, r.go)
    {
      var sub := s[j];
      assert s[j..][1..] == s[j + 1..];
      if !f(sub) {
        out := out + [sub];
        return out, false;
      }
      assert [sub] + Deliver(s[j + 1..], f).out == Deliver(s[j..], f).out;
      out := out + [sub];
      j := j + 1;
    }
    go := true;
  }

  /** The leaf loop of a sweep, over the list after its in-place sort. */
  method LeafSweepLoop(d: Dir, items: seq<Item>, q: Rect, f: Item -> bool, seen: set<int>)
    returns (out: seq<Item>, seen': set<int>, go: bool)
    ensures Pass(out, seen', go) == LeafSweep(d, items, q, f, seen)
  {
    out, seen' := [], seen;
    var ci := 0;
    while ci < |items|
      invariant 0 <= ci <= |items|
      invariant LeafSweep(d, items, q, f, seen) == Pass(out + LeafSweep(d, items[ci..], q, f, seen').out,
        LeafSweep(d, items[ci..], q, f, seen').seen, LeafSweep(d, items[ci..], q, f, seen').go)
    {
      var c := items[ci];
      ghost var r := LeafSweep(d, items[ci..], q, f, seen');
      assert items[ci..][0] == c && items[ci..][1..] == items[ci + 1..];
      if LeafHit(d, q, c) && c.id !in seen' {
        if !f(c) {
          assert r == Pass([c], seen', false);
          out := out + [c];
          return out, seen', false;
        }
        ghost var r' := LeafSweep(d, items[ci + 1..], q, f, seen' + {c.id});
        assert r == Pass([c] + r'.out, r'.seen, r'.go);
        assert out + ([c] + r'.out) == (out + [c]) + r'.out;
        out := out + [c];
        seen' := seen' + {c.id};
      } else {
        assert r == LeafSweep(d, items[ci + 1..], q, f, seen');
      }
      ci := ci + 1;
    }
    go := true;
  }

  /** `QNode.retrieve_xinc` / `retrieve_yinc` / `retrieve_ydec` on a node:
      the node comes back with its visited leaf lists sorted. */
  method SweepNode(d: Dir, n: Node, q: Rect, f: Item -> bool, seen: set<int>)
    returns (n': Node, out: seq<Item>, seen': set<int>, go: bool)
    ensures Swept(n', Pass(out, seen', go)) == Sweep(d, n, q, f, seen)
    decreases Size(n), 0
  {
    match n
    case Leaf(m, items) =>
      var sorted := SortBy(items, KeyOf(d));
      n' := Leaf(m, sorted);
      out, seen', go := LeafSweepLoop(d, sorted, q, f, seen);
    case Internal(m, _, _, _, _) =>
      var ks := FindIndices(m.bounds, q);
      var (a, b) := Side(d, true);
      var (a', b') := Side(d, false);
      PairSmaller(n, a, b);
      PairSmaller(n, a', b');
      var na, nb, out1, seen1, go1 := PartNode(d, Child(n, a), Child(n, b), a in ks, b in ks, q, f, seen);
      if !go1 {
        return Rebuild(d, m, na, nb, Child(n, a'), Child(n, b')), out1, seen1, false;
      }
      var fa, fb, out2, seen2, go2 := PartNode(d, Child(n, a'), Child(n, b'), a' in ks, b' in ks, q, f, seen1);
      n', out, seen', go := Rebuild(d, m, na, nb, fa, fb), out1 + out2, seen2, go2;
  }

  /** One side of an internal node, as the source runs it. */
  method PartNode(d: Dir, ca: Node, cb: Node, hitA: bool, hitB: bool, q: Rect,
                  f: Item -> bool, seen: set<int>)
    returns (ca': Node, cb': Node, out: seq<Item>, seen': set<int>, go: bool)
    ensures Halves(ca', cb', Pass(out, seen', go)) == Part(d, ca, cb, hitA, hitB, q, f, seen)
    decreases Size(ca) + Size(cb), 1
  {
    ca', cb' := ca, cb;
    if hitA && hitB {
      out, seen', go := Straddle(d, ca, cb, q, f, seen);
    } else if hitA {
      ca', out, seen', go := SweepNode(d, ca, q, f, seen);
    } else if hitB {
      cb', out, seen', go := SweepNode(d, cb, q, f, seen);
    } else {
      out, seen', go := [], seen, true;
    }
  }

  /** The straddle branch: drain both quadrants through the range query into
      a fresh buffer, then sort it and call back. */
  method Straddle(d: Dir, ca: Node, cb: Node, q: Rect, f: Item -> bool, seen: set<int>)
    returns (out: seq<Item>, seen': set<int>, go: bool)
    ensures var r1 := Retrieve(ca, q, seen);
      var r2 := Retrieve(cb, q, r1.seen);
      Pass(out, seen', go) == (var run := Deliver(SortBy(r1.out + r2.out, KeyOf(d)), f); Pass(run.out, r2.seen, run.go))
  {
    ghost var r1 := Retrieve(ca, q, seen);
    var buffer, s1 := RetrieveNode(ca, q, [], seen);
    assert buffer == r1.out && s1 == r1.seen;
    ghost var r2 := Retrieve(cb, q, s1);
    buffer, seen' := RetrieveNode(cb, q, buffer, s1);
    assert buffer == r1.out + r2.out && seen' == r2.seen;
    out, go := SortAndCallback(buffer, f, d);
  }

  // ---------------------------------------------------------------------
  // A whole sweep from a fresh dedup set.

  /** A sweep started with an empty dedup set, as the wrappers start it:
      the tree keeps its invariants and its items; each id reaches the
      callback at most once; every delivered item is stored and admitted;
      the callback stops the sweep at its first `false`; and a sweep that
      runs to the end misses no stored item that overlaps the query. */
  lemma SweepTheorem(d: Dir, n: Node, q: Rect, f: Item -> bool)
    requires Good(n) && Covers(d, q)
    ensures var s := Sweep(d, n, q, f, {});
      && Good(s.node) && Stored(s.node) == Stored(n)
      && DistinctIds(s.pass.out)
      && (forall i :: 0 <= i < |s.pass.out| ==> s.pass.out[i] in Stored(n) && Admits(d, q, s.pass.out[i]))
      && Stops(s.pass.out, s.pass.go, f)
      && (s.pass.go ==> forall c :: c in Stored(n) && Overlaps(q, c) ==> c.id in Ids(s.pass.out))
  {
    var s := Sweep(d, n, q, f, {});
    SweepSound(d, n, q, f, {});
    PermutedKeeps(n, s.node);
    SweepComplete(d, n, q, f, {});
  }

  /** For the increasing sweeps the callback sees, in key order, one item
      for each id among the stored items that overlap the query. */
  lemma IncreasingTheorem(d: Dir, n: Node, q: Rect, f: Item -> bool)
    requires Good(n) && Increasing(d, q)
    ensures var out := Sweep(d, n, q, f, {}).pass.out;
      && SortedBy(out, KeyOf(d))
      && (forall i :: 0 <= i < |out| ==> out[i] in Stored(n) && Overlaps(q, out[i]))
      && (Sweep(d, n, q, f, {}).pass.go ==> Ids(out) == set c | c in Stored(n) && Overlaps(q, c) :: c.id)
  {
    var out := Sweep(d, n, q, f, {}).pass.out;
    IncreasingCovers(d, q);
    SweepTheorem(d, n, q, f);
    SweepSorted(d, n, q, f, {});
    forall i | 0 <= i < |out| ensures Overlaps(q, out[i]) {
      IncreasingAdmits(d, q, out[i]);
    }
  }

  // ---------------------------------------------------------------------
  // Stopping early.

  /** A callback that never stops a sweep (the source only stops on a
      return value of exactly `false`). */
  function KeepGoing(c: Item): bool { true }

  lemma {:induction false} DeliverPrefix(s: seq<Item>, f: Item -> bool)
    ensures Deliver(s, KeepGoing) == Run(s, true)
    ensures Deliver(s, f).out <= s
  {
    DeliverSound(s, f);
    if s != [] {
      DeliverPrefix(s[1..], f);
      assert [s[0]] + s[1..] == s;
    }
  }

  lemma {:induction false} LeafSweepPrefix(d: Dir, items: seq<Item>, q: Rect, f: Item -> bool, seen: set<int>)
    ensures var p := LeafSweep(d, items, q, f, seen);
      var a := LeafSweep(d, items, q, KeepGoing, seen);
      p.out <= a.out && (p.go ==> p == a)
  {
    if items != [] {
      var c := items[0];
      if LeafHit(d, q, c) && c.id !in seen {
        LeafSweepPrefix(d, items[1..], q, f, seen + {c.id});
      } else {
        LeafSweepPrefix(d, items[1..], q, f, seen);
      }
    }
  }

  /** Stopping early changes nothing before the stop: whatever the callback,
      a sweep delivers a prefix of what it delivers when the callback never
      says `false`, and a sweep the callback did not stop is that sweep. */
  lemma {:induction false} SweepPrefix(d: Dir, n: Node, q: Rect, f: Item -> bool, seen: set<int>)
    ensures Sweep(d, n, q, f, seen).pass.out <= Sweep(d, n, q, KeepGoing, seen).pass.out
    ensures Sweep(d, n, q, f, seen).pass.go ==> Sweep(d, n, q, f, seen) == Sweep(d, n, q, KeepGoing, seen)
    decreases Size(n), 1
  {
    match n
    case Leaf(m, items) =>
      LeafSweepPrefix(d, SortBy(items, KeyOf(d)), q, f, seen);
    case Internal(_, _, _, _, _) =>
      InternalPrefix(d, n, q, f, seen);
  }

  /** The internal-node case: the near sides agree up to the stop, and when
      the near side was not stopped the far sides start from the same
      dedup set. */
  lemma {:induction false} InternalPrefix(d: Dir, n: Node, q: Rect, f: Item -> bool, seen: set<int>)
    requires n.Internal?
    ensures Sweep(d, n, q, f, seen).pass.out <= Sweep(d, n, q, KeepGoing, seen).pass.out
    ensures Sweep(d, n, q, f, seen).pass.go ==> Sweep(d, n, q, f, seen) == Sweep(d, n, q, KeepGoing, seen)
    decreases Size(n), 0
  {
    var ks := FindIndices(n.meta.bounds, q);
    var a, b := Side(d, true).0, Side(d, true).1;
    var a', b' := Side(d, false).0, Side(d, false).1;
    PairSmaller(n, a, b);
    PairSmaller(n, a', b');
    var h1 := Part(d, Child(n, a), Child(n, b), a in ks, b in ks, q, f, seen);
    var g1 := Part(d, Child(n, a), Child(n, b), a in ks, b in ks, q, KeepGoing, seen);
    PartPrefix(d, Child(n, a), Child(n, b), a in ks, b in ks, q, f, seen);
    var h2 := Part(d, Child(n, a'), Child(n, b'), a' in ks, b' in ks, q, f, h1.pass.seen);
    var g2 := Part(d, Child(n, a'), Child(n, b'), a' in ks, b' in ks, q, KeepGoing, g1.pass.seen);
    SweepSplit(d, n, q, f, seen, h1, h2);
    SweepSplit(d, n, q, KeepGoing, seen, g1, g2);
    if h1.pass.go {
      PartPrefix(d, Child(n, a'), Child(n, b'), a' in ks, b' in ks, q, f, h1.pass.seen);
      assert h1.pass.out + h2.pass.out <= g1.pass.out + g2.pass.out;
    } else if g1.pass.go {
      assert g1.pass.out <= g1.pass.out + g2.pass.out;
    }
  }

  lemma {:induction false} PartPrefix(d: Dir, ca: Node, cb: Node, hitA: bool, hitB: bool, q: Rect,
                                      f: Item -> bool, seen: set<int>)
    ensures var h := Part(d, ca, cb, hitA, hitB, q, f, seen);
      var g := Part(d, ca, cb, hitA, hitB, q, KeepGoing, seen);
      h.pass.out <= g.pass.out && (h.pass.go ==> h == g)
    decreases Size(ca) + Size(cb), 1
  {
    if hitA && hitB {
      var r1 := Retrieve(ca, q, seen);
      var r2 := Retrieve(cb, q, r1.seen);
      var t := SortBy(r1.out + r2.out, KeyOf(d));
      DeliverPrefix(t, f);
      DeliverSound(t, f);
    } else if hitA {
      SweepPrefix(d, ca, q, f, seen);
    } else if hitB {
      SweepPrefix(d, cb, q, f, seen);
    }
  }

  /** Whatever the callback answers, an increasing sweep first delivers the
      one overlapping item whose key is strictly least: every callback sees
      items in the order a full sweep would. */
  lemma {:induction false} LeastFirst(d: Dir, n: Node, q: Rect, f: Item -> bool, m: Item)
    requires Good(n) && Increasing(d, q)
    requires m in Stored(n) && Overlaps(q, m)
    requires forall c :: c in Stored(n) && c.id == m.id ==> c == m
    requires forall c :: c in Stored(n) && Overlaps(q, c) && c != m ==> KeyOf(d)(m) < KeyOf(d)(c)
    ensures var out := Sweep(d, n, q, f, {}).pass.out;
      out != [] && out[0] == m
  {
    var s := Sweep(d, n, q, f, {}).pass;
    var a := Sweep(d, n, q, KeepGoing, {}).pass;
    IncreasingCovers(d, q);
    SweepTheorem(d, n, q, KeepGoing);
    IncreasingTheorem(d, n, q, KeepGoing);
    assert a.go;
    assert m.id in Ids(a.out);
    var k :| 0 <= k < |a.out| && a.out[k].id == m.id;
    assert a.out[k] == m;
    assert KeyOf(d)(a.out[0]) <= KeyOf(d)(a.out[k]);
    assert a.out[0] == m;
    SweepTheorem(d, n, q, f);
    SweepPrefix(d, n, q, f, {});
    assert s.out == [] ==> s.go;
    assert s.out[0] == a.out[0];
  }

  /** A straddled pair drained into one sorted buffer calls back in key
      order. */
  lemma StraddleSorted(d: Dir, ca: Node, cb: Node, q: Rect, f: Item -> bool, seen: set<int>)
    ensures SortedBy(Part(d, ca, cb, true, true, q, f, seen).pass.out, KeyOf(d))
  {
    var r1 := Retrieve(ca, q, seen);
    var r2 := Retrieve(cb, q, r1.seen);
    var t := SortBy(r1.out + r2.out, KeyOf(d));
    DeliverSound(t, f);
    SortedPrefix(t, |Deliver(t, f).out|, KeyOf(d));
  }

  /** The bottom children hold nothing the query meets when every admitted
      item lies above the horizontal split. */
  lemma BottomHoldsNothing(n: Node, q: Rect, s1: set<int>, s2: set<int>)
    requires n.Internal? && Good(n)
    requires forall c :: c in Stored(n) && Admits(YDec, q, c) ==>
      c.y < CentreY(n.meta.bounds) && c.y + c.h < CentreY(n.meta.bounds)
    ensures Retrieve(n.bl, q, s1).out == [] && Retrieve(n.br, q, s2).out == []
  {
    var r1 := Retrieve(n.bl, q, s1);
    var r2 := Retrieve(n.br, q, s2);
    RetrieveSound(n.bl, q, s1);
    RetrieveSound(n.br, q, s2);
    forall c | c in Stored(n.bl) + Stored(n.br) ensures !Overlaps(q, c) {
      assert c in Stored(n);
      assert BottomHit(n.meta.bounds, c.AsRect());
      assert Overlaps(q, c) ==> Admits(YDec, q, c);
    }
    assert Ids(r1.out) == {} && Ids(r2.out) == {};
    NothingFound(r1.out);
    NothingFound(r2.out);
  }

  /** The decreasing sweep has no global order, but when its query straddles
      both splits of the root and every item it admits lies above the
      horizontal split, the bottom pair delivers nothing and the top pair is
      drained as one sorted buffer: the output is in decreasing y. */
  lemma YDecOneBuffer(n: Node, q: Rect, f: Item -> bool)
    requires Good(n)
    requires n.Internal? ==> FindIndices(n.meta.bounds, q) == {TL, TR, BL, BR}
    requires forall c :: c in Stored(n) && Admits(YDec, q, c) ==>
      c.y < CentreY(n.meta.bounds) && c.y + c.h < CentreY(n.meta.bounds)
    ensures SortedBy(Sweep(YDec, n, q, f, {}).pass.out, KeyOf(YDec))
  {
    match n
    case Leaf(m, items) =>
      LeafSweepSorted(YDec, SortBy(items, KeyOf(YDec)), q, f, {});
    case Internal(m, tl, tr, bl, br) =>
      var h1 := Part(YDec, bl, br, true, true, q, f, {});
      BottomHoldsNothing(n, q, {}, Retrieve(bl, q, {}).seen);
      assert h1.pass.out == [] && h1.pass.go;
      var h2 := Part(YDec, tl, tr, true, true, q, f, h1.pass.seen);
      StraddleSorted(YDec, tl, tr, q, f, h1.pass.seen);
      assert Sweep(YDec, n, q, f, {}).pass.out == h1.pass.out + h2.pass.out;
      NothingFirst(h1.pass.out, h2.pass.out);
  }

  /** Every item a range query reports overlaps the query. */
  lemma RetrieveOverlaps(n: Node, q: Rect, seen: set<int>)
    ensures forall i :: 0 <= i < |Retrieve(n, q, seen).out| ==> Overlaps(q, Retrieve(n, q, seen).out[i])
  {
    RetrieveSound(n, q, seen);
  }

  /** Sorting keeps a property of every element. */
  lemma SortOverlaps(s: seq<Item>, key: Item -> real, q: Rect)
    requires forall i :: 0 <= i < |s| ==> Overlaps(q, s[i])
    ensures forall i :: 0 <= i < |SortBy(s, key)| ==> Overlaps(q, SortBy(s, key)[i])
  {
    var t := SortBy(s, key);
    forall i | 0 <= i < |t| ensures Overlaps(q, t[i]) {
      assert t[i] in multiset(s);
      var u :| 0 <= u < |s| && s[u] == t[i];
    }
  }

  /** A straddled pair drained through the range query hands over only
      items that overlap the query. */
  lemma StraddleOverlaps(d: Dir, ca: Node, cb: Node, q: Rect, f: Item -> bool, seen: set<int>)
    ensures var out := Part(d, ca, cb, true, true, q, f, seen).pass.out;
      forall i :: 0 <= i < |out| ==> Overlaps(q, out[i])
  {
    var r1 := Retrieve(ca, q, seen);
    var r2 := Retrieve(cb, q, r1.seen);
    RetrieveOverlaps(ca, q, seen);
    RetrieveOverlaps(cb, q, r1.seen);
    var both := r1.out + r2.out;
    forall i | 0 <= i < |both| ensures Overlaps(q, both[i]) {
      if i < |r1.out| {
        assert Overlaps(q, r1.out[i]);
        assert both[i] == r1.out[i];
      } else {
        assert both[i] == r2.out[i - |r1.out|];
      }
    }
    var t := SortBy(both, KeyOf(d));
    SortOverlaps(both, KeyOf(d), q);
    var run := Deliver(t, f);
    DeliverTakes(t, f);
    assert Part(d, ca, cb, true, true, q, f, seen).pass.out == run.out;
    forall i | 0 <= i < |run.out| ensures Overlaps(q, run.out[i]) {
      assert Overlaps(q, t[i]);
      assert run.out[i] == t[i];
    }
  }

  /** When the query meets only the top pair of quadrants of an internal
      node, as a decreasing sweep from a start line above the horizontal
      split does, the bottom side delivers nothing and the top pair is
      drained through the range query as one sorted buffer: the output is
      in decreasing y, and every item in it overlaps the query. */
  lemma YDecTopPair(n: Node, q: Rect, f: Item -> bool)
    requires n.Internal? && FindIndices(n.meta.bounds, q) == {TL, TR}
    ensures SortedBy(Sweep(YDec, n, q, f, {}).pass.out, KeyOf(YDec))
    ensures forall i :: 0 <= i < |Sweep(YDec, n, q, f, {}).pass.out| ==> Overlaps(q, Sweep(YDec, n, q, f, {}).pass.out[i])
  {
    var h1 := Part(YDec, n.bl, n.br, false, false, q, f, {});
    assert h1.pass == Pass([], {}, true);
    var h2 := Part(YDec, n.tl, n.tr, true, true, q, f, {});
    StraddleSorted(YDec, n.tl, n.tr, q, f, {});
    StraddleOverlaps(YDec, n.tl, n.tr, q, f, {});
    assert Side(YDec, true) == (BL, BR) && Side(YDec, false) == (TL, TR);
    SweepSplit(YDec, n, q, f, {}, h1, h2);
    NothingFirst(h1.pass.out, h2.pass.out);
  }

  // ---------------------------------------------------------------------
  // What the decreasing sweep does not promise.

  /** A one-item list is sorted as it is. */
  lemma SortOne(c: Item, key: Item -> real)
    ensures SortBy([c], key) == [c]
  {
    assert SortBy([c], key) == InsertBy(c, SortBy([], key), key);
  }

  /** The decreasing sweep's leaf filter has no bound at the start line: a
      leaf hands over an item lying wholly below it, which the range query
      would reject. */
  lemma YDecPassesStartLine()
    ensures var m := Meta(Bounds(0.0, 0.0, 100.0, 100.0), 0, 4, 4);
      var c := Item(0, 1.0, 80.0, 1.0, 1.0);
      var q := Rect(0.0, 0.0, Finite(10.0), Finite(50.0));
      && Good(Leaf(m, [c]))
      && c.y > q.y + Raw(q.h) && !Overlaps(q, c)
      && Sweep(YDec, Leaf(m, [c]), q, KeepGoing, {}).pass.out == [c]
  {
    var c := Item(0, 1.0, 80.0, 1.0, 1.0);
    var q := Rect(0.0, 0.0, Finite(10.0), Finite(50.0));
    SortOne(c, KeyOf(YDec));
    assert LeafHit(YDec, q, c);
    assert [c][1..] == [];
    assert LeafSweep(YDec, [c], q, KeepGoing, {}).out == [c] + LeafSweep(YDec, [], q, KeepGoing, {0}).out;
  }

  /** An item straddling the horizontal split of the page, and a smaller
      one just above the split and lower down the page. */
  const Straddler := Item(0, 1.0, 45.0, 1.0, 10.0)
  const Above := Item(1, 1.0, 48.0, 1.0, 1.0)
  /** The page with one level of splitting and a leaf limit of two. */
  const PageMeta := Meta(Bounds(0.0, 0.0, 100.0, 100.0), 0, 1, 2)

  /** The page split once, holding the two items where insertion puts them:
      the straddler in both left quadrants, the other in the top-left one. */
  function StraddledPage(): Node
  {
    Internal(PageMeta, Leaf(ChildMeta(PageMeta, TL), [Straddler, Above]), Leaf(ChildMeta(PageMeta, TR), []),
                       Leaf(ChildMeta(PageMeta, BL), [Straddler]), Leaf(ChildMeta(PageMeta, BR), []))
  }

  /** The split page after the straddler alone was re-inserted. */
  function StraddlerSplit(): Node
  {
    Internal(PageMeta, Leaf(ChildMeta(PageMeta, TL), [Straddler]), Leaf(ChildMeta(PageMeta, TR), []),
                       Leaf(ChildMeta(PageMeta, BL), [Straddler]), Leaf(ChildMeta(PageMeta, BR), []))
  }

  /** Re-inserting the straddler into the freshly split page puts it in
      both left quadrants. */
  lemma StraddlerReinserted()
    ensures Insert(Subdivide(PageMeta), Straddler) == StraddlerSplit()
  {
    var s0 := Subdivide(PageMeta);
    assert FindIndices(PageMeta.bounds, Straddler.AsRect()) == {TL, BL};
    assert Insert(s0, Straddler) == InsertInternal(s0, Straddler);
    LeafAtFloor(ChildMeta(PageMeta, TL), [], Straddler);
    LeafAtFloor(ChildMeta(PageMeta, BL), [], Straddler);
    assert [] + [Straddler] == [Straddler];
  }

  /** Re-inserting the second item puts it after the straddler in the
      top-left leaf, which is at `maxDepth` and so stays a leaf. */
  lemma AboveReinserted(s1: Node)
    requires s1 == StraddlerSplit()
    ensures WF(s1) && Insert(s1, Above) == StraddledPage()
  {
    assert FindIndices(PageMeta.bounds, Above.AsRect()) == {TL};
    assert Insert(s1, Above) == InsertInternal(s1, Above);
    LeafAtFloor(ChildMeta(PageMeta, TL), [Straddler], Above);
    assert [Straddler] + [Above] == [Straddler, Above];
  }

  /** Inserting the straddler and then the other item into an empty page
      builds exactly that tree: the second insert fills the root leaf, which
      splits and re-inserts both items; the children, at `maxDepth`, stay
      leaves. */
  lemma StraddledPageBuilt(n0: Node, n1: Node)
    requires n0 == NewNode(PageMeta.bounds, 0, 1, 2)
    requires n1 == Insert(n0, Straddler)
    ensures Insert(n1, Above) == StraddledPage()
  {
    assert n0 == Leaf(PageMeta, []);
    assert n1 == Leaf(PageMeta, [Straddler]);
    assert Insert(n1, Above) == InsertLeaf(PageMeta, [Straddler], Above);
    var s0 := Subdivide(PageMeta);
    StraddlerReinserted();
    var s1 := StraddlerSplit();
    AboveReinserted(s1);
    assert [Straddler, Above][1..] == [Above] && [Above][1..] == [];
    assert ReinsertAll(s0, [Straddler, Above]) == ReinsertAll(s1, [Above]);
    assert ReinsertAll(s1, [Above]) == ReinsertAll(StraddledPage(), []);
  }

  /** A leaf at `maxDepth` never splits: inserting appends. */
  lemma LeafAtFloor(m: Meta, items: seq<Item>, c: Item)
    requires WF(Leaf(m, items)) && m.depth >= m.maxDepth
    ensures Insert(Leaf(m, items), c) == Leaf(m, items + [c])
  {
    assert Insert(Leaf(m, items), c) == InsertLeaf(m, items, c);
  }

  lemma StraddledPageGood()
    ensures Good(StraddledPage()) && Stored(StraddledPage()) == {Straddler, Above}
  {
    assert FindIndices(PageMeta.bounds, Straddler.AsRect()) == {TL, BL};
    assert FindIndices(PageMeta.bounds, Above.AsRect()) == {TL};
  }

  /** The straddler alone in the bottom-left leaf is handed over. */
  lemma StraddledBottom(q: Rect)
    requires LeafHit(YDec, q, Straddler)
    ensures Sweep(YDec, Leaf(ChildMeta(PageMeta, BL), [Straddler]), q, KeepGoing, {}).pass
            == Pass([Straddler], {0}, true)
  {
    SortOne(Straddler, KeyOf(YDec));
    assert [Straddler][1..] == [];
    assert KeepGoing(Straddler);
    assert LeafSweep(YDec, [], q, KeepGoing, {0}) == Pass([], {0}, true);
    assert {} + {Straddler.id} == {0};
    assert LeafSweep(YDec, [Straddler], q, KeepGoing, {}) == Pass([Straddler], {0}, true);
  }

  /** The top-left leaf, sorted by decreasing y, hands over the lower item
      and skips the straddler already seen. */
  lemma StraddledTop(q: Rect)
    requires LeafHit(YDec, q, Above)
    ensures Sweep(YDec, Leaf(ChildMeta(PageMeta, TL), [Straddler, Above]), q, KeepGoing, {0}).pass.out
            == [Above]
  {
    var key := KeyOf(YDec);
    SortOne(Above, key);
    assert SortBy([Straddler, Above], key) == [Above, Straddler] by {
      assert [Straddler, Above][1..] == [Above];
      assert SortBy([Straddler, Above], key) == InsertBy(Straddler, SortBy([Above], key), key);
      assert InsertBy(Straddler, [Above], key) == [Above] + InsertBy(Straddler, [], key);
    }
    assert [Above, Straddler][1..] == [Straddler] && [Straddler][1..] == [];
    assert KeepGoing(Above);
    assert LeafSweep(YDec, [], q, KeepGoing, {0, 1}).out == [];
    assert LeafSweep(YDec, [Straddler], q, KeepGoing, {0, 1}).out == [];
    assert {0} + {Above.id} == {0, 1};
    assert LeafSweep(YDec, [Above, Straddler], q, KeepGoing, {0}).out == [Above];
  }

  /** The decreasing sweep drains the bottom quadrants first, so in the tree
      two inserts build, an item straddling the horizontal split comes out
      before a top-only item lower down the page: the output is not in
      decreasing y. */
  lemma YDecStraddlerFirst()
    ensures Insert(Insert(NewNode(PageMeta.bounds, 0, 1, 2), Straddler), Above) == StraddledPage()
    ensures Good(StraddledPage())
    ensures Sweep(YDec, StraddledPage(), Rect(0.0, 0.0, Finite(10.0), Finite(60.0)), KeepGoing, {}).pass.out
            == [Straddler, Above]
    ensures KeyOf(YDec)(Above) < KeyOf(YDec)(Straddler)
  {
    var n0 := NewNode(PageMeta.bounds, 0, 1, 2);
    StraddledPageBuilt(n0, Insert(n0, Straddler));
    StraddledPageGood();
    StraddledSweep(StraddledPage(), Rect(0.0, 0.0, Finite(10.0), Finite(60.0)));
  }

  lemma StraddledSweep(n: Node, q: Rect)
    requires n == StraddledPage() && q == Rect(0.0, 0.0, Finite(10.0), Finite(60.0))
    ensures Sweep(YDec, n, q, KeepGoing, {}).pass.out == [Straddler, Above]
  {
    StraddledQuery(q);
    StraddledBottom(q);
    StraddledTop(q);
    YDecLeftPair(n, q, KeepGoing, {});
    assert [Straddler] + [Above] == [Straddler, Above];
  }

  /** The example query meets both left quadrants of the page, and the leaf
      filter of the decreasing sweep admits both items. */
  lemma StraddledQuery(q: Rect)
    requires q == Rect(0.0, 0.0, Finite(10.0), Finite(60.0))
    ensures FindIndices(PageMeta.bounds, q) == {TL, BL}
    ensures LeafHit(YDec, q, Straddler) && LeafHit(YDec, q, Above)
  {
  }

  /** When the query meets only the left quadrants of an internal node, the
      decreasing sweep runs through the bottom-left child and then, unless
      stopped, the top-left one. */
  lemma YDecLeftPair(n: Node, q: Rect, f: Item -> bool, seen: set<int>)
    requires n.Internal? && FindIndices(n.meta.bounds, q) == {TL, BL}
    ensures Sweep(YDec, n, q, f, seen).pass.out ==
      if Sweep(YDec, n.bl, q, f, seen).pass.go
      then Sweep(YDec, n.bl, q, f, seen).pass.out + Sweep(YDec, n.tl, q, f, Sweep(YDec, n.bl, q, f, seen).pass.seen).pass.out
      else Sweep(YDec, n.bl, q, f, seen).pass.out
  {
    assert Side(YDec, true) == (BL, BR) && Side(YDec, false) == (TL, TR);
  }
}
