/**
 * The range query `QNode.retrieve`: one dedup set of ids for the whole call,
 * shared by every leaf it visits.
 */
module Retrieval {
  import opened Geometry
  import opened QNodes

  /** The ids of a list of items. */
  function Ids(s: seq<Item>): set<int>
  {
    set i | 0 <= i < |s| :: s[i].id
  }

  /** A list of items is empty exactly when its set of ids is. */
  lemma NothingFound(r: seq<Item>)
    ensures Ids(r) == {} <==> r == []
  {
    assert r != [] ==> r[0].id in Ids(r);
  }

  /** No id occurs twice in `s`. */
  ghost predicate DistinctIds(s: seq<Item>)
  {
    forall i, j :: 0 <= i < j < |s| ==> s[i].id != s[j].id
  }

  /** `s` reports each id at most once and none already in `seen`. */
  ghost predicate FreshFrom(s: seq<Item>, seen: set<int>)
  {
    DistinctIds(s) && forall i :: 0 <= i < |s| ==> s[i].id !in seen
  }

  lemma FreshConcat(a: seq<Item>, b: seq<Item>, seen: set<int>)
    requires FreshFrom(a, seen) && FreshFrom(b, seen + Ids(a))
    ensures FreshFrom(a + b, seen) && Ids(a + b) == Ids(a) + Ids(b)
  {
    var ab := a + b;
    forall i, j | 0 <= i < j < |ab| ensures ab[i].id != ab[j].id {
      if i < |a| && j >= |a| {
        assert ab[i].id in Ids(a);
        assert ab[j] == b[j - |a|];
      }
    }
    forall x | x in Ids(ab) ensures x in Ids(a) + Ids(b) {
      var i :| 0 <= i < |ab| && ab[i].id == x;
      if i >= |a| { assert ab[i] == b[i - |a|]; }
    }
    forall x | x in Ids(a) + Ids(b) ensures x in Ids(ab) {
      if x in Ids(a) {
        var i :| 0 <= i < |a| && a[i].id == x;
        assert ab[i] == a[i];
      } else {
        var i :| 0 <= i < |b| && b[i].id == x;
        assert ab[|a| + i] == b[i];
      }
    }
  }

  /** What a query hands back: the items found and the dedup set after it. */
  datatype Found = Found(out: seq<Item>, seen: set<int>)

  /** The leaf loop of `retrieve`: keep each overlapping item whose id has not
      been seen, and mark its id. */
  function RetrieveLeaf(items: seq<Item>, q: Rect, seen: set<int>): Found
  {
    if items == [] then Found([], seen)
    else
      var c := items[0];
      if Overlaps(q, c) && c.id !in seen then
        var rest := RetrieveLeaf(items[1..], q, seen + {c.id});
        Found([c] + rest.out, rest.seen)
      else
        RetrieveLeaf(items[1..], q, seen)
  }

  /** The leaf loop reports only overlapping items of the leaf, each id once
      and none seen before, marks exactly what it reports, and leaves no
      overlapping item of the leaf unmarked. */
  lemma {:induction false} RetrieveLeafSound(items: seq<Item>, q: Rect, seen: set<int>)
    ensures var r := RetrieveLeaf(items, q, seen);
      && (forall i :: 0 <= i < |r.out| ==> r.out[i] in items && Overlaps(q, r.out[i]))
      && FreshFrom(r.out, seen) && r.seen == seen + Ids(r.out)
      && (forall c :: c in items && Overlaps(q, c) ==> c.id in r.seen)
  {
    if items != [] {
      var c := items[0];
      if Overlaps(q, c) && c.id !in seen {
        RetrieveLeafSound(items[1..], q, seen + {c.id});
        assert [c][0] == c;
        assert Ids([c]) == {c.id};
        var rest := RetrieveLeaf(items[1..], q, seen + {c.id});
        FreshConcat([c], rest.out, seen);
      } else {
        RetrieveLeafSound(items[1..], q, seen);
      }
    }
  }

  /** `QNode.retrieve`: visit, in index order, every child the quadrant test
      of the query names; at the leaves run the leaf loop. */
  function Retrieve(n: Node, q: Rect, seen: set<int>): Found
  {
    match n
    case Leaf(_, items) => RetrieveLeaf(items, q, seen)
    case Internal(m, tl, tr, bl, br) =>
      var ks := FindIndices(m.bounds, q);
      var r1 := if TL in ks then Retrieve(tl, q, seen) else Found([], seen);
      var r2 := if TR in ks then Retrieve(tr, q, r1.seen) else Found([], r1.seen);
      var r3 := if BL in ks then Retrieve(bl, q, r2.seen) else Found([], r2.seen);
      var r4 := if BR in ks then Retrieve(br, q, r3.seen) else Found([], r3.seen);
      Found(r1.out + r2.out + r3.out + r4.out, r4.seen)
  }

  /** A partial result `r` of a query started from the dedup set `seen`:
      only items of `pool` that overlap the query, each id once and none seen
      before, and exactly the reported ids marked. */
  ghost predicate Reports(pool: set<Item>, q: Rect, seen: set<int>, r: Found)
  {
    && (forall i :: 0 <= i < |r.out| ==> r.out[i] in pool && Overlaps(q, r.out[i]))
    && FreshFrom(r.out, seen) && r.seen == seen + Ids(r.out)
  }

  /** Two partial results, the second started where the first stopped. */
  lemma ReportsConcat(pool: set<Item>, q: Rect, seen: set<int>, a: Found, b: Found)
    requires Reports(pool, q, seen, a) && Reports(pool, q, a.seen, b)
    ensures Reports(pool, q, seen, Found(a.out + b.out, b.seen))
  {
    FreshConcat(a.out, b.out, seen);
    var ab := a.out + b.out;
    forall i | 0 <= i < |ab| ensures ab[i] in pool && Overlaps(q, ab[i]) {
      if i >= |a.out| { assert ab[i] == b.out[i - |a.out|]; }
    }
  }

  /** A child's result is a result of its parent too. */
  lemma ReportsWiden(pool: set<Item>, pool': set<Item>, q: Rect, seen: set<int>, r: Found)
    requires Reports(pool, q, seen, r) && pool <= pool'
    ensures Reports(pool', q, seen, r)
  {
  }

  /** One step of the loop over the quadrant indices in the proof. */
  lemma ChildReports(n: Node, ch: Node, named: bool, q: Rect, seen: set<int>)
    requires Stored(ch) <= Stored(n)
    requires named ==> Reports(Stored(ch), q, seen, Retrieve(ch, q, seen))
    ensures Reports(Stored(n), q, seen, if named then Retrieve(ch, q, seen) else Found([], seen))
  {
    if named {
      ReportsWiden(Stored(ch), Stored(n), q, seen, Retrieve(ch, q, seen));
    } else {
      assert Ids([]) == {};
    }
  }

  /** The range query reports only stored items that overlap the query, each
      id once and none seen before, and marks exactly the ids it reports. */
  lemma {:induction false} RetrieveSound(n: Node, q: Rect, seen: set<int>)
    ensures Reports(Stored(n), q, seen, Retrieve(n, q, seen))
  {
    match n
    case Leaf(_, items) =>
      RetrieveLeafSound(items, q, seen);
    case Internal(m, tl, tr, bl, br) =>
      var ks := FindIndices(m.bounds, q);
      var r1 := if TL in ks then Retrieve(tl, q, seen) else Found([], seen);
      var r2 := if TR in ks then Retrieve(tr, q, r1.seen) else Found([], r1.seen);
      var r3 := if BL in ks then Retrieve(bl, q, r2.seen) else Found([], r2.seen);
      var r4 := if BR in ks then Retrieve(br, q, r3.seen) else Found([], r3.seen);
      if TL in ks { RetrieveSound(tl, q, seen); }
      if TR in ks { RetrieveSound(tr, q, r1.seen); }
      if BL in ks { RetrieveSound(bl, q, r2.seen); }
      if BR in ks { RetrieveSound(br, q, r3.seen); }
      ChildReports(n, tl, TL in ks, q, seen);
      ChildReports(n, tr, TR in ks, q, r1.seen);
      ChildReports(n, bl, BL in ks, q, r2.seen);
      ChildReports(n, br, BR in ks, q, r3.seen);
      var s12 := Found(r1.out + r2.out, r2.seen);
      ReportsConcat(Stored(n), q, seen, r1, r2);
      var s123 := Found(s12.out + r3.out, r3.seen);
      ReportsConcat(Stored(n), q, seen, s12, r3);
      ReportsConcat(Stored(n), q, seen, s123, r4);
  }

  /** The range query misses nothing: every stored item that overlaps the
      query has its id in the dedup set afterwards. */
  lemma {:induction false} RetrieveComplete(n: Node, q: Rect, seen: set<int>)
    requires Placed(n)
    ensures forall c :: c in Stored(n) && Overlaps(q, c) ==> c.id in Retrieve(n, q, seen).seen
  {
    match n
    case Leaf(_, items) =>
      RetrieveLeafSound(items, q, seen);
    case Internal(m, tl, tr, bl, br) =>
      var ks := FindIndices(m.bounds, q);
      var r1 := if TL in ks then Retrieve(tl, q, seen) else Found([], seen);
      var r2 := if TR in ks then Retrieve(tr, q, r1.seen) else Found([], r1.seen);
      var r3 := if BL in ks then Retrieve(bl, q, r2.seen) else Found([], r2.seen);
      var r4 := if BR in ks then Retrieve(br, q, r3.seen) else Found([], r3.seen);
      assert r4.seen == Retrieve(n, q, seen).seen;
      if TL in ks { RetrieveSound(tl, q, seen); }
      if TR in ks { RetrieveSound(tr, q, r1.seen); }
      if BL in ks { RetrieveSound(bl, q, r2.seen); }
      if BR in ks { RetrieveSound(br, q, r3.seen); }
      assert r1.seen <= r2.seen <= r3.seen <= r4.seen;
      if TL in ks { RetrieveComplete(tl, q, seen); }
      if TR in ks { RetrieveComplete(tr, q, r1.seen); }
      if BL in ks { RetrieveComplete(bl, q, r2.seen); }
      if BR in ks { RetrieveComplete(br, q, r3.seen); }
      var all := Stored(n);
      assert SortsInto(m.bounds, TL, tl, all) && SortsInto(m.bounds, TR, tr, all);
      assert SortsInto(m.bounds, BL, bl, all) && SortsInto(m.bounds, BR, br, all);
      forall c | c in all && Overlaps(q, c) ensures c.id in r4.seen {
        var k := CommonQuadrant(m.bounds, q, c);
        match k
        case TL => assert c.id in r1.seen;
        case TR => assert c.id in r2.seen;
        case BL => assert c.id in r3.seen;
        case BR => assert c.id in r4.seen;
      }
  }

  /** The whole query from a fresh list and dedup set, as `QuadTree.retrieve`
      issues it: exactly the stored items that overlap the query, one per id. */
  lemma RetrieveExact(n: Node, q: Rect)
    requires Placed(n)
    ensures var r := Retrieve(n, q, {}).out;
      && DistinctIds(r)
      && (forall i :: 0 <= i < |r| ==> r[i] in Stored(n) && Overlaps(q, r[i]))
      && Ids(r) == set c | c in Stored(n) && Overlaps(q, c) :: c.id
  {
    RetrieveSound(n, q, {});
    RetrieveComplete(n, q, {});
  }

  /** A leaf whose items all overlap the query and carry distinct ids none
      of which was seen reports its whole list, in order. */
  lemma {:induction false} RetrieveLeafAll(items: seq<Item>, q: Rect, seen: set<int>)
    requires DistinctIds(items)
    requires forall i :: 0 <= i < |items| ==> Overlaps(q, items[i]) && items[i].id !in seen
    ensures RetrieveLeaf(items, q, seen).out == items
  {
    if items != [] {
      forall i | 0 <= i < |items| - 1 ensures items[1..][i].id !in seen + {items[0].id} {
        assert items[1..][i] == items[i + 1];
      }
      RetrieveLeafAll(items[1..], q, seen + {items[0].id});
      assert [items[0]] + items[1..] == items;
    }
  }

  /** A leaf whose items all overlap the query ends with all their ids marked;
      once they are all marked, it reports nothing. */
  lemma RetrieveLeafMarks(items: seq<Item>, q: Rect, seen: set<int>)
    requires forall c :: c in items ==> Overlaps(q, c)
    ensures RetrieveLeaf(items, q, seen).seen == seen + Ids(items)
    ensures Ids(items) <= seen ==> RetrieveLeaf(items, q, seen) == Found([], seen)
  {
    RetrieveLeafSound(items, q, seen);
    var r := RetrieveLeaf(items, q, seen);
    forall v | v in Ids(r.out) ensures v in Ids(items) {
      var i :| 0 <= i < |r.out| && r.out[i].id == v;
      var j :| 0 <= j < |items| && items[j] == r.out[i];
    }
    forall v | v in Ids(items) ensures v in r.seen {
      var j :| 0 <= j < |items| && items[j].id == v;
      assert items[j] in items;
    }
  }

  /** In a tree whose leaves all hold the same list, of items that all
      overlap the query, the range query reports what one leaf does: the
      first leaf it reaches marks every id, and the later ones add nothing. */
  lemma {:induction false} UniformRetrieve(n: Node, items: seq<Item>, q: Rect, seen: set<int>)
    requires Uniform(n, items)
    requires forall c :: c in items ==> Overlaps(q, c)
    ensures Retrieve(n, q, seen) == RetrieveLeaf(items, q, seen)
    decreases n, 0
  {
    match n
    case Leaf(_, _) =>
    case Internal(m, tl, tr, bl, br) =>
      var ks := FindIndices(m.bounds, q);
      var one := RetrieveLeaf(items, q, seen);
      var r1 := if TL in ks then Retrieve(tl, q, seen) else Found([], seen);
      var r2 := if TR in ks then Retrieve(tr, q, r1.seen) else Found([], r1.seen);
      var r3 := if BL in ks then Retrieve(bl, q, r2.seen) else Found([], r2.seen);
      var r4 := if BR in ks then Retrieve(br, q, r3.seen) else Found([], r3.seen);
      UniformStep(tl, TL in ks, items, q, seen, [], seen);
      assert [] + r1.out == r1.out;
      UniformStep(tr, TR in ks, items, q, seen, r1.out, r1.seen);
      UniformStep(bl, BL in ks, items, q, seen, r1.out + r2.out, r2.seen);
      UniformStep(br, BR in ks, items, q, seen, r1.out + r2.out + r3.out, r3.seen);
      assert Retrieve(n, q, seen) == Found(r1.out + r2.out + r3.out + r4.out, r4.seen);
  }

  /** One child in the range query over such a tree: before the first leaf
      nothing is reported or marked, after it exactly what that leaf
      reports; a child the query names moves to the second state. */
  lemma {:induction false} UniformStep(ch: Node, named: bool, items: seq<Item>, q: Rect, seen: set<int>,
                                       acc: seq<Item>, s: set<int>)
    requires Uniform(ch, items)
    requires forall c :: c in items ==> Overlaps(q, c)
    requires var one := RetrieveLeaf(items, q, seen);
      (acc == [] && s == seen) || (acc == one.out && s == one.seen)
    ensures var one := RetrieveLeaf(items, q, seen);
      var next := if named then Retrieve(ch, q, s) else Found([], s);
      && ((acc + next.out == [] && next.seen == seen) || (acc + next.out == one.out && next.seen == one.seen))
      && (named ==> acc + next.out == one.out && next.seen == one.seen)
    decreases ch, 1
  {
    var one := RetrieveLeaf(items, q, seen);
    RetrieveLeafMarks(items, q, seen);
    RetrieveLeafMarks(items, q, one.seen);
    assert acc + [] == acc;
    if named {
      UniformRetrieve(ch, items, q, s);
    }
  }

  /** From a fresh dedup set, such a tree answers a query that meets all
      its items with the shared list itself, in insertion order. */
  lemma UniformAnswer(n: Node, items: seq<Item>, q: Rect)
    requires Uniform(n, items) && DistinctIds(items)
    requires forall c :: c in items ==> Overlaps(q, c)
    ensures Retrieve(n, q, {}).out == items
  {
    UniformRetrieve(n, items, q, {});
    RetrieveLeafAll(items, q, {});
  }

  /** The leaf loop as the source runs it. */
  method RetrieveLeafLoop(items: seq<Item>, q: Rect, ar: seq<Item>, seen: set<int>)
    returns (ar': seq<Item>, seen': set<int>)
    ensures ar' == ar + RetrieveLeaf(items, q, seen).out
    ensures seen' == RetrieveLeaf(items, q, seen).seen
  {
    ar', seen' := ar, seen;
    var ci := 0;
    while ci < |items|
      invariant 0 <= ci <= |items|
      invariant ar' + RetrieveLeaf(items[ci..], q, seen').out == ar + RetrieveLeaf(items, q, seen).out
      invariant RetrieveLeaf(items[ci..], q, seen').seen == RetrieveLeaf(items, q, seen).seen
    {
      var c := items[ci];
      assert items[ci..][1..] == items[ci + 1..];
      if Overlaps(q, c) && c.id !in seen' {
        seen' := seen' + {c.id};
        ar' := ar' + [c];
      }
      ci := ci + 1;
    }
  }

  /** The step of the loop over the quadrant indices: recurse into one child
      if the quadrant test named it. */
  method RetrieveChild(ch: Node, named: bool, q: Rect, ar: seq<Item>, seen: set<int>)
    returns (ar': seq<Item>, seen': set<int>)
    ensures var r := if named then Retrieve(ch, q, seen) else Found([], seen);
      ar' == ar + r.out && seen' == r.seen
    decreases ch, 1
  {
    if named {
      ar', seen' := RetrieveNode(ch, q, ar, seen);
    } else {
      ar', seen' := ar, seen;
    }
  }

  /** `QNode.retrieve(item, ar, deduper)`: appends to `ar`, updates the set. */
  method RetrieveNode(n: Node, q: Rect, ar: seq<Item>, seen: set<int>)
    returns (ar': seq<Item>, seen': set<int>)
    ensures ar' == ar + Retrieve(n, q, seen).out
    ensures seen' == Retrieve(n, q, seen).seen
    decreases n, 0
  {
    match n
    case Leaf(_, items) =>
      ar', seen' := RetrieveLeafLoop(items, q, ar, seen);
    case Internal(m, tl, tr, bl, br) =>
      var ks := FindIndices(m.bounds, q);
      ghost var r1 := if TL in ks then Retrieve(tl, q, seen) else Found([], seen);
      ar', seen' := RetrieveChild(tl, TL in ks, q, ar, seen);
      ghost var r2 := if TR in ks then Retrieve(tr, q, r1.seen) else Found([], r1.seen);
      ar', seen' := RetrieveChild(tr, TR in ks, q, ar', seen');
      ghost var r3 := if BL in ks then Retrieve(bl, q, r2.seen) else Found([], r2.seen);
      ar', seen' := RetrieveChild(bl, BL in ks, q, ar', seen');
      ghost var r4 := if BR in ks then Retrieve(br, q, r3.seen) else Found([], r3.seen);
      ar', seen' := RetrieveChild(br, BR in ks, q, ar', seen');
      Regroup(ar, r1.out, r2.out, r3.out, r4.out);
      assert Retrieve(n, q, seen) == Found(r1.out + r2.out + r3.out + r4.out, r4.seen);
  }

  /** Appending four results one by one appends their concatenation. */
  lemma Regroup(ar: seq<Item>, a: seq<Item>, b: seq<Item>, c: seq<Item>, d: seq<Item>)
    ensures ar + a + b + c + d == ar + (a + b + c + d)
  {
  }
}
