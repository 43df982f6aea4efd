/**
 * The scenarios of the quadtree's unit tests whose expectations agree with
 * the code, run against the model: each builds a tree through the facade,
 * queries it, and states what the test expects.
 */
module Scenarios {
  import opened Geometry
  import opened QNodes
  import opened Retrieval
  import opened Sorting
  import opened Sweeps
  import opened QuadTrees

  /** The 100 x 100 bounds most tests use. */
  const Page := Bounds(0.0, 0.0, 100.0, 100.0)

  /** A query rectangle with finite extents, as the tests write them. */
  function Probe(x: real, y: real, w: real, h: real): Rect
  {
    Rect(x, y, Finite(w), Finite(h))
  }

  /** A range query over a single overlapping item returns just that item. */
  lemma OnlyFound(r: seq<Item>, c: Item)
    requires forall i :: 0 <= i < |r| ==> r[i] == c
    requires Ids(r) == {c.id} && DistinctIds(r)
    ensures r == [c]
  {
    assert c.id in Ids(r);
    assert |r| >= 1;
    assert |r| > 1 ==> r[0].id == r[1].id;
  }

  /** `new QuadTree(bounds)`: no items, and every probe returns nothing. */
  method EmptyTree() returns (len: nat, r1: seq<Item>, r2: seq<Item>, r3: seq<Item>, r4: seq<Item>)
    ensures len == 0 && r1 == [] && r2 == [] && r3 == [] && r4 == []
  {
    var quad := new QuadTree(Page, 0, 0);
    len := quad.length;
    r1 := quad.Retrieve(Probe(5.0, 5.0, 1.0, 1.0));
    NothingFound(r1);
    r2 := quad.Retrieve(Probe(55.0, 5.0, 1.0, 1.0));
    NothingFound(r2);
    r3 := quad.Retrieve(Probe(5.0, 55.0, 1.0, 1.0));
    NothingFound(r3);
    r4 := quad.Retrieve(Probe(55.0, 55.0, 1.0, 1.0));
    NothingFound(r4);
  }

  /** The ids of a non-empty list: its head's and its tail's. */
  lemma IdsCons(r: seq<Item>)
    requires r != []
    ensures Ids(r) == {r[0].id} + Ids(r[1..])
    ensures DistinctIds(r) ==> r[0].id !in Ids(r[1..])
  {
    forall v ensures v in Ids(r) <==> v in {r[0].id} + Ids(r[1..]) {
      if v in Ids(r) {
        var i :| 0 <= i < |r| && r[i].id == v;
        if i > 0 { assert r[1..][i - 1] == r[i]; }
      }
      if v in Ids(r[1..]) {
        var i :| 0 <= i < |r[1..]| && r[1..][i].id == v;
        assert r[1 + i] == r[1..][i];
      }
    }
    forall i | 0 <= i < |r[1..]| ensures r[1..][i] == r[1 + i] { }
  }

  /** Distinct ids: as many ids as items. */
  lemma {:induction false} DistinctCount(r: seq<Item>)
    requires DistinctIds(r)
    ensures |Ids(r)| == |r|
  {
    if r != [] {
      DistinctCount(r[1..]);
      IdsCons(r);
    }
  }

  /** Probing the tree that holds exactly `c`. */
  method ProbeOne(quad: QuadTree, q: Rect, c: Item) returns (r: seq<Item>)
    requires quad.Valid() && quad.Contents == [c]
    ensures Overlaps(q, c) ==> r == [c]
    ensures !Overlaps(q, c) ==> r == []
  {
    r := quad.Retrieve(q);
    NothingFound(r);
    if Overlaps(q, c) {
      assert (set e | e in quad.Contents && Overlaps(q, e) :: e.id) == {c.id};
      OnlyFound(r, c);
    } else {
      assert (set e | e in quad.Contents && Overlaps(q, e) :: e.id) == {};
    }
  }

  /** The item of the one-item tests. */
  const Big := Item(0, 2.0, 2.0, 96.0, 96.0)

  /** The probes that find the one item: the four interior probes, the four
      just inside its corners, and one just over its top-left corner. */
  const HitProbes := [
    Probe(5.0, 5.0, 1.0, 1.0), Probe(55.0, 5.0, 1.0, 1.0),
    Probe(5.0, 55.0, 1.0, 1.0), Probe(55.0, 55.0, 1.0, 1.0),
    Probe(2.0, 2.0, 5.0, 5.0), Probe(2.0, 94.0, 5.0, 5.0),
    Probe(94.0, 2.0, 5.0, 5.0), Probe(94.0, 94.0, 5.0, 5.0),
    Probe(1.01, 1.01, 1.0, 1.0)]

  /** The half-unit probes outside it, at its corners and beside its sides. */
  const MissProbes := [
    Probe(1.0, 1.0, 0.5, 0.5), Probe(1.0, 99.0, 0.5, 0.5),
    Probe(99.0, 1.0, 0.5, 0.5), Probe(99.0, 99.0, 0.5, 0.5),
    Probe(50.0, 1.0, 0.5, 0.5), Probe(50.0, 99.0, 0.5, 0.5),
    Probe(1.0, 50.0, 0.5, 0.5), Probe(99.0, 50.0, 0.5, 0.5)]

  /** One item (2, 2, 96, 96): the count is 1, every hit probe returns the
      item and every miss probe returns nothing. */
  method SingleItem() returns (len: nat, hits: seq<seq<Item>>, misses: seq<seq<Item>>)
    ensures len == 1
    ensures |hits| == |HitProbes| && forall i :: 0 <= i < |hits| ==> hits[i] == [Big]
    ensures |misses| == |MissProbes| && forall i :: 0 <= i < |misses| ==> misses[i] == []
  {
    var quad := new QuadTree(Page, 0, 0);
    quad.Insert(Big);
    len := quad.length;
    hits := [];
    for i := 0 to |HitProbes|
      invariant quad.Valid() && quad.Contents == [Big]
      invariant |hits| == i && forall j :: 0 <= j < i ==> hits[j] == [Big]
    {
      var r := ProbeOne(quad, HitProbes[i], Big);
      hits := hits + [r];
    }
    misses := [];
    for i := 0 to |MissProbes|
      invariant quad.Valid() && quad.Contents == [Big]
      invariant |misses| == i && forall j :: 0 <= j < i ==> misses[j] == []
    {
      var r := ProbeOne(quad, MissProbes[i], Big);
      misses := misses + [r];
    }
  }

  /** Nine copies of the big item with ids 0 to 8. */
  function Copies(): (s: seq<Item>)
    ensures |s| == 9 && forall i :: 0 <= i < 9 ==> s[i] == Item(i, 2.0, 2.0, 96.0, 96.0)
  {
    seq(9, i => Item(i, 2.0, 2.0, 96.0, 96.0))
  }

  /** Nine identical items inserted as one array: the count is 9, each
      interior probe returns the nine items themselves, in insertion order,
      and each of the four corner probes outside them returns nothing. */
  method RepeatedItems() returns (len: nat, found: seq<seq<Item>>, missed: seq<seq<Item>>)
    ensures len == 9
    ensures |found| == 4
    ensures forall k :: 0 <= k < 4 ==> found[k] == Copies()
    ensures |missed| == 4
    ensures forall k :: 0 <= k < 4 ==> missed[k] == []
  {
    CopiesShape();
    var quad := FillPage(Copies());
    len := quad.length;
    found := [];
    for k := 0 to 4
      invariant quad.Valid() && quad.Contents == Copies() && Uniform(quad.root, Copies())
      invariant |found| == k
      invariant forall j :: 0 <= j < k ==> found[j] == Copies()
    {
      var q := HitProbes[k];
      var r := quad.Retrieve(q);
      assert Overlaps(q, Big);
      CopiesInOrder(quad.root, q);
      found := found + [r];
    }
    missed := MissCopies(quad);
  }

  /** The four corner probes outside the big item find none of its copies. */
  method MissCopies(quad: QuadTree) returns (missed: seq<seq<Item>>)
    requires quad.Valid() && quad.Contents == Copies()
    ensures |missed| == 4
    ensures forall k :: 0 <= k < 4 ==> missed[k] == []
  {
    missed := [];
    for k := 0 to 4
      invariant |missed| == k
      invariant forall j :: 0 <= j < k ==> missed[j] == []
    {
      var q := MissProbes[k];
      var r := quad.Retrieve(q);
      assert !Overlaps(q, Big);
      assert (set c | c in quad.Contents && Overlaps(q, c) :: c.id) == {};
      NothingFound(r);
      missed := missed + [r];
    }
  }

  /** `new QuadTree(bounds)` with the default limits, then `insert(items)`
      with the whole array. */
  method NewTree(b: Bounds, cs: seq<Item>) returns (quad: QuadTree)
    requires forall c :: c in cs ==> ValidItem(c)
    ensures fresh(quad) && quad.Valid()
    ensures quad.Contents == cs && quad.length == |cs|
    ensures quad.root.meta == Meta(b, 0, 4, 4)
  {
    quad := new QuadTree(b, 0, 0);
    quad.InsertAll(cs);
  }

  /** A fresh page tree with the default limits, filled with items that all
      have the big item's rectangle, passed as one array: every leaf holds
      them all, in order. */
  method FillPage(cs: seq<Item>) returns (quad: QuadTree)
    requires forall c :: c in cs ==> c.AsRect() == Big.AsRect()
    ensures fresh(quad) && quad.Valid()
    ensures quad.Contents == cs && quad.length == |cs|
    ensures Uniform(quad.root, cs)
  {
    quad := new QuadTree(Page, 0, 0);
    assert forall c :: c in cs ==> ValidItem(c);
    ghost var empty := quad.root;
    quad.InsertAll(cs);
    SameRectEverywhere(empty, quad.root, cs);
  }

  lemma CopiesShape()
    ensures forall c :: c in Copies() ==> c.AsRect() == Big.AsRect()
  {
  }

  /** The largest and the least side a node of the page tree can have at
      each depth above the limit of 4: the page halved and floored. */
  function MinSide(depth: nat): real
  {
    if depth == 0 then 100.0 else if depth == 1 then 50.0
    else if depth == 2 then 25.0 else if depth == 3 then 12.0 else 0.0
  }

  /** A node a page tree with a depth limit of 4 can hold: it lies inside
      the page and, above the limit, is at least `MinSide` wide and high. */
  ghost predicate PageNode(m: Meta)
  {
    && m.maxDepth == 4 && m.depth <= 4
    && 0.0 <= m.bounds.x && m.bounds.x + m.bounds.w <= 100.0 && MinSide(m.depth) <= m.bounds.w
    && 0.0 <= m.bounds.y && m.bounds.y + m.bounds.h <= 100.0 && MinSide(m.depth) <= m.bounds.h
  }

  /** `subdivide` keeps a page node's children page nodes. */
  lemma ChildPageNode(m: Meta, k: Quadrant)
    requires PageNode(m) && m.depth < 4
    ensures PageNode(ChildMeta(m, k))
  {
    var b := m.bounds;
    assert Trunc(b.w / 2.0) >= 0 && Trunc(b.h / 2.0) >= 0;
  }

  /** Above the limit a page node is at least 12 wide and high, so its
      centre is at least 6 from each page edge, inside the big item's 2..98
      span: the big item goes to all four quadrants. */
  lemma BigAtCentre(m: Meta)
    requires PageNode(m) && m.depth < 4
    ensures FindIndices(m.bounds, Big.AsRect()) == {TL, TR, BL, BR}
  {
  }

  /** The big item straddles the centre of every node a page tree with a
      depth limit of 4 can split into. */
  lemma {:induction false} BigStraddles(m: Meta)
    requires PageNode(m)
    ensures DeepStraddle(m, Big.AsRect())
    decreases 4 - m.depth
  {
    if m.depth < 4 {
      BigAtCentre(m);
      ChildPageNode(m, TL);
      ChildPageNode(m, TR);
      ChildPageNode(m, BL);
      ChildPageNode(m, BR);
      BigStraddles(ChildMeta(m, TL));
      BigStraddles(ChildMeta(m, TR));
      BigStraddles(ChildMeta(m, BL));
      BigStraddles(ChildMeta(m, BR));
    }
  }

  /** Every leaf of a page tree built from items that all have the big
      item's rectangle holds them all, in insertion order: each straddles
      every centre, so each insert and each re-insert after a split reaches
      every leaf. */
  lemma SameRectEverywhere(empty: Node, root: Node, cs: seq<Item>)
    requires empty.Leaf? && empty.items == [] && empty.meta.depth == 0 && empty.meta.maxDepth == 4 && empty.meta.maxChildren >= 1
    requires var b := empty.meta.bounds;
      0.0 <= b.x && b.x + b.w <= 100.0 && 100.0 <= b.w && 0.0 <= b.y && b.y + b.h <= 100.0 && 100.0 <= b.h
    requires root == InsertSeq(empty, cs)
    requires forall c :: c in cs ==> c.AsRect() == Big.AsRect()
    ensures Uniform(root, cs)
  {
    BigStraddles(empty.meta);
    assert [] + cs == cs;
    InsertSeqUniform(empty, [], cs, Big.AsRect());
  }

  /** A probe that meets the big item finds the nine copies, in order. */
  lemma CopiesInOrder(root: Node, q: Rect)
    requires Uniform(root, Copies()) && Overlaps(q, Big)
    ensures Retrieve(root, q, {}).out == Copies()
  {
    assert DistinctIds(Copies());
    UniformAnswer(root, Copies(), q);
  }

  /** Items strictly increasing in `key`. */
  ghost predicate Ascending(items: seq<Item>, key: Item -> real)
  {
    forall i, j :: 0 <= i < j < |items| ==> key(items[i]) < key(items[j])
  }

  /** A sorted list drawn from `items` that reports each of their ids once
      is `items` itself, when their keys strictly increase. */
  lemma {:induction false} ForcedOrder(out: seq<Item>, items: seq<Item>, key: Item -> real)
    requires forall i :: 0 <= i < |out| ==> out[i] in items
    requires Ids(out) == Ids(items)
    requires DistinctIds(out) && DistinctIds(items)
    requires SortedBy(out, key) && Ascending(items, key)
    ensures out == items
  {
    NothingFound(out);
    NothingFound(items);
    if items != [] {
      ForcedHead(out, items, key);
      ForcedTail(out, items);
      ForcedOrder(out[1..], items[1..], key);
    }
  }

  /** The first item of such a list is the first of `items`: it has the
      least key among them. */
  lemma ForcedHead(out: seq<Item>, items: seq<Item>, key: Item -> real)
    requires forall i :: 0 <= i < |out| ==> out[i] in items
    requires Ids(out) == Ids(items) && items != []
    requires DistinctIds(items)
    requires SortedBy(out, key) && Ascending(items, key)
    ensures out != [] && out[0] == items[0]
  {
    var m := items[0];
    assert m.id in Ids(items);
    var k :| 0 <= k < |out| && out[k].id == m.id;
    var j :| 0 <= j < |items| && items[j] == out[k];
    assert j == 0;
    var j0 :| 0 <= j0 < |items| && items[j0] == out[0];
    assert key(out[0]) <= key(out[k]);
    assert j0 == 0;
  }

  /** With the heads matched, the rest of the list is drawn from the rest
      of `items` and reports exactly their ids. */
  lemma ForcedTail(out: seq<Item>, items: seq<Item>)
    requires forall i :: 0 <= i < |out| ==> out[i] in items
    requires Ids(out) == Ids(items)
    requires DistinctIds(out) && DistinctIds(items)
    requires out != [] && items != [] && out[0] == items[0]
    ensures forall i :: 0 <= i < |out[1..]| ==> out[1..][i] in items[1..]
    ensures Ids(out[1..]) == Ids(items[1..])
  {
    IdsCons(out);
    IdsCons(items);
    forall i | 0 <= i < |out[1..]| ensures out[1..][i] in items[1..] {
      assert out[1..][i] == out[1 + i];
      var t :| 0 <= t < |items| && items[t] == out[1 + i];
      assert out[1 + i].id != out[0].id;
      assert items[1..][t - 1] == items[t];
    }
  }

  /** A list drawn from `items` that reports every id of `items` has
      exactly their ids. */
  lemma SameIds(out: seq<Item>, items: seq<Item>)
    requires forall i :: 0 <= i < |out| ==> out[i] in items
    requires forall c :: c in items ==> c.id in Ids(out)
    ensures Ids(out) == Ids(items)
  {
    forall v | v in Ids(items) ensures v in Ids(out) {
      var i :| 0 <= i < |items| && items[i].id == v;
      assert items[i] in items;
    }
    forall v | v in Ids(out) ensures v in Ids(items) {
      var i :| 0 <= i < |out| && out[i].id == v;
      var j :| 0 <= j < |items| && items[j] == out[i];
    }
  }

  /** A complete sorted sweep whose overlapping items are exactly `items`
      delivers `items` in their order. */
  lemma SweepOrder(out: seq<Item>, contents: seq<Item>, q: Rect, items: seq<Item>, key: Item -> real)
    requires DistinctIds(out) && SortedBy(out, key)
    requires forall i :: 0 <= i < |out| ==> out[i] in contents && Overlaps(q, out[i])
    requires Ids(out) == set c | c in contents && Overlaps(q, c) :: c.id
    requires forall c :: c in items ==> c in contents && Overlaps(q, c)
    requires forall c :: c in contents && Overlaps(q, c) ==> c in items
    requires DistinctIds(items) && Ascending(items, key)
    ensures out == items
  {
    assert Ids(out) == Ids(items) by {
      forall v | v in Ids(items) ensures v in Ids(out) {
        var i :| 0 <= i < |items| && items[i].id == v;
        assert items[i] in items;
      }
      forall v | v in Ids(out) ensures v in Ids(items) {
        var c :| c in contents && Overlaps(q, c) && c.id == v;
        var i :| 0 <= i < |items| && items[i] == c;
      }
    }
    ForcedOrder(out, items, key);
  }

  /** The row of the x-iteration tests: ids 0 to 5 at x = 2, 4, ..., 12. */
  const Row := [
    Item(0, 2.0, 49.0, 2.0, 2.0), Item(1, 4.0, 49.0, 2.0, 2.0),
    Item(2, 6.0, 49.0, 2.0, 2.0), Item(3, 8.0, 49.0, 2.0, 2.0),
    Item(4, 10.0, 49.0, 2.0, 2.0), Item(5, 12.0, 49.0, 2.0, 2.0)]

  /** The column of the y-iteration tests: ids 0 to 5 at y = 2, 4, ..., 12. */
  const Column := [
    Item(0, 49.0, 2.0, 2.0, 2.0), Item(1, 49.0, 4.0, 2.0, 2.0),
    Item(2, 49.0, 6.0, 2.0, 2.0), Item(3, 49.0, 8.0, 2.0, 2.0),
    Item(4, 49.0, 10.0, 2.0, 2.0), Item(5, 49.0, 12.0, 2.0, 2.0)]

  /** The twenty unit items the tests add near the top-left diagonal and
      the twenty near the bottom-right; ids start at `base`. Along the
      sweep's axis the items step by 5; across it they step by 5/20. The
      far items start from 99 along the axis, and across it from 98 for
      the row tests and from 99 for the column tests. */
  function Scatter(base: int, swap: bool, far: bool): (s: seq<Item>)
    ensures |s| == 20 && forall c :: c in s ==> ValidItem(c)
  {
    var along := if far then 99.0 else 0.0;
    var across := if far && swap then 99.0 else if far then 98.0 else 0.0;
    var sign := if far then -1.0 else 1.0;
    seq(20, i =>
      var a := along + sign * (5 * i) as real;
      var b := across + sign * ((5 * i) as real / 20.0);
      if swap then Item(base + i, b, a, 1.0, 1.0) else Item(base + i, a, b, 1.0, 1.0))
  }

  /** The test's own coordinates for each of the four scatters. */
  lemma ScatterAsWritten(base: int, i: nat)
    requires i < 20
    ensures Scatter(base, false, false)[i] == Item(base + i, (5 * i) as real, (5 * i) as real / 20.0, 1.0, 1.0)
    ensures Scatter(base, false, true)[i] == Item(base + i, 99.0 - (5 * i) as real, 98.0 - (5 * i) as real / 20.0, 1.0, 1.0)
    ensures Scatter(base, true, false)[i] == Item(base + i, (5 * i) as real / 20.0, (5 * i) as real, 1.0, 1.0)
    ensures Scatter(base, true, true)[i] == Item(base + i, 99.0 - (5 * i) as real / 20.0, 99.0 - (5 * i) as real, 1.0, 1.0)
  {
  }

  /** The row's ids are distinct and its x positions increase. */
  lemma RowShape()
    ensures DistinctIds(Row) && Ascending(Row, KeyOf(XInc))
  {
    forall i | 0 <= i < |Row|
      ensures Row[i].id == i && KeyOf(XInc)(Row[i]) == 2.0 * (i + 1) as real
    {
    }
  }

  /** The column's ids are distinct and its y positions increase. */
  lemma ColumnShape()
    ensures DistinctIds(Column) && Ascending(Column, KeyOf(YInc))
  {
    forall i | 0 <= i < |Column|
      ensures Column[i].id == i && KeyOf(YInc)(Column[i]) == 2.0 * (i + 1) as real
    {
    }
  }

  /** Of a list that starts with the row and goes on away from the band
      49 <= y <= 49 + h, exactly the row meets the `retrieve_xinc` query. */
  lemma RowBand(contents: seq<Item>, h: real)
    requires 0.0 <= h <= 5.0
    requires |contents| >= |Row| && contents[..|Row|] == Row
    requires forall c :: c in contents[|Row|..] ==> c.y + c.h < 49.0 || c.y > 54.0
    ensures var q := Rect(0.0, 49.0, Inf, Finite(h));
      && (forall c :: c in Row ==> c in contents && Overlaps(q, c))
      && (forall c :: c in contents && Overlaps(q, c) ==> c in Row)
  {
    var q := Rect(0.0, 49.0, Inf, Finite(h));
    forall c | c in Row ensures c in contents && Overlaps(q, c) {
      var i :| 0 <= i < |Row| && Row[i] == c;
      assert contents[..|Row|][i] == contents[i];
    }
    forall j | |Row| <= j < |contents| ensures contents[j] in contents[|Row|..] {
      assert contents[|Row|..][j - |Row|] == contents[j];
    }
    forall c | c in contents && Overlaps(q, c) ensures c in Row {
      var i :| 0 <= i < |contents| && contents[i] == c;
      assert i < |Row|;
      assert contents[..|Row|][i] == contents[i];
    }
  }

  /** Of a list that starts with the column and goes on away from the band
      49 <= x <= 49 + w, exactly the column meets the `retrieve_yinc` query. */
  lemma ColumnBand(contents: seq<Item>, w: real)
    requires 0.0 <= w <= 5.0
    requires |contents| >= |Column| && contents[..|Column|] == Column
    requires forall c :: c in contents[|Column|..] ==> c.x + c.w < 49.0 || c.x > 54.0
    ensures var q := Rect(49.0, 0.0, Finite(w), Inf);
      && (forall c :: c in Column ==> c in contents && Overlaps(q, c))
      && (forall c :: c in contents && Overlaps(q, c) ==> c in Column)
  {
    var q := Rect(49.0, 0.0, Finite(w), Inf);
    forall c | c in Column ensures c in contents && Overlaps(q, c) {
      var i :| 0 <= i < |Column| && Column[i] == c;
      assert contents[..|Column|][i] == contents[i];
    }
    forall j | |Column| <= j < |contents| ensures contents[j] in contents[|Column|..] {
      assert contents[|Column|..][j - |Column|] == contents[j];
    }
    forall c | c in contents && Overlaps(q, c) ensures c in Column {
      var i :| 0 <= i < |contents| && contents[i] == c;
      assert i < |Column|;
      assert contents[..|Column|][i] == contents[i];
    }
  }

  /** `retrieve_xinc({x: 0, y: 49, height: h})` with a callback that never
      returns false delivers the row in order, while nothing else inserted
      meets the band 49 <= y <= 49 + h. */
  method SweepRow(quad: QuadTree, h: real) returns (out: seq<Item>)
    requires quad.Valid() && 0.0 <= h <= 5.0
    requires |quad.Contents| >= |Row| && quad.Contents[..|Row|] == Row
    requires forall c :: c in quad.Contents[|Row|..] ==> c.y + c.h < 49.0 || c.y > 54.0
    modifies quad
    ensures quad.Valid() && quad.Contents == old(quad.Contents)
    ensures out == Row
  {
    var probe := Rect(0.0, 49.0, Finite(0.0), Finite(h));
    var go;
    out, go := quad.RetrieveXinc(probe, KeepGoing);
    RowBand(quad.Contents, h);
    RowShape();
    SweepOrder(out, quad.Contents, XincQuery(probe), Row, KeyOf(XInc));
  }

  /** `retrieve_yinc({x: 49, y: 0, width: w})` with a callback that never
      returns false delivers the column in order, while nothing else
      inserted meets the band 49 <= x <= 49 + w. */
  method SweepColumn(quad: QuadTree, w: real) returns (out: seq<Item>)
    requires quad.Valid() && 0.0 <= w <= 5.0
    requires |quad.Contents| >= |Column| && quad.Contents[..|Column|] == Column
    requires forall c :: c in quad.Contents[|Column|..] ==> c.x + c.w < 49.0 || c.x > 54.0
    modifies quad
    ensures quad.Valid() && quad.Contents == old(quad.Contents)
    ensures out == Column
  {
    var probe := Rect(49.0, 0.0, Finite(w), Finite(0.0));
    var go;
    out, go := quad.RetrieveYinc(probe, KeepGoing);
    ColumnBand(quad.Contents, w);
    ColumnShape();
    SweepOrder(out, quad.Contents, YincQuery(probe), Column, KeyOf(YInc));
  }

  /** Each scattered item keeps clear of the band from 49 to 54 across the
      axis it is laid along (y for the row tests, x for the column tests). */
  lemma ScatterClear(base: int, swap: bool, far: bool)
    ensures forall c :: c in Scatter(base, swap, far) ==>
      if swap then c.x + c.w < 49.0 || c.x > 54.0 else c.y + c.h < 49.0 || c.y > 54.0
  {
    forall c | c in Scatter(base, swap, far)
      ensures if swap then c.x + c.w < 49.0 || c.x > 54.0 else c.y + c.h < 49.0 || c.y > 54.0
    {
      var i :| 0 <= i < 20 && Scatter(base, swap, far)[i] == c;
      assert 0.0 <= (5 * i) as real <= 95.0;
    }
  }

  /** The two halves of a concatenation. */
  lemma SplitAt(a: seq<Item>, b: seq<Item>)
    ensures (a + b)[..|a|] == a && (a + b)[|a|..] == b
  {
  }

  /** One stage of the x-iteration tests: add `more` items clear of the
      row's band to a tree holding the row followed by such items, then
      sweep with heights 1 and 5. */
  method RowStage(quad: QuadTree, rest: seq<Item>, more: seq<Item>) returns (a: seq<Item>, b: seq<Item>)
    requires quad.Valid() && quad.Contents == Row + rest
    requires forall c :: c in rest ==> c.y + c.h < 49.0 || c.y > 54.0
    requires forall c :: c in more ==> c.y + c.h < 49.0 || c.y > 54.0
    requires forall c :: c in more ==> ValidItem(c)
    modifies quad
    ensures quad.Valid() && quad.Contents == Row + (rest + more)
    ensures a == Row && b == Row
  {
    quad.InsertAll(more);
    assert quad.Contents == Row + (rest + more);
    a, b := RowSweeps(quad, rest + more);
  }

  /** The two sweeps of one stage, with heights 1 and 5. */
  method RowSweeps(quad: QuadTree, rest: seq<Item>) returns (a: seq<Item>, b: seq<Item>)
    requires quad.Valid() && quad.Contents == Row + rest
    requires forall c :: c in rest ==> c.y + c.h < 49.0 || c.y > 54.0
    modifies quad
    ensures quad.Valid() && quad.Contents == old(quad.Contents)
    ensures a == Row && b == Row
  {
    SplitAt(Row, rest);
    a := SweepRow(quad, 1.0);
    b := SweepRow(quad, 5.0);
  }

  /** The x-iteration tests: the row is delivered in order by sweeps of
      height 1 and 5, again after twenty items near the top-left are added,
      and again after twenty more near the bottom-right. */
  method RowIteration() returns (outs: seq<seq<Item>>)
    ensures |outs| == 6 && forall k :: 0 <= k < 6 ==> outs[k] == Row
  {
    var quad := NewTree(Page, Row);
    ScatterClear(100, false, false);
    ScatterClear(200, false, true);
    outs := RowRounds(quad, Scatter(100, false, false), Scatter(200, false, true));
  }

  /** The three rounds of those tests: sweeps over the row alone, after
      the `near` items are added, and after the `far` ones. */
  method RowRounds(quad: QuadTree, near: seq<Item>, far: seq<Item>) returns (outs: seq<seq<Item>>)
    requires quad.Valid() && quad.Contents == Row
    requires forall c :: c in near ==> c.y + c.h < 49.0 || c.y > 54.0
    requires forall c :: c in far ==> c.y + c.h < 49.0 || c.y > 54.0
    requires forall c :: c in near + far ==> ValidItem(c)
    modifies quad
    ensures |outs| == 6 && forall k :: 0 <= k < 6 ==> outs[k] == Row
  {
    assert quad.Contents == Row + [];
    var a, b := RowStage(quad, [], []);
    var c, d := RowStage(quad, [], near);
    assert [] + near == near;
    var e, f := RowStage(quad, near, far);
    outs := [a, b, c, d, e, f];
  }

  /** One stage of the y-iteration tests: add `more` items clear of the
      column's band to a tree holding the column followed by such items, then
      sweep with widths 1 and 5. */
  method ColumnStage(quad: QuadTree, rest: seq<Item>, more: seq<Item>) returns (a: seq<Item>, b: seq<Item>)
    requires quad.Valid() && quad.Contents == Column + rest
    requires forall c :: c in rest ==> c.x + c.w < 49.0 || c.x > 54.0
    requires forall c :: c in more ==> c.x + c.w < 49.0 || c.x > 54.0
    requires forall c :: c in more ==> ValidItem(c)
    modifies quad
    ensures quad.Valid() && quad.Contents == Column + (rest + more)
    ensures a == Column && b == Column
  {
    quad.InsertAll(more);
    assert quad.Contents == Column + (rest + more);
    a, b := ColumnSweeps(quad, rest + more);
  }

  /** The two sweeps of one stage, with widths 1 and 5. */
  method ColumnSweeps(quad: QuadTree, rest: seq<Item>) returns (a: seq<Item>, b: seq<Item>)
    requires quad.Valid() && quad.Contents == Column + rest
    requires forall c :: c in rest ==> c.x + c.w < 49.0 || c.x > 54.0
    modifies quad
    ensures quad.Valid() && quad.Contents == old(quad.Contents)
    ensures a == Column && b == Column
  {
    SplitAt(Column, rest);
    a := SweepColumn(quad, 1.0);
    b := SweepColumn(quad, 5.0);
  }

  /** The y-iteration tests: the column is delivered in order by sweeps of
      width 1 and 5, again after twenty items near the top-left are added,
      and again after twenty more near the bottom-right. */
  method ColumnIteration() returns (outs: seq<seq<Item>>)
    ensures |outs| == 6 && forall k :: 0 <= k < 6 ==> outs[k] == Column
  {
    var quad := NewTree(Page, Column);
    ScatterClear(100, true, false);
    ScatterClear(200, true, true);
    outs := ColumnRounds(quad, Scatter(100, true, false), Scatter(200, true, true));
  }

  /** The three rounds of those tests: sweeps over the column alone, after
      the `near` items are added, and after the `far` ones. */
  method ColumnRounds(quad: QuadTree, near: seq<Item>, far: seq<Item>) returns (outs: seq<seq<Item>>)
    requires quad.Valid() && quad.Contents == Column
    requires forall c :: c in near ==> c.x + c.w < 49.0 || c.x > 54.0
    requires forall c :: c in far ==> c.x + c.w < 49.0 || c.x > 54.0
    requires forall c :: c in near + far ==> ValidItem(c)
    modifies quad
    ensures |outs| == 6 && forall k :: 0 <= k < 6 ==> outs[k] == Column
  {
    assert quad.Contents == Column + [];
    var a, b := ColumnStage(quad, [], []);
    var c, d := ColumnStage(quad, [], near);
    assert [] + near == near;
    var e, f := ColumnStage(quad, near, far);
    outs := [a, b, c, d, e, f];
  }

  /** A callback that stops the sweep at the first item it is given. */
  function Refuse(c: Item): bool { false }

  /** A refused sweep reports at most the one item it was refused on. */
  lemma RefusedOnce(out: seq<Item>, go: bool)
    requires Stops(out, go, Refuse)
    ensures |out| <= 1 && (out != [] ==> !go)
  {
    assert |out| >= 2 ==> !Refuse(out[0]);
    assert out != [] ==> !Refuse(out[0]);
  }

  /** The long bar of the var-size tests, id 1: it starts left of (or above)
      the short one, so it comes first although it reaches further. */
  const LongBar := Item(1, 2.0, 1.0, 80.0, 2.0)
  const TallBar := Item(1, 1.0, 2.0, 2.0, 80.0)

  /** Among items that start after it along x, the bar is the one the
      query meets with the least key, and the only one with its id. */
  lemma LongBarLeast(cs: seq<Item>, pool: set<Item>, q: Rect)
    requires LongBar in cs
    requires forall c :: c in cs && c != LongBar ==> c.id != 1 && 2.0 < c.x
    requires pool == set c | c in cs
    requires q == XincQuery(Rect(0.0, 0.0, Finite(0.0), Finite(50.0)))
    ensures LongBar in pool && Overlaps(q, LongBar) && Increasing(XInc, q)
    ensures forall c :: c in pool && c.id == LongBar.id ==> c == LongBar
    ensures forall c :: c in pool && Overlaps(q, c) && c != LongBar ==> KeyOf(XInc)(LongBar) < KeyOf(XInc)(c)
  {
  }

  /** `retrieve_xinc({x: 0, y: 0, height: 50})` over `cs` with a callback
      returning false: the one call is for the long bar. */
  method FirstAlongX(cs: seq<Item>) returns (out: seq<Item>, go: bool)
    requires LongBar in cs
    requires forall c :: c in cs && c != LongBar ==> c.id != 1 && 2.0 < c.x
    requires forall c :: c in cs ==> ValidItem(c)
    ensures out == [LongBar] && !go
  {
    var quad := new QuadTree(Page, 0, 0);
    quad.InsertAll(cs);
    var probe := Rect(0.0, 0.0, Finite(0.0), Finite(50.0));
    ghost var root := quad.root;
    LongBarLeast(cs, Stored(root), XincQuery(probe));
    LeastFirst(XInc, root, XincQuery(probe), Refuse, LongBar);
    out, go := quad.RetrieveXinc(probe, Refuse);
    RefusedOnce(out, go);
  }

  /** Among items that start after it along y, the bar is the one the
      query meets with the least key, and the only one with its id. */
  lemma TallBarLeast(cs: seq<Item>, pool: set<Item>, q: Rect)
    requires TallBar in cs
    requires forall c :: c in cs && c != TallBar ==> c.id != 1 && 2.0 < c.y
    requires pool == set c | c in cs
    requires q == YincQuery(Rect(0.0, 0.0, Finite(50.0), Finite(0.0)))
    ensures TallBar in pool && Overlaps(q, TallBar) && Increasing(YInc, q)
    ensures forall c :: c in pool && c.id == TallBar.id ==> c == TallBar
    ensures forall c :: c in pool && Overlaps(q, c) && c != TallBar ==> KeyOf(YInc)(TallBar) < KeyOf(YInc)(c)
  {
  }

  /** `retrieve_yinc({x: 0, y: 0, width: 50})` over `cs` with a callback
      returning false: the one call is for the tall bar. */
  method FirstAlongY(cs: seq<Item>) returns (out: seq<Item>, go: bool)
    requires TallBar in cs
    requires forall c :: c in cs && c != TallBar ==> c.id != 1 && 2.0 < c.y
    requires forall c :: c in cs ==> ValidItem(c)
    ensures out == [TallBar] && !go
  {
    var quad := new QuadTree(Page, 0, 0);
    quad.InsertAll(cs);
    var probe := Rect(0.0, 0.0, Finite(50.0), Finite(0.0));
    ghost var root := quad.root;
    TallBarLeast(cs, Stored(root), YincQuery(probe));
    LeastFirst(YInc, root, YincQuery(probe), Refuse, TallBar);
    out, go := quad.RetrieveYinc(probe, Refuse);
    RefusedOnce(out, go);
  }

  /** The var-size tests: with two bars, and with two more that make the
      root split, the first item a sweep hands over is the bar that starts
      first, not the one listed first. */
  method VarSize() returns (x2: seq<Item>, x4: seq<Item>, y2: seq<Item>)
    ensures x2 == [LongBar] && x4 == [LongBar] && y2 == [TallBar]
  {
    var short := Item(0, 10.0, 1.0, 30.0, 2.0);
    var go;
    x2, go := FirstAlongX([short, LongBar]);
    x4, go := FirstAlongX([short, LongBar, Item(2, 10.0, 3.0, 30.0, 2.0), Item(3, 10.0, 4.0, 30.0, 2.0)]);
    y2, go := FirstAlongY([Item(0, 1.0, 10.0, 2.0, 30.0), TallBar]);
  }

  /** The two items of the 350 x 500 page example. */
  const Label := Item(0, 327.50, 226.06, 3.74, 14.96)
  const Box := Item(1, 321.85, 243.27, 14.98, 14.96)

  /** `retrieve_yinc({x: 327.50, y: 226.06, width: 3.74})` calls back exactly
      twice, for id 0 and then id 1. */
  method PageExample() returns (out: seq<Item>)
    ensures out == [Label, Box]
  {
    var quad := NewTree(Bounds(0.0, 0.0, 350.0, 500.0), [Label, Box]);
    var probe := Rect(327.50, 226.06, Finite(3.74), Finite(0.0));
    var go;
    out, go := quad.RetrieveYinc(probe, KeepGoing);
    var q := YincQuery(probe);
    assert Overlaps(q, Label) && Overlaps(q, Box);
    SweepOrder(out, quad.Contents, q, [Label, Box], KeyOf(YInc));
  }

  /** The column bottom-up, ids 5 down to 0: the order `retrieve_ydec`
      promises for it. */
  const ColumnUp := [Column[5], Column[4], Column[3], Column[2], Column[1], Column[0]]

  lemma ColumnUpShape()
    ensures DistinctIds(ColumnUp) && Ascending(ColumnUp, KeyOf(YDec))
    ensures forall c :: c in ColumnUp <==> c in Column
  {
  }

  /** Of a list that starts with the column and keeps clear of the band
      49 <= x <= 54 after it, exactly the column passes either filter of the
      decreasing sweep from the line y = 50 of the page. */
  lemma ColumnAdmitted(contents: seq<Item>)
    requires |contents| >= |Column| && contents[..|Column|] == Column
    requires forall c :: c in contents[|Column|..] ==> c.x + c.w < 49.0 || c.x > 54.0
    ensures var q := Rect(49.0, 0.0, Finite(1.0), Finite(50.0));
      && (forall c :: c in Column ==> c in contents && Overlaps(q, c))
      && (forall c :: c in contents && Admits(YDec, q, c) ==> c in Column)
  {
    var q := Rect(49.0, 0.0, Finite(1.0), Finite(50.0));
    forall c | c in Column ensures c in contents && Overlaps(q, c) {
      var i :| 0 <= i < |Column| && Column[i] == c;
      assert contents[..|Column|][i] == contents[i];
    }
    forall j | |Column| <= j < |contents| ensures contents[j] in contents[|Column|..] {
      assert contents[|Column|..][j - |Column|] == contents[j];
    }
    forall c | c in contents && Admits(YDec, q, c) ensures c in Column {
      var i :| 0 <= i < |contents| && contents[i] == c;
      assert i < |Column|;
      assert contents[..|Column|][i] == contents[i];
    }
  }

  /** The decreasing sweep from the line y = 50 over a page tree holding
      the column: the query reaches the page's horizontal split and
      straddles its vertical one, so the top half is drained as one buffer
      sorted by decreasing y. */
  lemma ColumnUpSorted(root: Node, contents: seq<Item>, f: Item -> bool)
    requires Good(root) && root.meta.bounds == Page && Stored(root) == set c | c in contents
    requires |contents| >= |Column| && contents[..|Column|] == Column
    requires forall c :: c in contents[|Column|..] ==> c.x + c.w < 49.0 || c.x > 54.0
    ensures SortedBy(Sweep(YDec, root, Rect(49.0, 0.0, Finite(1.0), Finite(50.0)), f, {}).pass.out, KeyOf(YDec))
  {
    var q := Rect(49.0, 0.0, Finite(1.0), Finite(50.0));
    ColumnAdmitted(contents);
    assert FindIndices(Page, q) == {TL, TR, BL, BR};
    YDecOneBuffer(root, q, f);
  }

  /** A complete sorted decreasing sweep that admits only column items
      delivers the column bottom-up. */
  lemma ColumnUpOrder(out: seq<Item>, contents: seq<Item>)
    requires |contents| >= |Column| && contents[..|Column|] == Column
    requires forall c :: c in contents[|Column|..] ==> c.x + c.w < 49.0 || c.x > 54.0
    requires DistinctIds(out) && SortedBy(out, KeyOf(YDec))
    requires var q := Rect(49.0, 0.0, Finite(1.0), Finite(50.0));
      && (forall i :: 0 <= i < |out| ==> out[i] in contents && Admits(YDec, q, out[i]))
      && (forall c :: c in contents && Overlaps(q, c) ==> c.id in Ids(out))
    ensures out == ColumnUp
  {
    var q := Rect(49.0, 0.0, Finite(1.0), Finite(50.0));
    ColumnAdmitted(contents);
    ColumnUpShape();
    forall i | 0 <= i < |out| ensures out[i] in ColumnUp {
      assert out[i] in contents && Admits(YDec, q, out[i]);
    }
    forall c | c in ColumnUp ensures c.id in Ids(out) {
      assert c in contents && Overlaps(q, c);
    }
    SameIds(out, ColumnUp);
    ForcedOrder(out, ColumnUp, KeyOf(YDec));
  }

  /** `retrieve_ydec({x: 49, y: 50, width: 1})` with a callback that never
      returns false delivers the column bottom-up. */
  method SweepColumnUp(quad: QuadTree) returns (out: seq<Item>)
    requires quad.Valid() && quad.root.meta.bounds == Page
    requires |quad.Contents| >= |Column| && quad.Contents[..|Column|] == Column
    requires forall c :: c in quad.Contents[|Column|..] ==> c.x + c.w < 49.0 || c.x > 54.0
    modifies quad
    ensures quad.Valid() && quad.Contents == old(quad.Contents)
    ensures quad.root.meta == old(quad.root.meta)
    ensures out == ColumnUp
  {
    ColumnUpSorted(quad.root, quad.Contents, KeepGoing);
    var probe := Rect(49.0, 50.0, Finite(1.0), Finite(0.0));
    assert YdecQuery(probe, 0.0) == Rect(49.0, 0.0, Finite(1.0), Finite(50.0));
    var go;
    out, go := quad.RetrieveYdec(probe, KeepGoing);
    ColumnUpOrder(out, quad.Contents);
  }

  /** The root of a page tree built with the default limits has split once
      it holds the column: a leaf there holds fewer than four items. */
  lemma ColumnSplitsRoot(n: Node, contents: seq<Item>)
    requires WF(n) && n.meta == Meta(Page, 0, 4, 4) && Stored(n) == set c | c in contents
    requires |contents| >= |Column| && contents[..|Column|] == Column
    ensures n.Internal?
  {
    if n.Leaf? {
      var four := {Column[0], Column[1], Column[2], Column[3]};
      forall c | c in four ensures c in Stored(n) {
        var i :| 0 <= i < 4 && Column[i] == c;
        assert contents[..|Column|][i] == contents[i];
      }
      assert false;
    }
  }

  /** The decreasing sweep from the start line `t` meets, of a list that
      starts with the column and keeps clear of its band after it, exactly
      the column items at or above the line: the last `6 - k` of them
      bottom-up, with the line between their tops. */
  lemma ColumnAboveLine(contents: seq<Item>, t: real, k: nat)
    requires k <= 5 && 12.0 - 2.0 * k as real <= t < 14.0 - 2.0 * k as real
    requires |contents| >= |Column| && contents[..|Column|] == Column
    requires forall c :: c in contents[|Column|..] ==> c.x + c.w < 49.0 || c.x > 54.0
    ensures var q := Rect(49.0, 0.0, Finite(1.0), Finite(t));
      && (forall c :: c in ColumnUp[k..] ==> c in contents && Overlaps(q, c))
      && (forall c :: c in contents && Overlaps(q, c) ==> c in ColumnUp[k..])
  {
    var q := Rect(49.0, 0.0, Finite(1.0), Finite(t));
    forall c | c in ColumnUp[k..] ensures c in contents && Overlaps(q, c) {
      var j :| k <= j < 6 && ColumnUp[j] == c;
      assert c == Column[5 - j];
      assert contents[..|Column|][5 - j] == contents[5 - j];
    }
    forall j | |Column| <= j < |contents| ensures contents[j] in contents[|Column|..] {
      assert contents[|Column|..][j - |Column|] == contents[j];
    }
    forall c | c in contents && Overlaps(q, c) ensures c in ColumnUp[k..] {
      var i :| 0 <= i < |contents| && contents[i] == c;
      assert i < |Column|;
      assert contents[..|Column|][i] == contents[i];
      assert c == Column[i] && c.y == 2.0 + 2.0 * i as real;
      assert ColumnUp[k..][5 - k - i] == c;
    }
  }

  /** The decreasing sweep from the start line `t` over a page tree built
      with the default limits and holding the column: the query stays above
      the page's horizontal split and straddles its vertical one, so the top
      pair is drained through the range query as one buffer sorted by
      decreasing y, of items that overlap the query. */
  lemma ColumnDownSorted(root: Node, contents: seq<Item>, t: real, k: nat, f: Item -> bool)
    requires Good(root) && root.meta == Meta(Page, 0, 4, 4) && Stored(root) == set c | c in contents
    requires k <= 5 && 12.0 - 2.0 * k as real <= t < 14.0 - 2.0 * k as real
    requires |contents| >= |Column| && contents[..|Column|] == Column
    ensures SortedBy(Sweep(YDec, root, Rect(49.0, 0.0, Finite(1.0), Finite(t)), f, {}).pass.out, KeyOf(YDec))
    ensures forall i :: 0 <= i < |Sweep(YDec, root, Rect(49.0, 0.0, Finite(1.0), Finite(t)), f, {}).pass.out| ==>
      Overlaps(Rect(49.0, 0.0, Finite(1.0), Finite(t)), Sweep(YDec, root, Rect(49.0, 0.0, Finite(1.0), Finite(t)), f, {}).pass.out[i])
  {
    ColumnSplitsRoot(root, contents);
    var q := Rect(49.0, 0.0, Finite(1.0), Finite(t));
    assert FindIndices(Page, q) == {TL, TR};
    YDecTopPair(root, q, f);
  }

  /** A complete sorted sweep from the start line `t` that hands over only
      items overlapping the query delivers the column items at or above
      the line, bottom-up. */
  lemma ColumnDownOrder(out: seq<Item>, contents: seq<Item>, t: real, k: nat)
    requires k <= 5 && 12.0 - 2.0 * k as real <= t < 14.0 - 2.0 * k as real
    requires |contents| >= |Column| && contents[..|Column|] == Column
    requires forall c :: c in contents[|Column|..] ==> c.x + c.w < 49.0 || c.x > 54.0
    requires DistinctIds(out) && SortedBy(out, KeyOf(YDec))
    requires forall i :: 0 <= i < |out| ==> out[i] in contents && Overlaps(Rect(49.0, 0.0, Finite(1.0), Finite(t)), out[i])
    requires forall c :: c in contents && Overlaps(Rect(49.0, 0.0, Finite(1.0), Finite(t)), c) ==> c.id in Ids(out)
    ensures out == ColumnUp[k..]
  {
    var q := Rect(49.0, 0.0, Finite(1.0), Finite(t));
    var items := ColumnUp[k..];
    ColumnAboveLine(contents, t, k);
    forall i | 0 <= i < |out| ensures out[i] in items {
      assert out[i] in contents && Overlaps(q, out[i]);
    }
    forall c | c in items ensures c.id in Ids(out) {
      assert c in contents && Overlaps(q, c);
    }
    SameIds(out, items);
    ColumnUpSuffix(k);
    ForcedOrder(out, items, KeyOf(YDec));
  }

  /** Every suffix of the bottom-up column has distinct ids and strictly
      decreasing tops. */
  lemma ColumnUpSuffix(k: nat)
    requires k <= 6
    ensures DistinctIds(ColumnUp[k..]) && Ascending(ColumnUp[k..], KeyOf(YDec))
  {
    ColumnUpShape();
    forall i, j | 0 <= i < j < |ColumnUp[k..]|
      ensures ColumnUp[k..][i].id != ColumnUp[k..][j].id
      ensures KeyOf(YDec)(ColumnUp[k..][i]) < KeyOf(YDec)(ColumnUp[k..][j])
    {
      assert ColumnUp[k..][i] == ColumnUp[k + i] && ColumnUp[k..][j] == ColumnUp[k + j];
    }
  }

  /** `retrieve_ydec({x: 49, y: t, width: 1})` with a callback that never
      returns false, over a page tree built with the default limits and
      holding the column: the callback sees the column items at or above
      the line, bottom-up. */
  method SweepColumnDown(quad: QuadTree, t: real, k: nat) returns (out: seq<Item>)
    requires quad.Valid() && quad.root.meta == Meta(Page, 0, 4, 4)
    requires k <= 5 && 12.0 - 2.0 * k as real <= t < 14.0 - 2.0 * k as real
    requires |quad.Contents| >= |Column| && quad.Contents[..|Column|] == Column
    requires forall c :: c in quad.Contents[|Column|..] ==> c.x + c.w < 49.0 || c.x > 54.0
    modifies quad
    ensures quad.Valid() && quad.Contents == old(quad.Contents)
    ensures quad.root.meta == old(quad.root.meta)
    ensures out == ColumnUp[k..]
  {
    ColumnDownSorted(quad.root, quad.Contents, t, k, KeepGoing);
    var probe := Rect(49.0, t, Finite(1.0), Finite(0.0));
    assert YdecQuery(probe, 0.0) == Rect(49.0, 0.0, Finite(1.0), Finite(t));
    var go;
    out, go := quad.RetrieveYdec(probe, KeepGoing);
    assert go;
    ColumnDownOrder(out, quad.Contents, t, k);
  }

  /** One stage of the decreasing y-iteration tests, over a page tree built
      with the default limits holding the column followed by items clear of
      its band: from y = 50, from y = 13 and from y = 9. */
  method ColumnSweepsUp(quad: QuadTree, rest: seq<Item>) returns (a: seq<Item>, a13: seq<Item>, a9: seq<Item>)
    requires quad.Valid() && quad.root.meta == Meta(Page, 0, 4, 4) && quad.Contents == Column + rest
    requires forall c :: c in rest ==> c.x + c.w < 49.0 || c.x > 54.0
    modifies quad
    ensures quad.Valid() && quad.Contents == old(quad.Contents)
    ensures quad.root.meta == old(quad.root.meta)
    ensures a == ColumnUp && a13 == ColumnUp && a9 == ColumnUp[2..]
  {
    SplitAt(Column, rest);
    a := SweepColumnUp(quad);
    a13 := SweepColumnDown(quad, 13.0, 0);
    a9 := SweepColumnDown(quad, 9.0, 2);
  }

  /** One stage of the decreasing y-iteration tests: add `more` items clear
      of the column's band, then sweep from y = 50, 13 and 9. */
  method ColumnStageUp(quad: QuadTree, rest: seq<Item>, more: seq<Item>) returns (a: seq<Item>, a13: seq<Item>, a9: seq<Item>)
    requires quad.Valid() && quad.root.meta == Meta(Page, 0, 4, 4) && quad.Contents == Column + rest
    requires forall c :: c in rest ==> c.x + c.w < 49.0 || c.x > 54.0
    requires forall c :: c in more ==> c.x + c.w < 49.0 || c.x > 54.0
    requires forall c :: c in more ==> ValidItem(c)
    modifies quad
    ensures quad.Valid() && quad.root.meta == old(quad.root.meta)
    ensures quad.Contents == Column + (rest + more)
    ensures a == ColumnUp && a13 == ColumnUp && a9 == ColumnUp[2..]
  {
    quad.InsertAll(more);
    assert quad.Contents == Column + (rest + more);
    a, a13, a9 := ColumnSweepsUp(quad, rest + more);
  }

  /** The decreasing half of the y-iteration tests that agrees with the
      code: from the line y = 50 and from y = 13 the column bottom-up, from
      y = 9 the four items at or above the line; alone and after each batch
      of twenty items. */
  method ColumnIterationUp() returns (from50: seq<seq<Item>>, from13: seq<seq<Item>>, from9: seq<seq<Item>>)
    ensures |from50| == 3 && forall k :: 0 <= k < 3 ==> from50[k] == ColumnUp
    ensures |from13| == 3 && forall k :: 0 <= k < 3 ==> from13[k] == ColumnUp
    ensures |from9| == 3 && forall k :: 0 <= k < 3 ==> from9[k] == ColumnUp[2..]
  {
    var quad := NewTree(Page, Column);
    ScatterClear(100, true, false);
    ScatterClear(200, true, true);
    from50, from13, from9 := ColumnRoundsUp(quad, Scatter(100, true, false), Scatter(200, true, true));
  }

  /** The three rounds of the decreasing tests: the column alone, after the
      `near` items are added, and after the `far` ones. */
  method ColumnRoundsUp(quad: QuadTree, near: seq<Item>, far: seq<Item>)
    returns (from50: seq<seq<Item>>, from13: seq<seq<Item>>, from9: seq<seq<Item>>)
    requires quad.Valid() && quad.root.meta == Meta(Page, 0, 4, 4) && quad.Contents == Column
    requires forall c :: c in near ==> c.x + c.w < 49.0 || c.x > 54.0
    requires forall c :: c in far ==> c.x + c.w < 49.0 || c.x > 54.0
    requires forall c :: c in near + far ==> ValidItem(c)
    modifies quad
    ensures |from50| == 3 && forall k :: 0 <= k < 3 ==> from50[k] == ColumnUp
    ensures |from13| == 3 && forall k :: 0 <= k < 3 ==> from13[k] == ColumnUp
    ensures |from9| == 3 && forall k :: 0 <= k < 3 ==> from9[k] == ColumnUp[2..]
  {
    assert quad.Contents == Column + [];
    var a, a13, a9 := ColumnStageUp(quad, [], []);
    var b, b13, b9 := ColumnStageUp(quad, [], near);
    assert [] + near == near;
    var c, c13, c9 := ColumnStageUp(quad, near, far);
    from50, from13, from9 := [a, b, c], [a13, b13, c13], [a9, b9, c9];
  }
}
