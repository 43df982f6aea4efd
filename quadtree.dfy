/**
 * The `QuadTree` facade: a root node and an insert counter, insertion of
 * one item or of a list, the range query from a fresh list and dedup set,
 * and the three sweep wrappers that turn a start point into a query
 * rectangle with one unbounded extent.
 */
module QuadTrees {
  import opened Geometry
  import opened QNodes
  import opened Retrieval
  import opened Sorting
  import opened Sweeps

  /** A number the source may compare against `INFDIST`: the sentinel -1
      means "unbounded". */
  function AsExtent(v: real): (e: Extent)
    ensures e.Inf? <==> v == -1.0
    ensures Raw(e) == v
  {
    if v == -1.0 then Inf else Finite(v)
  }

  /** `retrieve_xinc`'s query: the start point and height, unbounded width.
      The caller's extents are already `Extent`s: a height the caller gives
      as -1 arrives here as `Inf`. */
  function XincQuery(item: Rect): (q: Rect)
    ensures q.x == item.x && q.y == item.y && q.h == item.h && q.w.Inf?
  {
    Rect(item.x, item.y, Inf, item.h)
  }

  /** `retrieve_yinc`'s query: the start point and width, unbounded height.
      A width the caller gives as -1 arrives here as `Inf`. */
  function YincQuery(item: Rect): (q: Rect)
    ensures q.x == item.x && q.y == item.y && q.w == item.w && q.h.Inf?
  {
    Rect(item.x, item.y, item.w, Inf)
  }

  /** `retrieve_ydec`'s query: from the top `y0` of the root down to the start
      line `item.y`; a height of exactly -1 reads as the sentinel. */
  function YdecQuery(item: Rect, y0: real): (q: Rect)
    ensures q.x == item.x && q.y == y0 && q.w == item.w
    ensures item.y - y0 != -1.0 ==> q.h == Finite(item.y - y0) && q.y + Raw(q.h) == item.y
  {
    Rect(item.x, y0, item.w, AsExtent(item.y - y0))
  }

  class QuadTree {
    var root: Node
    var length: nat
    /** Every item inserted so far, in order. */
    ghost var Contents: seq<Item>

    ghost predicate Valid()
      reads this
    {
      && Good(root)
      && length == |Contents|
      && Stored(root) == set c | c in Contents
    }

    /** `new QuadTree(bounds, maxDepth, maxChildren)`: an empty root leaf at
        depth 0. */
    constructor (bounds: Bounds, maxDepth: nat, maxChildren: nat)
      ensures Valid()
      ensures root == NewNode(bounds, 0, maxDepth, maxChildren)
      ensures length == 0 && Contents == []
    {
      root := NewNode(bounds, 0, maxDepth, maxChildren);
      length := 0;
      Contents := [];
    }

    /** `insert(item)` for a single item: one more item and one more count. */
    method Insert(c: Item)
      requires Valid() && ValidItem(c)
      modifies this
      ensures Valid()
      ensures root == QNodes.Insert(old(root), c) && root.meta == old(root.meta)
      ensures length == old(length) + 1 && Contents == old(Contents) + [c]
    {
      InsertLosesNothing(root, c);
      root := InsertNode(root, c);
      length := length + 1;
      Contents := Contents + [c];
    }

    /** `insert(array)`: the root takes each item in turn, and each one is
        counted. */
    method InsertAll(cs: seq<Item>)
      requires Valid() && forall c :: c in cs ==> ValidItem(c)
      modifies this
      ensures Valid()
      ensures root == InsertSeq(old(root), cs)
      ensures length == old(length) + |cs| && Contents == old(Contents) + cs
      ensures root.meta == old(root.meta)
    {
      var r, count := root, length;
      for i := 0 to |cs|
        invariant WF(r) && r == InsertSeq(old(root), cs[..i])
        invariant count == old(length) + i
      {
        InsertSeqStep(old(root), cs, i);
        r := InsertNode(r, cs[i]);
        count := count + 1;
      }
      assert cs[..|cs|] == cs;
      root, length, Contents := r, count, old(Contents) + cs;
      InsertSeqKeeps(old(root), old(Contents), cs);
    }

    /** `retrieve(item)`: the range query from a fresh list and dedup set
        returns exactly the inserted items that overlap the query, one per
        id. */
    method Retrieve(q: Rect) returns (r: seq<Item>)
      requires Valid()
      ensures r == Retrieval.Retrieve(root, q, {}).out
      ensures DistinctIds(r)
      ensures forall i :: 0 <= i < |r| ==> r[i] in Contents && Overlaps(q, r[i])
      ensures Ids(r) == set c | c in Contents && Overlaps(q, c) :: c.id
    {
      var seen;
      r, seen := RetrieveNode(root, q, [], {});
      RetrieveExact(root, q);
    }

    /** `retrieve_xinc(item, func)`: sweep to the right from `item.x`. */
    method RetrieveXinc(item: Rect, f: Item -> bool) returns (out: seq<Item>, go: bool)
      requires Valid()
      modifies this
      ensures Valid() && length == old(length) && Contents == old(Contents)
      ensures root.meta == old(root.meta)
      ensures var s := Sweep(XInc, old(root), XincQuery(item), f, {});
        root == s.node && out == s.pass.out && go == s.pass.go
      ensures DistinctIds(out) && Stops(out, go, f)
      ensures item.h.Finite? ==> SortedBy(out, KeyOf(XInc))
      ensures item.h.Finite? ==> forall i :: 0 <= i < |out| ==> out[i] in Contents && Overlaps(XincQuery(item), out[i])
      ensures item.h.Finite? && go ==> Ids(out) == set c | c in Contents && Overlaps(XincQuery(item), c) :: c.id
    {
      var q := XincQuery(item);
      if item.h.Finite? {
        IncreasingTheorem(XInc, root, q, f);
        SweepTheorem(XInc, root, q, f);
      } else {
        SweepSound(XInc, root, q, f, {});
        PermutedKeeps(root, Sweep(XInc, root, q, f, {}).node);
      }
      var seen;
      root, out, seen, go := SweepNode(XInc, root, q, f, {});
    }

    /** `retrieve_yinc(item, func)`: sweep downwards from `item.y`. */
    method RetrieveYinc(item: Rect, f: Item -> bool) returns (out: seq<Item>, go: bool)
      requires Valid()
      modifies this
      ensures Valid() && length == old(length) && Contents == old(Contents)
      ensures root.meta == old(root.meta)
      ensures var s := Sweep(YInc, old(root), YincQuery(item), f, {});
        root == s.node && out == s.pass.out && go == s.pass.go
      ensures DistinctIds(out) && Stops(out, go, f)
      ensures SortedBy(out, KeyOf(YInc))
      ensures forall i :: 0 <= i < |out| ==> out[i] in Contents && Overlaps(YincQuery(item), out[i])
      ensures go ==> Ids(out) == set c | c in Contents && Overlaps(YincQuery(item), c) :: c.id
    {
      var q := YincQuery(item);
      IncreasingTheorem(YInc, root, q, f);
      SweepTheorem(YInc, root, q, f);
      var seen;
      root, out, seen, go := SweepNode(YInc, root, q, f, {});
    }

    /** `retrieve_ydec(item, func)`: sweep upwards from the start line. Only
        each leaf list and each straddle buffer is in decreasing y order, and
        the leaf filter does not bound y, so no global order and no bound at
        the start line are promised. */
    method RetrieveYdec(item: Rect, f: Item -> bool) returns (out: seq<Item>, go: bool)
      requires Valid()
      modifies this
      ensures Valid() && length == old(length) && Contents == old(Contents)
      ensures root.meta == old(root.meta)
      ensures var s := Sweep(YDec, old(root), YdecQuery(item, old(root).meta.bounds.y), f, {});
        root == s.node && out == s.pass.out && go == s.pass.go
      ensures DistinctIds(out) && Stops(out, go, f)
      ensures var q := YdecQuery(item, old(root).meta.bounds.y);
        forall i :: 0 <= i < |out| ==> out[i] in Contents && Admits(YDec, q, out[i])
      ensures var q := YdecQuery(item, old(root).meta.bounds.y);
        go ==> forall c :: c in Contents && Overlaps(q, c) ==> c.id in Ids(out)
    {
      var q := YdecQuery(item, root.meta.bounds.y);
      SweepTheorem(YDec, root, q, f);
      var seen;
      root, out, seen, go := SweepNode(YDec, root, q, f, {});
    }
  }
}
