/**
 * The nodes of the quadtree (QNode) and insertion with subdivision.
 * A node is a leaf holding a list of items or an internal node holding
 * exactly four children; the tagged datatype makes "never both" structural.
 */
module QNodes {
  import opened Geometry

  /** What every QNode carries besides its contents: its bounds, its depth,
      and the limits it inherits from the tree. */
  datatype Meta = Meta(bounds: Bounds, depth: nat, maxDepth: nat, maxChildren: nat)

  datatype Node =
    | Leaf(meta: Meta, items: seq<Item>)
    | Internal(meta: Meta, tl: Node, tr: Node, bl: Node, br: Node)

  /** `maxChildren || 4` and `maxDepth || 4`: an absent (zero) limit means 4. */
  function OrFour(v: nat): (r: nat)
    ensures r >= 1
    ensures v != 0 ==> r == v
  {
    if v == 0 then 4 else v
  }

  /** The QNode constructor: an empty leaf. */
  function NewNode(b: Bounds, depth: nat, maxDepth: nat, maxChildren: nat): (n: Node)
    ensures n.Leaf? && n.items == [] && n.meta.bounds == b && n.meta.depth == depth
    ensures n.meta.maxDepth >= 1 && n.meta.maxChildren >= 1
    ensures maxDepth != 0 ==> n.meta.maxDepth == maxDepth
    ensures maxChildren != 0 ==> n.meta.maxChildren == maxChildren
  {
    Leaf(Meta(b, depth, OrFour(maxDepth), OrFour(maxChildren)), [])
  }

  function Child(n: Node, k: Quadrant): Node
    requires n.Internal?
  {
    match k
    case TL => n.tl
    case TR => n.tr
    case BL => n.bl
    case BR => n.br
  }

  /** The number of nodes: a measure for recursion over the four children. */
  function Size(n: Node): (s: nat)
    ensures s >= 1
    ensures n.Internal? ==>
      s == 1 + Size(n.tl) + Size(n.tr) + Size(n.bl) + Size(n.br)
  {
    match n
    case Leaf(_, _) => 1
    case Internal(_, tl, tr, bl, br) => 1 + Size(tl) + Size(tr) + Size(bl) + Size(br)
  }

  /** Every item held by some leaf below `n`. */
  function Stored(n: Node): set<Item>
  {
    match n
    case Leaf(_, items) => set c | c in items
    case Internal(_, tl, tr, bl, br) => Stored(tl) + Stored(tr) + Stored(bl) + Stored(br)
  }

  /** The metadata `subdivide` gives child `k`: its quarter of the bounds,
      one level deeper, the same limits. */
  function ChildMeta(m: Meta, k: Quadrant): Meta
  {
    Meta(ChildBounds(m.bounds, k), m.depth + 1, m.maxDepth, m.maxChildren)
  }

  /** Shape invariant: children carry the metadata `subdivide` gave them;
      internal nodes exist only above `maxDepth`; a leaf above `maxDepth`
      holds fewer than `maxChildren` items (one at `maxDepth` may exceed it). */
  ghost predicate WF(n: Node)
  {
    match n
    case Leaf(m, items) =>
      m.maxChildren >= 1 && (m.depth < m.maxDepth ==> |items| < m.maxChildren)
    case Internal(m, tl, tr, bl, br) =>
      && m.maxChildren >= 1
      && m.depth < m.maxDepth
      && tl.meta == ChildMeta(m, TL) && tr.meta == ChildMeta(m, TR)
      && bl.meta == ChildMeta(m, BL) && br.meta == ChildMeta(m, BR)
      && WF(tl) && WF(tr) && WF(bl) && WF(br)
  }

  /** Of the items in `all`, child `k` holds exactly those that `FindIndices`
      sends to `k`. */
  ghost predicate SortsInto(b: Bounds, k: Quadrant, child: Node, all: set<Item>)
  {
    forall c :: c in all ==> (c in Stored(child) <==> k in FindIndices(b, c.AsRect()))
  }

  /** Placement invariant: at every internal node, each item below it is held
      by exactly the children its quadrant test names. */
  ghost predicate Placed(n: Node)
  {
    match n
    case Leaf(_, _) => true
    case Internal(m, tl, tr, bl, br) =>
      && Placed(tl) && Placed(tr) && Placed(bl) && Placed(br)
      && SortsInto(m.bounds, TL, tl, Stored(n))
      && SortsInto(m.bounds, TR, tr, Stored(n))
      && SortsInto(m.bounds, BL, bl, Stored(n))
      && SortsInto(m.bounds, BR, br, Stored(n))
  }

  /** The invariant every node of a tree built by inserts keeps. */
  ghost predicate Good(n: Node) { WF(n) && Placed(n) }

  /** `subdivide`: four empty leaves in TL, TR, BL, BR order. */
  function Subdivide(m: Meta): (n: Node)
    requires m.depth < m.maxDepth && m.maxChildren >= 1
    ensures n.Internal? && n.meta == m && WF(n) && Placed(n) && Stored(n) == {}
    ensures forall k :: Child(n, k) == Leaf(ChildMeta(m, k), [])
  {
    Internal(m, Leaf(ChildMeta(m, TL), []), Leaf(ChildMeta(m, TR), []),
                Leaf(ChildMeta(m, BL), []), Leaf(ChildMeta(m, BR), []))
  }

  /** How many more levels a node may still be split. */
  function Rank(m: Meta): nat
  {
    if m.depth < m.maxDepth then m.maxDepth - m.depth else 0
  }

  /** `QNode.insert`: an internal node passes the item to every child its
      quadrant test names; a leaf appends it and, once it holds `maxChildren`
      items above `maxDepth`, subdivides and re-inserts its whole list. */
  function Insert(n: Node, c: Item): (r: Node)
    requires WF(n)
    ensures WF(r) && r.meta == n.meta && (n.Internal? ==> r.Internal?)
    ensures Stored(r) == Stored(n) + {c}
    decreases Rank(n.meta), if n.Leaf? then 4 else 1
  {
    if n.Internal? then InsertInternal(n, c) else InsertLeaf(n.meta, n.items, c)
  }

  /** The internal-node branch of `insert`: every child the quadrant test
      names receives the item, the others are left as they are. */
  function InsertInternal(n: Node, c: Item): (r: Node)
    requires WF(n) && n.Internal?
    ensures WF(r) && r.meta == n.meta && r.Internal?
    ensures Stored(r) == Stored(n) + {c}
    decreases Rank(n.meta), 0
  {
    var ks := FindIndices(n.meta.bounds, c.AsRect());
    Internal(n.meta,
      if TL in ks then Insert(n.tl, c) else n.tl,
      if TR in ks then Insert(n.tr, c) else n.tr,
      if BL in ks then Insert(n.bl, c) else n.bl,
      if BR in ks then Insert(n.br, c) else n.br)
  }

  /** The leaf branch of `insert`: append the item, and split a leaf that
      has reached `maxChildren` above `maxDepth`. */
  function InsertLeaf(m: Meta, items: seq<Item>, c: Item): (r: Node)
    requires WF(Leaf(m, items))
    ensures WF(r) && r.meta == m
    ensures Stored(r) == (set x | x in items) + {c}
    decreases Rank(m), 3
  {
    var children := items + [c];
    AppendMembers(items, c);
    if |children| >= m.maxChildren && m.depth < m.maxDepth then
      ReinsertAll(Subdivide(m), children)
    else
      Leaf(m, children)
  }

  /** Appending an item adds it to the members of a list. */
  lemma AppendMembers(items: seq<Item>, c: Item)
    ensures (set x | x in items + [c]) == (set x | x in items) + {c}
  {
  }

  /** The loop after `subdivide`: insert each item of the old list, in order,
      into the node that has just become internal. */
  function ReinsertAll(n: Node, items: seq<Item>): (r: Node)
    requires WF(n) && n.Internal?
    ensures WF(r) && r.meta == n.meta && r.Internal?
    ensures Stored(r) == Stored(n) + (set c | c in items)
    decreases Rank(n.meta), 2, |items|
  {
    if items == [] then n
    else ReinsertAll(Insert(n, items[0]), items[1..])
  }

  /** One child of an internal node after the item went to it, or not. */
  lemma ChildSortsAfterInsert(b: Bounds, k: Quadrant, ch: Node, ch': Node, all: set<Item>, c: Item)
    requires SortsInto(b, k, ch, all) && Stored(ch) <= all
    requires k in FindIndices(b, c.AsRect()) ==> Stored(ch') == Stored(ch) + {c}
    requires k !in FindIndices(b, c.AsRect()) ==> Stored(ch') == Stored(ch)
    ensures SortsInto(b, k, ch', all + {c})
  {
  }

  /** Insertion keeps every item exactly where the quadrant tests send it. */
  lemma {:induction false} InsertPlaced(n: Node, c: Item)
    requires Good(n)
    ensures Placed(Insert(n, c))
    decreases Rank(n.meta), if n.Leaf? then 4 else 1
  {
    match n
    case Internal(m, tl, tr, bl, br) =>
      var ks := FindIndices(m.bounds, c.AsRect());
      if TL in ks { InsertPlaced(tl, c); }
      if TR in ks { InsertPlaced(tr, c); }
      if BL in ks { InsertPlaced(bl, c); }
      if BR in ks { InsertPlaced(br, c); }
      InternalPlaced(n, c);
    case Leaf(m, items) =>
      var children := items + [c];
      if |children| >= m.maxChildren && m.depth < m.maxDepth {
        ReinsertPlaced(Subdivide(m), children);
      }
  }

  /** The internal step of `InsertPlaced`: once every child that receives
      the item stays placed, so does the node. */
  lemma InternalPlaced(n: Node, c: Item)
    requires Good(n) && n.Internal?
    requires var ks := FindIndices(n.meta.bounds, c.AsRect());
      && (TL in ks ==> Placed(Insert(n.tl, c))) && (TR in ks ==> Placed(Insert(n.tr, c)))
      && (BL in ks ==> Placed(Insert(n.bl, c))) && (BR in ks ==> Placed(Insert(n.br, c)))
    ensures Placed(Insert(n, c))
  {
    var b := n.meta.bounds;
    var all := Stored(n);
    var r := InsertInternal(n, c);
    assert Insert(n, c) == r;
    ChildSortsAfterInsert(b, TL, n.tl, r.tl, all, c);
    ChildSortsAfterInsert(b, TR, n.tr, r.tr, all, c);
    ChildSortsAfterInsert(b, BL, n.bl, r.bl, all, c);
    ChildSortsAfterInsert(b, BR, n.br, r.br, all, c);
  }

  lemma {:induction false} ReinsertPlaced(n: Node, items: seq<Item>)
    requires Good(n) && n.Internal?
    ensures Placed(ReinsertAll(n, items))
    decreases Rank(n.meta), 2, |items|
  {
    if items != [] {
      InsertPlaced(n, items[0]);
      ReinsertPlaced(Insert(n, items[0]), items[1..]);
    }
  }

  /** Following the quadrant test of `c` from `n` always ends in a leaf
      whose list holds `c`. */
  ghost predicate InEveryLeaf(n: Node, c: Item)
  {
    match n
    case Leaf(_, items) => c in items
    case Internal(m, tl, tr, bl, br) =>
      var ks := FindIndices(m.bounds, c.AsRect());
      && (TL in ks ==> InEveryLeaf(tl, c))
      && (TR in ks ==> InEveryLeaf(tr, c))
      && (BL in ks ==> InEveryLeaf(bl, c))
      && (BR in ks ==> InEveryLeaf(br, c))
  }

  /** Insertion loses nothing: the placement invariant puts every stored item
      in every leaf its own quadrant tests lead to. */
  lemma {:induction false} PlacedInEveryLeaf(n: Node, c: Item)
    requires Placed(n) && c in Stored(n)
    ensures InEveryLeaf(n, c)
  {
    match n
    case Leaf(_, _) =>
    case Internal(m, tl, tr, bl, br) =>
      var ks := FindIndices(m.bounds, c.AsRect());
      var all := Stored(n);
      assert SortsInto(m.bounds, TL, tl, all) && SortsInto(m.bounds, TR, tr, all);
      assert SortsInto(m.bounds, BL, bl, all) && SortsInto(m.bounds, BR, br, all);
      if TL in ks { PlacedInEveryLeaf(tl, c); }
      if TR in ks { PlacedInEveryLeaf(tr, c); }
      if BL in ks { PlacedInEveryLeaf(bl, c); }
      if BR in ks { PlacedInEveryLeaf(br, c); }
  }

  /** After any insert into a good node, the new item and every item stored
      before sit in every leaf their quadrant tests reach. */
  lemma InsertLosesNothing(n: Node, c: Item)
    requires Good(n)
    ensures Good(Insert(n, c))
    ensures InEveryLeaf(Insert(n, c), c)
    ensures forall d :: d in Stored(n) ==> InEveryLeaf(Insert(n, c), d)
  {
    InsertPlaced(n, c);
    var r := Insert(n, c);
    PlacedInEveryLeaf(r, c);
    forall d | d in Stored(n) ensures InEveryLeaf(r, d) {
      PlacedInEveryLeaf(r, d);
    }
  }

  /** Inserting a list of items one after the other, first to last. */
  function InsertSeq(n: Node, cs: seq<Item>): (r: Node)
    requires WF(n)
    ensures WF(r) && r.meta == n.meta
  {
    if cs == [] then n else Insert(InsertSeq(n, cs[..|cs| - 1]), cs[|cs| - 1])
  }

  /** One more item of the list inserted. */
  lemma InsertSeqStep(n: Node, cs: seq<Item>, i: nat)
    requires WF(n) && i < |cs|
    ensures InsertSeq(n, cs[..i + 1]) == Insert(InsertSeq(n, cs[..i]), cs[i])
  {
    assert cs[..i + 1][..i] == cs[..i];
  }

  /** Inserting a list keeps both invariants. */
  lemma {:induction false} InsertSeqGood(n: Node, cs: seq<Item>)
    requires Good(n)
    ensures Good(InsertSeq(n, cs))
  {
    if cs != [] {
      var init := cs[..|cs| - 1];
      InsertSeqGood(n, init);
      InsertPlaced(InsertSeq(n, init), cs[|cs| - 1]);
    }
  }

  /** Inserting a list stores exactly the listed items besides the old ones. */
  lemma {:induction false} InsertSeqStored(n: Node, cs: seq<Item>)
    requires WF(n)
    ensures Stored(InsertSeq(n, cs)) == Stored(n) + (set c | c in cs)
  {
    if cs != [] {
      var init, last := cs[..|cs| - 1], cs[|cs| - 1];
      InsertSeqStored(n, init);
      assert cs == init + [last];
      AppendMembers(init, last);
    }
  }

  /** A good tree holding the items of `before` still is good after the
      items of `cs` are inserted, and holds those of `before + cs`. */
  lemma InsertSeqKeeps(n: Node, before: seq<Item>, cs: seq<Item>)
    requires Good(n) && Stored(n) == set c | c in before
    ensures Good(InsertSeq(n, cs)) && Stored(InsertSeq(n, cs)) == set c | c in before + cs
  {
    InsertSeqGood(n, cs);
    InsertSeqStored(n, cs);
    ConcatMembers(before, cs);
  }

  /** The members of two lists put together. */
  lemma ConcatMembers(a: seq<Item>, b: seq<Item>)
    ensures (set c | c in a + b) == (set c | c in a) + (set c | c in b)
  {
  }

  /** Every leaf below `n` holds the list `items`, in that order. */
  ghost predicate Uniform(n: Node, items: seq<Item>)
  {
    match n
    case Leaf(_, xs) => xs == items
    case Internal(_, tl, tr, bl, br) =>
      Uniform(tl, items) && Uniform(tr, items) && Uniform(bl, items) && Uniform(br, items)
  }

  /** The rectangle `r` meets all four quadrants of every node that a tree
      with root metadata `m` may split into: its centre lies strictly right
      of and below `r`'s near corner and no further than its far corner. */
  ghost predicate DeepStraddle(m: Meta, r: Rect)
    decreases Rank(m)
  {
    m.depth < m.maxDepth ==>
      && FindIndices(m.bounds, r) == {TL, TR, BL, BR}
      && DeepStraddle(ChildMeta(m, TL), r) && DeepStraddle(ChildMeta(m, TR), r)
      && DeepStraddle(ChildMeta(m, BL), r) && DeepStraddle(ChildMeta(m, BR), r)
  }

  /** Inserting an item whose rectangle straddles every centre it can meet,
      into a tree whose leaves all hold the same list of such items, appends
      it to every leaf: splits re-insert the old list in order, and every
      quadrant test sends the item to all four children. */
  lemma {:induction false} InsertUniform(n: Node, items: seq<Item>, c: Item, r: Rect)
    requires WF(n) && Uniform(n, items) && DeepStraddle(n.meta, r)
    requires forall x :: x in items + [c] ==> x.AsRect() == r
    ensures Uniform(Insert(n, c), items + [c])
    decreases Rank(n.meta), if n.Leaf? then 4 else 1
  {
    match n
    case Internal(m, tl, tr, bl, br) =>
      assert FindIndices(m.bounds, c.AsRect()) == {TL, TR, BL, BR};
      InsertUniform(tl, items, c, r);
      InsertUniform(tr, items, c, r);
      InsertUniform(bl, items, c, r);
      InsertUniform(br, items, c, r);
    case Leaf(m, xs) =>
      if |items + [c]| >= m.maxChildren && m.depth < m.maxDepth {
        assert [] + (items + [c]) == items + [c];
        ReinsertUniform(Subdivide(m), [], items + [c], r);
      }
  }

  /** The re-insert loop after a split keeps every leaf holding the same
      list, now extended by the re-inserted items in order. */
  lemma {:induction false} ReinsertUniform(n: Node, done: seq<Item>, todo: seq<Item>, r: Rect)
    requires WF(n) && n.Internal? && Uniform(n, done) && DeepStraddle(n.meta, r)
    requires forall x :: x in done + todo ==> x.AsRect() == r
    ensures Uniform(ReinsertAll(n, todo), done + todo)
    decreases Rank(n.meta), 2, |todo|
  {
    if todo == [] {
      assert done + todo == done;
    } else {
      assert done + todo == (done + [todo[0]]) + todo[1..];
      assert forall x :: x in done + [todo[0]] ==> x in done + todo;
      InsertUniform(n, done, todo[0], r);
      ReinsertUniform(Insert(n, todo[0]), done + [todo[0]], todo[1..], r);
    }
  }

  /** Inserting a list of such items one after the other into a tree whose
      leaves all hold `items` leaves every leaf holding `items + cs`. */
  lemma {:induction false} InsertSeqUniform(n: Node, items: seq<Item>, cs: seq<Item>, r: Rect)
    requires WF(n) && Uniform(n, items) && DeepStraddle(n.meta, r)
    requires forall x :: x in items + cs ==> x.AsRect() == r
    ensures Uniform(InsertSeq(n, cs), items + cs)
  {
    if cs != [] {
      var init := cs[..|cs| - 1];
      assert items + cs == (items + init) + [cs[|cs| - 1]];
      assert forall x :: x in items + init ==> x in items + cs;
      InsertSeqUniform(n, items, init, r);
      InsertUniform(InsertSeq(n, init), items + init, cs[|cs| - 1], r);
    } else {
      assert items + cs == items;
    }
  }

  /** `QNode.insert` as the source runs it: the re-insertion after a split
      is a loop over the old list. */
  method InsertNode(n: Node, c: Item) returns (r: Node)
    requires WF(n)
    ensures r == Insert(n, c)
    decreases Rank(n.meta), if n.Leaf? then 2 else 0
  {
    match n
    case Internal(m, tl, tr, bl, br) =>
      var ks := FindIndices(m.bounds, c.AsRect());
      var tl', tr', bl', br' := tl, tr, bl, br;
      if TL in ks { tl' := InsertNode(tl, c); }
      if TR in ks { tr' := InsertNode(tr, c); }
      if BL in ks { bl' := InsertNode(bl, c); }
      if BR in ks { br' := InsertNode(br, c); }
      r := Internal(m, tl', tr', bl', br');
    case Leaf(m, items) =>
      var children := items + [c];
      if |children| >= m.maxChildren && m.depth < m.maxDepth {
        r := Subdivide(m);
        var j := 0;
        while j < |children|
          invariant 0 <= j <= |children|
          invariant WF(r) && r.Internal? && r.meta == m
          invariant ReinsertAll(r, children[j..]) == Insert(n, c)
        {
          assert children[j..][1..] == children[j + 1..];
          r := InsertNode(r, children[j]);
          j := j + 1;
        }
      } else {
        r := Leaf(m, children);
      }
  }
}
