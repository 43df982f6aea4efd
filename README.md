# Region quadtree: a verified Dafny model

This project models the region quadtree of `src/core/quadtree.js`, the index
a text-layout engine uses to find page boxes near a point. It also models the
scenarios of `test/unit/quadtree_spec.js` whose expectations agree with the
code.

The tree is made of `QNode`s. A node is either a leaf holding a list of items
or an internal node holding four children in the order top-left, top-right,
bottom-left, bottom-right. Each item is a rectangle with an `id`.

- `_findIndices` names the quadrants a rectangle meets. It compares the
  rectangle with the exact centre of the node. An extent of `INFDIST` (-1)
  means "unbounded".
- `insert` appends to a leaf. A leaf that reaches `maxChildren` items above
  `maxDepth` is split by `subdivide`, which uses truncated half sizes, and its
  list is re-inserted.
- `retrieve` is a range query with an inclusive overlap test. It uses one
  dedup set per call, keyed by `id`.
- The sweeps `retrieve_xinc`, `retrieve_yinc` and `retrieve_ydec` hand items
  to a callback in sweep order:
  - they recurse into a single near-side quadrant where they can;
  - where the query straddles a split, they drain both quadrants through
    `retrieve` into a buffer and sort it (`sort_and_callback`);
  - they sort each leaf list in place;
  - they stop as soon as the callback returns exactly `false`.
- The `QuadTree` facade holds the root and an insert counter. Its sweep
  wrappers turn a start point into a query rectangle with one unbounded
  extent.

Layout, one module per file:

- `geometry.dfy` (`Geometry`): rectangles and extents (`Finite(len) | Inf`
  stands for the -1 sentinel), `_findIndices`, the overlap test, and
  `subdivide`'s child bounds.
- `sorting.dfy` (`Sorting`): the sort the sweeps use, by a real key.
- `qnode.dfy` (`QNodes`): nodes as a datatype, the constructor, `subdivide`,
  `insert`, and the tree invariants:
  - `WF`: the shape invariant;
  - `Placed`: every child holds exactly the items `_findIndices` sends to it.
- `retrieve.dfy` (`Retrieval`): the range query, as a function and as the
  source's loops.
- `sweep.dfy` (`Sweeps`): the three sweeps as one function over a direction
  `Dir`, the source's loops proved equal to it, and the properties of sweeps.
- `quadtree.dfy` (`QuadTrees`): the `QuadTree` class with `root` and
  `length` (and a ghost list of everything inserted), and the wrappers.
- `scenarios.dfy` (`Scenarios`): the unit-test scenarios, each built through
  the class and stated as the test's expectation.

Each loop of the source is a method proved equal to a specification function:
`InsertNode`, `RetrieveNode`, `SweepNode`, `SortAndCallback` and their
helpers. The properties are proved as lemmas about those functions. The class
methods state their new state and what they return in terms of the functions
and of the invariant `Valid()`.

## Model

| member | source | states |
|---|---|---|
| Geometry.FindIndices | src/core/quadtree.js:191-224 | Top-left is named iff the rectangle is left of the exact centre and above it. The other three quadrants likewise: right means starting at or past the centre, reaching it, or unbounded width; bottom is the same in y. The set is never empty. |
| Geometry.HorizontalCommon | src/core/quadtree.js:191-224 | If a query and an item overlap in x (inclusive), both are on the left of the centre or both on the right. |
| Geometry.VerticalCommon | src/core/quadtree.js:191-224 | If a query and an item overlap in y (inclusive), both are in the top half or both in the bottom half. |
| Geometry.CommonQuadrant | src/core/quadtree.js:191-224 | For a query and an item that overlap, `_findIndices` names at least one quadrant for both. So descending only into named quadrants misses no overlapping item. |
| Geometry.Trunc | src/core/quadtree.js:233-234 | `v \| 0` truncates toward zero: the floor for non-negative values, the ceiling for negative ones. |
| Geometry.ChildBounds | src/core/quadtree.js:226-264 | A child is truncated half the width by truncated half the height. Left children start at the node's x, right ones at x plus half the width; top and bottom likewise in y. |
| Sorting.SortBy | src/core/quadtree.js:301 | The sorted list is ordered by the key and is a permutation of its input. |
| QNodes.OrFour | src/core/quadtree.js:120-121 | A zero limit becomes 4; any other limit is kept. |
| QNodes.NewNode | src/core/quadtree.js:116-123 | The constructor makes an empty leaf with the given bounds and depth, and limits of at least 1 that are exactly the given ones when non-zero. |
| QNodes.Subdivide | src/core/quadtree.js:226-264 | `subdivide` makes four empty leaves in TL, TR, BL, BR order, one level deeper, with each child's bounds and the parent's limits. The result satisfies both invariants. |
| QNodes.Insert | src/core/quadtree.js:165-189 | Insertion keeps the shape invariant. A node is never both leaf and internal, and a leaf above `maxDepth` holds fewer than `maxChildren` items. It keeps the node's metadata, and the stored items become the old ones plus the new item. |
| QNodes.ReinsertAll | src/core/quadtree.js:179-186 | Re-inserting the old list after a split keeps the shape invariant, keeps the node internal, and stores exactly the listed items added. |
| QNodes.InsertPlaced | src/core/quadtree.js:165-189 | Insertion keeps the placement invariant: every child holds exactly the items `_findIndices` sends to it. |
| QNodes.PlacedInEveryLeaf | src/core/quadtree.js:168-173 | In a placed tree, a stored item is in every leaf reached by following `_findIndices` from the root. |
| QNodes.InsertLosesNothing | src/core/quadtree.js:165-189 | After an insert, both invariants hold. The new item and every earlier item are in every leaf their quadrant tests lead to. |
| QNodes.InsertNode | src/core/quadtree.js:165-189 | The recursive insert with its re-insert loop builds the tree that `Insert` specifies. |
| QNodes.InsertSeq | src/core/quadtree.js:59-66 | Inserting a list one item after another keeps the shape invariant and the root's metadata. |
| QNodes.InsertSeqGood | src/core/quadtree.js:59-66 | Inserting a list item by item keeps both invariants. |
| QNodes.InsertSeqStored | src/core/quadtree.js:59-66 | After a list is inserted item by item, the stored items are the old ones plus the list's items. |
| QNodes.InsertUniform | src/core/quadtree.js:165-189 | Take a tree whose leaves all hold the same list, and an item whose rectangle is that of every listed item and straddles every centre it can meet. Inserting it appends it to every leaf, after the list: every quadrant test sends it to all four children, and a split re-inserts the old list in order. |
| QNodes.ReinsertUniform | src/core/quadtree.js:179-186 | Re-inserting such a list after a split, in its order, leaves every leaf of the new children holding exactly that list. |
| QNodes.InsertSeqUniform | src/core/quadtree.js:59-66 | Inserting an array of such items leaves every leaf holding the whole array, in insertion order. |
| Retrieval.RetrieveLeafSound | src/core/quadtree.js:281-296 | The leaf loop appends only items that overlap and are unseen, each id once. It marks exactly what it appends, and marks every overlapping item of the leaf. |
| Retrieval.RetrieveSound | src/core/quadtree.js:273-298 | The range query reports only stored items that overlap, none whose id was already seen and each id once. The dedup set grows by exactly the ids reported. |
| Retrieval.RetrieveComplete | src/core/quadtree.js:273-298 | In a placed tree, every stored item that overlaps the query ends up marked. |
| Retrieval.RetrieveExact | src/core/quadtree.js:83-86 | From a fresh list and dedup set, the query returns each id once. It returns only overlapping stored items, and its ids are exactly those of the overlapping stored items, as a linear scan would find them. |
| Retrieval.RetrieveLeafLoop | src/core/quadtree.js:281-296 | The leaf loop appends to `ar` and updates `deduper` as the specification says. |
| Retrieval.RetrieveChild | src/core/quadtree.js:276-278 | A child the query names is searched; any other child adds nothing. |
| Retrieval.RetrieveNode | src/core/quadtree.js:273-298 | The recursive query appends exactly the specified output to `ar` and leaves the specified dedup set. |
| Retrieval.RetrieveLeafAll | src/core/quadtree.js:281-296 | A leaf whose items all overlap the query, are unseen and have distinct ids reports all of them, in list order. |
| Retrieval.RetrieveLeafMarks | src/core/quadtree.js:281-296 | A leaf loop over items that all overlap marks all their ids. It reports nothing when every one of them was already seen. |
| Retrieval.UniformRetrieve | src/core/quadtree.js:273-298 | In a tree whose leaves all hold the same list, the query reports what one leaf alone reports: the dedup set makes every later leaf add nothing. |
| Retrieval.UniformAnswer | src/core/quadtree.js:83-86 | From a fresh list and dedup set, such a tree returns the list itself, in order, when every item overlaps the query and the ids are distinct. |
| Sweeps.DeliverSound | src/core/quadtree.js:300-310 | `sort_and_callback`'s loop calls back on a prefix of the list and stops at the first `false`. It runs to the end exactly when no call said `false`, and then it has called back on the whole list. |
| Sweeps.DeliverPrefix | src/core/quadtree.js:305-309 | A callback that never says `false` is called on the whole list. Any callback is called on a prefix of it. |
| Sweeps.SortAndCallback | src/core/quadtree.js:300-310 | The method sorts the buffer by the sweep's key, then delivers it as the loop specifies. |
| Sweeps.DeliverLoop | src/core/quadtree.js:302-309 | The loop with its early return computes the callback trace and the return value the specification gives. |
| Sweeps.LeafSweepSound | src/core/quadtree.js:370-385 | A sweep's leaf loop calls back only on items the leaf filter admits, unseen, each id once. It marks an id only after the callback said to go on, and stops at the first `false`. |
| Sweeps.LeafSweepComplete | src/core/quadtree.js:370-385 | A leaf loop that runs to the end has marked every item the filter admits. |
| Sweeps.LeafSweepSorted | src/core/quadtree.js:371 | A leaf loop over a list sorted by the key calls back in key order. |
| Sweeps.LeafSweepPrefix | src/core/quadtree.js:379-382 | Whatever the callback says, a leaf loop calls back on a prefix of what a never-stopping callback sees. An unstopped loop is that loop. |
| Sweeps.LeafSweepLoop | src/core/quadtree.js:370-385 | The leaf loop, with early return and dedup marks, computes what the specification gives. |
| Sweeps.PermutedKeeps | src/core/quadtree.js:371 | Reordering leaf lists keeps the stored items, the node count and both invariants. |
| Sweeps.SweepSound | src/core/quadtree.js:318-386 | A sweep calls back only on stored items one of its filters admits, none seen before, each id once. It stops at the first `false` and returns `false` through every frame, and changes the tree only by permuting leaf lists. |
| Sweeps.SweepComplete | src/core/quadtree.js:318-386 | A sweep that returns `true` has marked every stored item overlapping the query, provided the x sweep has a finite height. |
| Sweeps.PartSound | src/core/quadtree.js:325-366 | One side of a node (straddle buffer, single quadrant or nothing) delivers only admitted items of its two children, each id once, and permutes only their leaf lists. |
| Sweeps.StraddleSorted | src/core/quadtree.js:327-336 | A straddled pair drained through `retrieve` into one buffer is called back in key order. |
| Sweeps.SidesInOrder | src/core/quadtree.js:325-366 | For the increasing sweeps, everything the near side delivers has a key before the split line, and everything the far side delivers has one on or after it. So left comes before right for x and top before bottom for y. |
| Sweeps.SweepSorted | src/core/quadtree.js:318-458 | Over the whole tree, `retrieve_xinc` delivers non-decreasing x and `retrieve_yinc` non-decreasing y. |
| Sweeps.IncreasingAdmits | src/core/quadtree.js:376-378 | For the query shapes the xinc and yinc wrappers build, the leaf filter and the range query's test both equal the overlap test. |
| Sweeps.SweepTheorem | src/core/quadtree.js:318-538 | From a fresh dedup set, a sweep keeps the tree's invariants and items. It calls back on each id at most once and only on admitted stored items, and stops at the first `false`. A sweep that returns `true` has called back on every overlapping stored item. |
| Sweeps.IncreasingTheorem | src/core/quadtree.js:318-458 | xinc and yinc call back in key order, only on overlapping stored items. When they run to the end, they call back on exactly the ids of those items. |
| Sweeps.SweepPrefix | src/core/quadtree.js:332-344 | Stopping early changes nothing before the stop. A sweep delivers a prefix of what it delivers with a callback that never stops, and an unstopped sweep is that sweep. |
| Sweeps.PartPrefix | src/core/quadtree.js:325-366 | The same prefix property for one side of a node. |
| Sweeps.LeastFirst | src/core/quadtree.js:318-458 | Whatever the callback returns, an increasing sweep first calls back on the overlapping item whose key is strictly least. |
| Sweeps.SweepNode | src/core/quadtree.js:318-386 | The recursive sweep with its early returns produces exactly the specified new node (leaf lists sorted in place), callback trace, dedup set and return value. |
| Sweeps.PartNode | src/core/quadtree.js:325-366 | One side of a node, as the source branches on the quadrants named, gives what the specification gives. |
| Sweeps.Straddle | src/core/quadtree.js:327-336 | The straddle branch drains the two quadrants through `retrieve` into one buffer, sorts it and calls back, as specified. |
| Sweeps.YDecOneBuffer | src/core/quadtree.js:479-519 | When the query meets all four quadrants of the root and every admitted item lies above the split, `retrieve_ydec` calls back in decreasing y. |
| Sweeps.StraddleOverlaps | src/core/quadtree.js:327-336 | A straddled pair drained through `retrieve` hands over only items that overlap the query. |
| Sweeps.YDecTopPair | src/core/quadtree.js:479-519 | When the query meets only the top pair of an internal node (a start line above the split), `retrieve_ydec` calls back in decreasing y, and only on items that overlap the query. The start line bounds the output here. |
| Sweeps.YDecPassesStartLine | src/core/quadtree.js:529-532 | The ydec leaf filter has no bound at the start line. A leaf hands over an item lying wholly below it, which the range query's test rejects. |
| Sweeps.StraddledPageBuilt | src/core/quadtree.js:165-189 | Inserting the two example items into an empty page (one split allowed, a leaf limit of two) builds the tree the ydec counterexample uses. |
| Sweeps.YDecStraddlerFirst | src/core/quadtree.js:479-519 | In that inserted tree, `retrieve_ydec` calls back on an item straddling the split before a top-only item lower down the page. So ydec output is not in decreasing y overall. |
| QuadTrees.AsExtent | src/core/quadtree.js:132 | A number is the unbounded extent exactly when it is the sentinel -1, and its raw value is unchanged. |
| QuadTrees.XincQuery | src/core/quadtree.js:92-95 | The xinc query keeps the start point and height and has unbounded width. |
| QuadTrees.YincQuery | src/core/quadtree.js:100-103 | The yinc query keeps the start point and width and has unbounded height. |
| QuadTrees.YdecQuery | src/core/quadtree.js:108-114 | The ydec query starts at the root's top with the given x and width. Its height reaches down to the start line (the -1 height is the sentinel). |
| QuadTrees.QuadTree.constructor | src/core/quadtree.js:47-50 | A new tree has an empty root leaf at depth 0 and length 0. |
| QuadTrees.QuadTree.Insert | src/core/quadtree.js:67-70 | For an item with non-negative sizes, one insert keeps the invariant and the root's metadata, adds the item and adds one to `length`. |
| QuadTrees.QuadTree.InsertAll | src/core/quadtree.js:59-66 | For items with non-negative sizes, the new root is the old one with each array item inserted in turn (`InsertSeq`). The invariant holds, the items are appended, and `length` grows by the array's length. |
| QuadTrees.QuadTree.Retrieve | src/core/quadtree.js:83-86 | `retrieve` returns each id once, only inserted items that overlap, and all the ids of inserted items that overlap. |
| QuadTrees.QuadTree.RetrieveXinc | src/core/quadtree.js:92-95 | The sweep leaves the items and `length` unchanged and calls back on each id at most once, stopping at the first `false`. With a finite height it calls back in x order, only on overlapping items, and on all of them when not stopped. |
| QuadTrees.QuadTree.RetrieveYinc | src/core/quadtree.js:100-103 | The same for y: y order, only and (unless stopped) all overlapping inserted items. |
| QuadTrees.QuadTree.RetrieveYdec | src/core/quadtree.js:108-114 | The sweep leaves the items unchanged and calls back on each id at most once, only on admitted inserted items. When not stopped, it calls back on every item overlapping the query up to the start line. |
| Scenarios.EmptyTree | test/unit/quadtree_spec.js:10-17 | An empty tree has length 0, and the four probes return nothing. |
| Scenarios.ProbeOne | test/unit/quadtree_spec.js:18-62 | A tree holding one item returns exactly that item for an overlapping probe and nothing otherwise. |
| Scenarios.SingleItem | test/unit/quadtree_spec.js:18-62 | With the one item (2,2,96,96) inserted, the length is 1. The interior, just-inside and (1.01,1.01,1,1) probes return it; the 0.5-sized outside probes return nothing. |
| Scenarios.RepeatedItems | test/unit/quadtree_spec.js:64-89 | Nine identical items inserted as one array give length 9. Each of the four interior probes returns exactly the nine items, in the order ids 0..8, as the test's `toEqual(items)` demands. The four outside corner probes return nothing. |
| Scenarios.MissCopies | test/unit/quadtree_spec.js:85-89 | Each of the four corner probes outside the nine copies returns nothing. |
| Scenarios.CopiesInOrder | test/unit/quadtree_spec.js:80-83 | A probe that meets the big item returns the nine copies in insertion order from a tree whose leaves all hold them. |
| Scenarios.SameRectEverywhere | test/unit/quadtree_spec.js:64-78 | Inserting items that all have the big item's rectangle into an empty page tree leaves every leaf holding all of them, in order. |
| Scenarios.BigStraddles | src/core/quadtree.js:191-264 | The big item straddles the centre of every node a page tree with a depth limit of 4 can split into. |
| Scenarios.BigAtCentre | src/core/quadtree.js:191-224 | Above the depth limit, a node of the page tree sends the big item to all four quadrants. |
| Scenarios.ChildPageNode | src/core/quadtree.js:226-264 | `subdivide` keeps a page node's children inside the page and at least the least side for their depth. |
| Scenarios.FillPage | test/unit/quadtree_spec.js:65-77 | A new page tree given such an array holds the array, counts it, and every leaf holds all of it in order. |
| Scenarios.NewTree | src/core/quadtree.js:47-66 | `new QuadTree(bounds)` with the default limits, then `insert(items)`: a valid tree holding exactly the items, counting them, with a depth-0 root of limits 4 and 4. |
| Scenarios.RefusedOnce | test/unit/quadtree_spec.js:300-303 | A callback that returns `false` is called at most once, and a sweep it was called in returns `false`. |
| Scenarios.SweepRow | test/unit/quadtree_spec.js:132-139 | Over any tree holding the row and items clear of its band, xinc from (0,49) with height 1 or 5 delivers the row's ids 0..5 in order. |
| Scenarios.ScatterAsWritten | test/unit/quadtree_spec.js:195-287 | The twenty items added near the top-left and near the bottom-right have the tests' coordinates. For the row tests these are (i, i/20) and (99 - i, 98 - i/20); for the column tests (i/20, i) and (99 - i/20, 99 - i), for i = 0, 5, ..., 95. |
| Scenarios.RowIteration | test/unit/quadtree_spec.js:120-202 | The row test's two xinc sweeps deliver ids 0..5 in order alone, after 20 more items, and after 20 more again. |
| Scenarios.SweepColumn | test/unit/quadtree_spec.js:219-226 | Over any tree holding the column and items clear of it, yinc from (49,0) with width 1 or 5 delivers ids 0..5 in order. |
| Scenarios.ColumnIteration | test/unit/quadtree_spec.js:207-289 | The column test's two yinc sweeps deliver ids 0..5 in order at each of the three stages. |
| Scenarios.SweepColumnUp | test/unit/quadtree_spec.js:247-249 | ydec from (49,50) with width 1 delivers the column's ids 5..0, and keeps the tree and the root's metadata. |
| Scenarios.ColumnSplitsRoot | src/core/quadtree.js:176-187 | A page tree with the default limits that holds the column has an internal root, because a leaf at depth 0 holds fewer than four items. |
| Scenarios.SweepColumnDown | test/unit/quadtree_spec.js:250-259 | ydec from (49,t) with width 1, for a start line between the tops of two column items, delivers the column items at or above the line, bottom-up. This covers y = 13 (ids 5..0) and y = 9 (ids 3..0). |
| Scenarios.ColumnIterationUp | test/unit/quadtree_spec.js:244-259 | At each of the three stages, the column test's ydec sweeps deliver ids 5..0 from y = 50 and from y = 13, and ids 3..0 from y = 9. |
| Scenarios.FirstAlongX | test/unit/quadtree_spec.js:293-303 | xinc from (0,0) with height 50 and a callback returning `false` calls back once, on the long bar with id 1, whatever else lies to its right. |
| Scenarios.FirstAlongY | test/unit/quadtree_spec.js:327-337 | yinc from (0,0) with width 50 calls back once, on the tall bar with id 1. |
| Scenarios.VarSize | test/unit/quadtree_spec.js:292-337 | In all three var-size tests the first and only callback is for id 1. This includes the one whose extra items split the root. |
| Scenarios.PageExample | test/unit/quadtree_spec.js:344-363 | On the 350 x 500 page, yinc from (327.50,226.06) with width 3.74 calls back exactly twice: id 0, then id 1. |

## Left out

- `print` on both classes (src/core/quadtree.js:72-75, 140-161): console
  output only.
- The shared `_out` buffer (src/core/quadtree.js:136): it is never used.
- `retrieve_xdec`: the tests call it, but src/core/quadtree.js does not
  define it, so there is nothing to model.
- `src/core/textlayout.js`: not part of this model. It does not parse, it
  depends on undefined globals, and it is built on timers and promises.
- Arithmetic: coordinates are exact reals. IEEE-754 rounding is not
  modelled, and `| 0` is truncation toward zero without its 32-bit
  wrap-around.
- The -1 sentinel: extents of queries are `Finite(len) | Inf`. Stored items
  have finite sizes, and `QuadTree.Insert` and `QuadTree.InsertAll` require
  them to be non-negative (`ValidItem`). The sweep wrappers take `Extent`s,
  so a caller's -1 arrives as `Inf`. The one place a computed value may hit the sentinel (a
  ydec start line exactly one unit above the root) is kept: `YdecQuery` reads
  that height as unbounded, as the source does.
- Aliasing: nodes are values, and the class replaces its root. Nothing else
  holds a reference to a node, so no sharing is lost.
- The builtin sort: `Array.prototype.sort` is modelled as an insertion sort
  by the comparator's key. Only its ordering and permutation properties are
  used; the order among equal keys is not relied on.
- The callback: a pure function from an item to "keep going". Its side
  effects, such as pushing onto `out`, are the returned trace. A return value
  other than `false` counts as "keep going".
- Test call shapes: the tests pass scalars, as in `retrieve_xinc(0,49,1,f)`,
  but the code takes `(rect, func)`. Each call is modelled as the rectangle
  the scalars stand for.
- Test items without an `id` (test/unit/quadtree_spec.js:195, 200, 282, 287)
  would share one dedup key. The model gives them distinct ids.
- Test expectations that contradict the code are not stated:
  - The touching-edge checks assume a strict overlap test, but the code's
    test is inclusive (test/unit/quadtree_spec.js:47-58, 102-113, 143-155,
    230-242). For example, an item with x = 2 and width 2 is met by a query
    starting at x = 4.
  - The same holds for the ydec checks from y = 12, 8, 6, 4 and 2
    (test/unit/quadtree_spec.js:254-256, 260-272). The top pair is drained
    through `retrieve`, whose bound `c.y <= y0 + height` also admits the
    item whose top lies on the start line.
  - The var-size ydec check (test/unit/quadtree_spec.js:338-341) expects id 1
    first. The descending sort on y puts id 0 (y = 10) before id 1 (y = 2).
- QuadTrees.QuadTree.RetrieveYdec: no global order and no bound at the start
  line are stated, because the code promises neither. `YDecStraddlerFirst`
  and `YDecPassesStartLine` show why; `YDecOneBuffer` gives the case where
  the order does hold.
- QuadTrees.QuadTree.RetrieveXinc: order and overlap are stated only for a
  finite height. With an unbounded height, the xinc leaf filter computes
  `y + height` with the sentinel -1.
- Right and bottom neighbour linking: no code for it exists in the source.
