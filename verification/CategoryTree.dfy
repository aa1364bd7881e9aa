/**
 * getCategoryTree: nodes are created and linked in two passes, then sibling lists are sorted
 * recursively in place. That the recursion ends, and what it reaches, follows from the link graph.
 */
module CategoryTree {
  import opened Prelude
  import opened CategoryGraph

  /** A row of the query: the active categories of one tenant. */
  datatype Category = Category(id: string, name: string, slug: string, parentCategoryId: Option<string>)

  // ---------------------------------------------------------------------------------------------
  // From rows to links
  // ---------------------------------------------------------------------------------------------

  ghost predicate DistinctIds(cats: seq<Category>) {
    forall i, j :: 0 <= i < j < |cats| ==> cats[i].id != cats[j].id
  }

  predicate IsActive(cats: seq<Category>, id: string) {
    exists i :: 0 <= i < |cats| && cats[i].id == id
  }

  /** The parent a row is linked under: absent and empty ids, and parents outside the result, make
      it a root. */
  function LinkOf(cats: seq<Category>, c: Category): Option<string> {
    if c.parentCategoryId.Some? && c.parentCategoryId.value != "" && IsActive(cats, c.parentCategoryId.value)
    then c.parentCategoryId else None
  }

  ghost function LinksOf(cats: seq<Category>): (up: Links)
    requires DistinctIds(cats)
    ensures forall i :: 0 <= i < |cats| ==> cats[i].id in up && up[cats[i].id] == LinkOf(cats, cats[i])
    ensures forall id :: id in up <==> IsActive(cats, id)
    ensures Closed(up)
  {
    map i | 0 <= i < |cats| :: cats[i].id := LinkOf(cats, cats[i])
  }

  // ---------------------------------------------------------------------------------------------
  // Sorting siblings
  // ---------------------------------------------------------------------------------------------

  class Node {
    const id: string
    const name: string
    const slug: string
    var children: seq<Node>

    constructor (id: string, name: string, slug: string)
      ensures this.id == id && this.name == name && this.slug == slug && children == []
    {
      this.id, this.name, this.slug := id, name, slug;
      children := [];
    }
  }

  /** Where a name sorts: a.localeCompare(b) <= 0 is rank(a) <= rank(b). There are countably many
      strings, so every total preorder of them has this form. */
  type Collation = string -> real

  function Insert(rank: Collation, x: Node, s: seq<Node>): seq<Node> {
    if s == [] then [x]
    else if rank(x.name) <= rank(s[0].name) then [x] + s
    else [s[0]] + Insert(rank, x, s[1..])
  }

  /** The stable sort by name. */
  function SortByName(rank: Collation, s: seq<Node>): (r: seq<Node>) {
    if s == [] then [] else Insert(rank, s[0], SortByName(rank, s[1..]))
  }

  ghost predicate Sorted(rank: Collation, s: seq<Node>) {
    forall i, j :: 0 <= i < j < |s| ==> rank(s[i].name) <= rank(s[j].name)
  }

  lemma {:induction false} InsertMembers(rank: Collation, x: Node, s: seq<Node>)
    ensures multiset(Insert(rank, x, s)) == multiset(s) + multiset{x}
  {
    if s != [] && rank(x.name) > rank(s[0].name) {
      InsertMembers(rank, x, s[1..]);
      assert s == [s[0]] + s[1..];
    }
  }

  lemma {:induction false} InsertSorted(rank: Collation, x: Node, s: seq<Node>)
    requires Sorted(rank, s)
    ensures Sorted(rank, Insert(rank, x, s))
  {
    if s != [] && rank(x.name) > rank(s[0].name) {
      var r := Insert(rank, x, s[1..]);
      SortedTail(rank, s);
      InsertSorted(rank, x, s[1..]);
      InsertMembers(rank, x, s[1..]);
      forall i | 0 <= i < |r|
        ensures rank(s[0].name) <= rank(r[i].name)
      {
        assert r[i] in multiset(r);
      }
      SortedCons(rank, s[0], r);
      hide Sorted;
    } else {
      SortedFront(rank, x, s);
      hide Sorted;
    }
  }

  lemma SortedTail(rank: Collation, s: seq<Node>)
    requires s != [] && Sorted(rank, s)
    ensures Sorted(rank, s[1..]) && forall i :: 0 <= i < |s| ==> rank(s[0].name) <= rank(s[i].name)
  {
  }

  lemma SortedCons(rank: Collation, x: Node, s: seq<Node>)
    requires Sorted(rank, s) && forall i :: 0 <= i < |s| ==> rank(x.name) <= rank(s[i].name)
    ensures Sorted(rank, [x] + s)
  {
  }

  lemma SortedFront(rank: Collation, x: Node, s: seq<Node>)
    requires Sorted(rank, s) && (s != [] ==> rank(x.name) <= rank(s[0].name))
    ensures Sorted(rank, [x] + s) && (s == [] ==> [x] + s == [x])
  {
  }

  /** The result is sorted and has exactly the same nodes. */
  lemma {:induction false} SortFacts(rank: Collation, s: seq<Node>)
    ensures Sorted(rank, SortByName(rank, s)) && multiset(SortByName(rank, s)) == multiset(s)
  {
    if s != [] {
      SortFacts(rank, s[1..]);
      InsertSorted(rank, s[0], SortByName(rank, s[1..]));
      InsertMembers(rank, s[0], SortByName(rank, s[1..]));
      assert s == [s[0]] + s[1..];
    }
  }

  lemma SortMembers(rank: Collation, s: seq<Node>, x: Node)
    ensures x in SortByName(rank, s) <==> x in s
  {
    SortFacts(rank, s);
    assert x in multiset(SortByName(rank, s)) <==> x in multiset(s);
  }

  lemma {:induction false} SortedIsFixed(rank: Collation, s: seq<Node>)
    requires Sorted(rank, s)
    ensures SortByName(rank, s) == s
  {
    if s != [] {
      SortedIsFixed(rank, s[1..]);
      assert s == [s[0]] + s[1..];
    }
  }

  /** Sorting twice is sorting once. */
  lemma SortIdempotent(rank: Collation, s: seq<Node>)
    ensures SortByName(rank, SortByName(rank, s)) == SortByName(rank, s)
  {
    SortFacts(rank, s);
    SortedIsFixed(rank, SortByName(rank, s));
  }

  /** The nodes of `s` whose names collate equal to `name`, in order. */
  function Ties(rank: Collation, s: seq<Node>, name: string): seq<Node> {
    if s == [] then []
    else (if rank(s[0].name) <= rank(name) && rank(name) <= rank(s[0].name) then [s[0]] else []) + Ties(rank, s[1..], name)
  }

  /** Siblings with equal names keep the order in which the query returned them. */
  lemma {:induction false} SortIsStable(rank: Collation, s: seq<Node>, name: string)
    ensures Ties(rank, SortByName(rank, s), name) == Ties(rank, s, name)
  {
    if s != [] {
      SortIsStable(rank, s[1..], name);
      InsertIsStable(rank, s[0], SortByName(rank, s[1..]), name);
    }
  }

  lemma {:induction false} InsertIsStable(rank: Collation, x: Node, s: seq<Node>, name: string)
    ensures Ties(rank, Insert(rank, x, s), name) ==
      (if rank(x.name) <= rank(name) && rank(name) <= rank(x.name) then [x] else []) + Ties(rank, s, name)
  {
    hide Ties;
    if s != [] && rank(x.name) > rank(s[0].name) {
      var tail := Insert(rank, x, s[1..]);
      InsertIsStable(rank, x, s[1..], name);
      TiesCons(rank, s[0], tail, name);
      TiesCons(rank, s[0], s[1..], name);
      assert s == [s[0]] + s[1..] && Insert(rank, x, s) == [s[0]] + tail;
      if rank(s[0].name) <= rank(name) && rank(name) <= rank(s[0].name) {
        assert [] + Ties(rank, s[1..], name) == Ties(rank, s[1..], name) && [] + Ties(rank, s, name) == Ties(rank, s, name);
      }
    } else {
      TiesCons(rank, x, s, name);
      assert s == [] ==> [x] + s == [x];
    }
  }

  lemma TiesCons(rank: Collation, x: Node, s: seq<Node>, name: string)
    ensures Ties(rank, [x] + s, name) == (if rank(x.name) <= rank(name) && rank(name) <= rank(x.name) then [x] else []) + Ties(rank, s, name)
  {
    assert ([x] + s)[1..] == s;
  }

  // ---------------------------------------------------------------------------------------------
  // Building
  // ---------------------------------------------------------------------------------------------

  /** The nodes of the rows linked under `parent` (None for the roots), in query order. */
  function Kids(up: Links, rows: seq<Category>, nodes: map<string, Node>, parent: Option<string>): seq<Node>
    requires forall i :: 0 <= i < |rows| ==> rows[i].id in nodes && rows[i].id in up
  {
    if rows == [] then []
    else
      var c := rows[|rows| - 1];
      Kids(up, rows[..|rows| - 1], nodes, parent) + (if up[c.id] == parent then [nodes[c.id]] else [])
  }

  lemma {:induction false} KidsMembers(up: Links, rows: seq<Category>, nodes: map<string, Node>, parent: Option<string>, x: Node)
    requires forall i :: 0 <= i < |rows| ==> rows[i].id in nodes && rows[i].id in up
    ensures x in Kids(up, rows, nodes, parent) <==>
      exists i :: 0 <= i < |rows| && up[rows[i].id] == parent && nodes[rows[i].id] == x
  {
    if rows != [] {
      KidsMembers(up, rows[..|rows| - 1], nodes, parent, x);
    }
  }

  /** The children list of every node, as a value. */
  type ChildLists = map<string, seq<Node>>

  ghost function ListsOf(nodes: map<string, Node>): ChildLists
    reads nodes.Values
  {
    map id | id in nodes :: nodes[id].children
  }

  ghost function KidLists(up: Links, rows: seq<Category>, nodes: map<string, Node>): ChildLists
    requires forall i :: 0 <= i < |rows| ==> rows[i].id in nodes && rows[i].id in up
  {
    map id | id in nodes :: Kids(up, rows, nodes, Some(id))
  }

  lemma KidsAppend(up: Links, rows: seq<Category>, c: Category, nodes: map<string, Node>, parent: Option<string>)
    requires forall i :: 0 <= i < |rows| ==> rows[i].id in nodes && rows[i].id in up
    requires c.id in nodes && c.id in up
    ensures
      Kids(up, rows + [c], nodes, parent) ==
      Kids(up, rows, nodes, parent) + if up[c.id] == parent then [nodes[c.id]] else []
  {
    assert (rows + [c])[..|rows|] == rows;
  }

  lemma KidListsAppend(up: Links, rows: seq<Category>, c: Category, nodes: map<string, Node>)
    requires forall i :: 0 <= i < |rows| ==> rows[i].id in nodes && rows[i].id in up
    requires c.id in nodes && c.id in up && (up[c.id].Some? ==> up[c.id].value in nodes)
    ensures
      var before := KidLists(up, rows, nodes);
      KidLists(up, rows + [c], nodes) ==
      if up[c.id].None? then before else before[up[c.id].value := before[up[c.id].value] + [nodes[c.id]]]
  {
    var before := KidLists(up, rows, nodes);
    var after := if up[c.id].None? then before else before[up[c.id].value := before[up[c.id].value] + [nodes[c.id]]];
    assert after.Keys == nodes.Keys;
    forall id | id in nodes
      ensures KidLists(up, rows + [c], nodes)[id] == after[id]
    {
      KidsAppend(up, rows, c, nodes, Some(id));
    }
  }

  lemma NoKids(up: Links, nodes: map<string, Node>)
    requires forall id :: id in nodes ==> nodes[id].children == []
    ensures ListsOf(nodes) == KidLists(up, [], nodes)
    ensures Kids(up, [], nodes, None) == []
  {
  }

  /** Every row has its own node, carrying its columns. */
  ghost predicate NodesFor(cats: seq<Category>, nodes: map<string, Node>) {
    && (forall id :: id in nodes <==> IsActive(cats, id))
    && OwnIds(nodes)
    && (forall i :: 0 <= i < |cats| ==> nodes[cats[i].id].name == cats[i].name && nodes[cats[i].id].slug == cats[i].slug)
  }

  ghost predicate OwnIds(nodes: map<string, Node>) {
    forall id :: id in nodes ==> nodes[id].id == id
  }

  /** A list holds exactly the nodes linked under `parent`. */
  ghost predicate Lists(up: Links, nodes: map<string, Node>, list: seq<Node>, parent: Option<string>)
    requires nodes.Keys == up.Keys
  {
    && (forall i :: 0 <= i < |list| ==> list[i].id in nodes && nodes[list[i].id] == list[i] && up[list[i].id] == parent)
    && (forall c :: c in nodes && up[c] == parent ==> nodes[c] in list)
  }

  /** What holds of every children list throughout the sort. */
  ghost predicate Hangs(up: Links, nodes: map<string, Node>, lists: ChildLists) {
    && Closed(up) && nodes.Keys == up.Keys && lists.Keys == nodes.Keys && OwnIds(nodes)
    && forall id :: id in nodes ==> Lists(up, nodes, lists[id], Some(id))
  }

  lemma KidsAreListed(up: Links, rows: seq<Category>, nodes: map<string, Node>, parent: Option<string>)
    requires OwnIds(nodes) && nodes.Keys == up.Keys
    requires forall i :: 0 <= i < |rows| ==> rows[i].id in nodes
    requires forall id :: id in nodes ==> IsActive(rows, id)
    ensures Lists(up, nodes, Kids(up, rows, nodes, parent), parent)
  {
    var kids := Kids(up, rows, nodes, parent);
    forall i | 0 <= i < |kids|
      ensures kids[i].id in nodes && nodes[kids[i].id] == kids[i] && up[kids[i].id] == parent
    {
      KidsMembers(up, rows, nodes, parent, kids[i]);
    }
    forall c | c in nodes && up[c] == parent
      ensures nodes[c] in kids
    {
      KidsMembers(up, rows, nodes, parent, nodes[c]);
      assert IsActive(rows, c);
    }
  }

  lemma SortStillLists(up: Links, rank: Collation, nodes: map<string, Node>, list: seq<Node>, parent: Option<string>)
    requires nodes.Keys == up.Keys && Lists(up, nodes, list, parent)
    ensures Lists(up, nodes, SortByName(rank, list), parent)
  {
    var sorted := SortByName(rank, list);
    forall i | 0 <= i < |sorted|
      ensures sorted[i] in list
    {
      SortMembers(rank, list, sorted[i]);
    }
    forall c | c in nodes && up[c] == parent
      ensures nodes[c] in sorted
    {
      SortMembers(rank, list, nodes[c]);
    }
  }

  // ---------------------------------------------------------------------------------------------
  // What the recursive sort does to all the lists
  // ---------------------------------------------------------------------------------------------

  /** One of the listed nodes is `d` itself or above it. */
  ghost predicate Under(up: Links, d: string, list: seq<Node>) {
    exists i :: 0 <= i < |list| && Climbs(up, d, list[i].id)
  }

  /** The lists of everything at or below category `a`, sorted. */
  ghost function SortedAt(up: Links, rank: Collation, a: string, was: ChildLists): ChildLists {
    map id | id in was :: if Climbs(up, id, a) then SortByName(rank, was[id]) else was[id]
  }

  /** The lists of everything at or below one of the listed nodes, sorted. */
  ghost function SortedUnder(up: Links, rank: Collation, list: seq<Node>, was: ChildLists): ChildLists {
    map id | id in was :: if Under(up, id, list) then SortByName(rank, was[id]) else was[id]
  }

  lemma UnderAppend(up: Links, d: string, list: seq<Node>, x: Node)
    ensures Under(up, d, list + [x]) <==> Under(up, d, list) || Climbs(up, d, x.id)
  {
    if Under(up, d, list) {
      var i :| 0 <= i < |list| && Climbs(up, d, list[i].id);
      assert (list + [x])[i] == list[i];
    }
    assert (list + [x])[|list|] == x;
  }

  lemma SortedUnderNone(up: Links, rank: Collation, was: ChildLists)
    ensures SortedUnder(up, rank, [], was) == was
  {
  }

  /** One more turn of the loop over a list. Subtrees may overlap: sorting twice is sorting once. */
  lemma SortedUnderAppend(up: Links, rank: Collation, list: seq<Node>, x: Node, was: ChildLists)
    ensures SortedUnder(up, rank, list + [x], was) == SortedAt(up, rank, x.id, SortedUnder(up, rank, list, was))
  {
    forall id | id in was
      ensures SortedUnder(up, rank, list + [x], was)[id] == SortedAt(up, rank, x.id, SortedUnder(up, rank, list, was))[id]
    {
      UnderAppend(up, id, list, x);
      SortIdempotent(rank, was[id]);
    }
  }

  /** Being at or below a node is being that node, or at or below one of its children. */
  lemma UnderKids(up: Links, nodes: map<string, Node>, a: string, kids: seq<Node>, d: string)
    requires Closed(up) && nodes.Keys == up.Keys && OwnIds(nodes) && Lists(up, nodes, kids, Some(a))
    requires a in nodes && d in nodes
    ensures Climbs(up, d, a) <==> d == a || Under(up, d, kids)
  {
    if Climbs(up, d, a) && d != a {
      var n: nat :| ClimbsIn(up, d, a, n);
      var c := ClimbsThroughKid(up, d, a, n);
      var i :| 0 <= i < |kids| && kids[i] == nodes[c];
      assert Climbs(up, d, kids[i].id);
    }
    assert ClimbsIn(up, d, d, 0);
    if Under(up, d, kids) {
      var i :| 0 <= i < |kids| && Climbs(up, d, kids[i].id);
      var n: nat :| ClimbsIn(up, d, kids[i].id, n);
      assert ClimbsIn(up, kids[i].id, a, 1);
      ClimbsTogether(up, d, kids[i].id, a, n, 1);
    }
  }

  lemma SortedOwnHangs(up: Links, rank: Collation, nodes: map<string, Node>, a: string, was: ChildLists)
    requires Hangs(up, nodes, was) && a in nodes
    ensures Hangs(up, nodes, was[a := SortByName(rank, was[a])])
  {
    hide Lists, SortByName, OwnIds, Closed;
    SortStillLists(up, rank, nodes, was[a], Some(a));
  }

  lemma SortedPieces(up: Links, rank: Collation, a: string, was: ChildLists, sorted: seq<Node>)
    requires a in was && sorted == SortByName(rank, was[a]) == SortByName(rank, sorted)
    requires forall id :: id in was ==> (Climbs(up, id, a) <==> id == a || Under(up, id, sorted))
    ensures SortedUnder(up, rank, sorted, was[a := sorted]) == SortedAt(up, rank, a, was)
  {
    hide Climbs, Under, SortByName;
  }

  /** Sorting a node's own list and then everything below its children sorts everything from it down. */
  lemma SortedAtByKids(up: Links, rank: Collation, nodes: map<string, Node>, a: string, was: ChildLists)
    requires Hangs(up, nodes, was) && a in nodes
    ensures
      var own := was[a := SortByName(rank, was[a])];
      SortedUnder(up, rank, own[a], own) == SortedAt(up, rank, a, was)
  {
    var sorted := SortByName(rank, was[a]);
    SortStillLists(up, rank, nodes, was[a], Some(a));
    SortIdempotent(rank, was[a]);
    forall id | id in was
      ensures Climbs(up, id, a) <==> id == a || Under(up, id, sorted)
    {
      UnderKids(up, nodes, a, sorted, id);
    }
    SortedPieces(up, rank, a, was, sorted);
  }

  lemma SortedAtLeaf(up: Links, rank: Collation, nodes: map<string, Node>, a: string, was: ChildLists)
    requires Hangs(up, nodes, was) && a in nodes && was[a] == []
    ensures SortedAt(up, rank, a, was) == was
  {
    hide Lists, Climbs;
    assert Lists(up, nodes, [], Some(a));
    forall id | id in was
      ensures SortedAt(up, rank, a, was)[id] == was[id]
    {
      UnderKids(up, nodes, a, [], id);
    }
  }

  lemma SortedAtHangs(up: Links, rank: Collation, nodes: map<string, Node>, a: string, was: ChildLists)
    requires Hangs(up, nodes, was)
    ensures Hangs(up, nodes, SortedAt(up, rank, a, was))
  {
    forall id | id in nodes
      ensures Lists(up, nodes, SortedAt(up, rank, a, was)[id], Some(id))
    {
      SortStillLists(up, rank, nodes, was[id], Some(id));
    }
  }

  /** Exactly the grounded categories are at or below a root. */
  lemma UnderRoots(up: Links, nodes: map<string, Node>, roots: seq<Node>, d: string)
    requires Closed(up) && nodes.Keys == up.Keys && OwnIds(nodes) && Lists(up, nodes, roots, None)
    requires d in nodes
    ensures Under(up, d, roots) <==> Grounded(up, d)
  {
    if Grounded(up, d) {
      var r :| r in up && Climbs(up, d, r) && up[r].None?;
      var i :| 0 <= i < |roots| && roots[i] == nodes[r];
      assert Climbs(up, d, roots[i].id);
    }
  }

  lemma BoundPositive(up: Links, nodes: map<string, Node>, lists: ChildLists, a: string, bound: nat)
    requires Hangs(up, nodes, lists) && a in nodes && LowerThan(up, a, bound)
    ensures bound > 0 && OwnIds(nodes) && lists.Keys == nodes.Keys
  {
    assert ClimbsIn(up, a, a, 0);
  }

  lemma KidsAreLower(up: Links, nodes: map<string, Node>, a: string, lists: ChildLists, bound: nat)
    requires Hangs(up, nodes, lists) && a in nodes && LowerThan(up, a, bound) && bound > 0
    ensures forall i :: 0 <= i < |lists[a]| ==>
      lists[a][i].id in nodes && nodes[lists[a][i].id] == lists[a][i] && LowerThan(up, lists[a][i].id, bound - 1)
  {
    var kids := lists[a];
    assert Lists(up, nodes, kids, Some(a));
    forall i | 0 <= i < |kids|
      ensures LowerThan(up, kids[i].id, bound - 1)
    {
      forall d: string, k: nat | ClimbsIn(up, d, kids[i].id, k)
        ensures k < bound - 1
      {
        assert ClimbsIn(up, kids[i].id, a, 1);
        ClimbsTogether(up, d, kids[i].id, a, k, 1);
      }
    }
  }

  // ---------------------------------------------------------------------------------------------
  // The two passes and the sort, in place
  // ---------------------------------------------------------------------------------------------

  method CreateNodes(cats: seq<Category>) returns (nodes: map<string, Node>)
    requires DistinctIds(cats)
    ensures NodesFor(cats, nodes) && fresh(nodes.Values)
    ensures forall id :: id in nodes ==> nodes[id].children == []
  {
    nodes := map[];
    for k := 0 to |cats|
      invariant NodesFor(cats[..k], nodes) && fresh(nodes.Values)
      invariant forall id :: id in nodes ==> nodes[id].children == []
    {
      var node := new Node(cats[k].id, cats[k].name, cats[k].slug);
      ghost var before := nodes;
      nodes := nodes[cats[k].id := node];
      ActiveMore(cats, k);
      hide IsActive;
      assert nodes.Values <= before.Values + {node};
    }
    assert cats[..|cats|] == cats;
  }

  lemma ActiveMore(cats: seq<Category>, k: nat)
    requires k < |cats|
    ensures forall id :: IsActive(cats[..k + 1], id) <==> IsActive(cats[..k], id) || id == cats[k].id
  {
    forall id
      ensures IsActive(cats[..k + 1], id) <==> IsActive(cats[..k], id) || id == cats[k].id
    {
      if IsActive(cats[..k], id) {
        var i :| 0 <= i < k && cats[..k][i].id == id;
        assert cats[..k + 1][i].id == id;
      }
      assert cats[..k + 1][k] == cats[k];
    }
  }

  lemma TakeMore(cats: seq<Category>, k: nat)
    requires k < |cats|
    ensures cats[..k + 1] == cats[..k] + [cats[k]]
  {
  }

  method LinkNodes(cats: seq<Category>, nodes: map<string, Node>, ghost up: Links) returns (roots: seq<Node>)
    requires OwnIds(nodes) && nodes.Keys == up.Keys
    requires forall i :: 0 <= i < |cats| ==> cats[i].id in up && up[cats[i].id] == LinkOf(cats, cats[i])
    requires forall id :: id in nodes <==> IsActive(cats, id)
    requires forall id :: id in nodes ==> nodes[id].children == []
    modifies nodes.Values
    ensures roots == Kids(up, cats, nodes, None)
    ensures ListsOf(nodes) == KidLists(up, cats, nodes)
  {
    hide *;
    NoKids(up, nodes);
    roots := [];
    for k := 0 to |cats|
      invariant roots == Kids(up, cats[..k], nodes, None)
      invariant ListsOf(nodes) == KidLists(up, cats[..k], nodes)
    {
      TakeMore(cats, k);
      roots := LinkNode(cats, nodes, cats[k], roots, up, cats[..k]);
    }
    assert cats[..|cats|] == cats;
  }

  /** One turn of the second pass. */
  method LinkNode(ghost cats: seq<Category>, nodes: map<string, Node>, cat: Category, roots: seq<Node>,
                  ghost up: Links, ghost rows: seq<Category>)
    returns (more: seq<Node>)
    requires OwnIds(nodes) && nodes.Keys == up.Keys && cat.id in up && up[cat.id] == LinkOf(cats, cat)
    requires forall id :: id in nodes <==> IsActive(cats, id)
    requires forall i :: 0 <= i < |rows| ==> rows[i].id in up
    requires roots == Kids(up, rows, nodes, None) && ListsOf(nodes) == KidLists(up, rows, nodes)
    modifies nodes.Values
    ensures more == Kids(up, rows + [cat], nodes, None)
    ensures ListsOf(nodes) == KidLists(up, rows + [cat], nodes)
  {
    assert cat.parentCategoryId.Some? && cat.parentCategoryId.value != "" && cat.parentCategoryId.value in nodes ==>
      up[cat.id] == cat.parentCategoryId;
    assert up[cat.id].Some? ==> up[cat.id] == cat.parentCategoryId && cat.parentCategoryId.value != "" && cat.parentCategoryId.value in nodes;
    hide *;
    KidsAppend(up, rows, cat, nodes, None);
    KidListsAppend(up, rows, cat, nodes);
    more := roots;
    var node := nodes[cat.id];
    if cat.parentCategoryId.Some? && cat.parentCategoryId.value != "" {
      if cat.parentCategoryId.value in nodes {
        var parent := nodes[cat.parentCategoryId.value];
        Push(nodes, cat.parentCategoryId.value, parent, node);
      } else {
        more := roots + [node];
      }
    } else {
      more := roots + [node];
    }
  }

  /** parent.children.push(node) */
  method Push(ghost nodes: map<string, Node>, ghost id: string, parent: Node, node: Node)
    requires OwnIds(nodes) && id in nodes && nodes[id] == parent
    modifies parent
    ensures ListsOf(nodes) == old(ListsOf(nodes))[id := old(ListsOf(nodes))[id] + [node]]
  {
    parent.children := parent.children + [node];
  }

  /** sortRecursive below an already sorted list: the children of everything under it end sorted,
      and no other list is touched. `bound` is only there to show that the recursion ends. */
  method SortDescendants(ghost up: Links, rank: Collation, ghost nodes: map<string, Node>, list: seq<Node>, ghost bound: nat)
    requires Hangs(up, nodes, ListsOf(nodes))
    requires forall i :: 0 <= i < |list| ==>
      list[i].id in nodes && nodes[list[i].id] == list[i] && LowerThan(up, list[i].id, bound)
    modifies nodes.Values
    ensures Hangs(up, nodes, ListsOf(nodes))
    ensures ListsOf(nodes) == SortedUnder(up, rank, list, old(ListsOf(nodes)))
    decreases bound
  {
    hide *;
    ghost var was := ListsOf(nodes);
    SortedUnderNone(up, rank, was);
    for i := 0 to |list|
      invariant Hangs(up, nodes, ListsOf(nodes))
      invariant ListsOf(nodes) == SortedUnder(up, rank, list[..i], was)
    {
      SortedUnderAppend(up, rank, list[..i], list[i], was);
      assert list[..i + 1] == list[..i] + [list[i]];
      SortBelow(up, rank, nodes, list[i], bound);
    }
    assert list[..|list|] == list;
  }

  lemma ListsAt(nodes: map<string, Node>, x: Node)
    requires x.id in nodes && nodes[x.id] == x
    ensures ListsOf(nodes)[x.id] == x.children
  {
  }

  method SetChildren(ghost nodes: map<string, Node>, x: Node, children: seq<Node>)
    requires OwnIds(nodes) && x.id in nodes && nodes[x.id] == x
    modifies x
    ensures x.children == children
    ensures ListsOf(nodes) == old(ListsOf(nodes))[x.id := children]
  {
    x.children := children;
  }

  /** One turn of the loop: a node's children are sorted, then everything below them. */
  method SortBelow(ghost up: Links, rank: Collation, ghost nodes: map<string, Node>, x: Node, ghost bound: nat)
    requires Hangs(up, nodes, ListsOf(nodes))
    requires x.id in nodes && nodes[x.id] == x && LowerThan(up, x.id, bound)
    modifies nodes.Values
    ensures Hangs(up, nodes, ListsOf(nodes))
    ensures ListsOf(nodes) == SortedAt(up, rank, x.id, old(ListsOf(nodes)))
    decreases bound, 0
  {
    hide *;
    BoundPositive(up, nodes, ListsOf(nodes), x.id, bound);
    ghost var was := ListsOf(nodes);
    ListsAt(nodes, x);
    SortedAtByKids(up, rank, nodes, x.id, was);
    SortedOwnHangs(up, rank, nodes, x.id, was);
    SortedAtHangs(up, rank, nodes, x.id, was);
    if |x.children| > 0 {
      SetChildren(nodes, x, SortByName(rank, x.children));
      KidsAreLower(up, nodes, x.id, ListsOf(nodes), bound);
      SortDescendants(up, rank, nodes, x.children, bound - 1);
    } else {
      SortedAtLeaf(up, rank, nodes, x.id, was);
    }
  }

  /** The rows, their nodes and their links belong together. */
  ghost predicate Matching(up: Links, cats: seq<Category>, nodes: map<string, Node>) {
    && Closed(up) && nodes.Keys == up.Keys && OwnIds(nodes)
    && (forall i :: 0 <= i < |cats| ==> cats[i].id in nodes)
    && (forall id :: id in nodes ==> IsActive(cats, id))
  }

  lemma LinkedHangs(up: Links, cats: seq<Category>, nodes: map<string, Node>)
    requires Matching(up, cats, nodes)
    ensures Hangs(up, nodes, KidLists(up, cats, nodes))
  {
    forall id | id in nodes
      ensures Lists(up, nodes, KidLists(up, cats, nodes)[id], Some(id))
    {
      KidsAreListed(up, cats, nodes, Some(id));
    }
  }

  lemma SortedRoots(up: Links, cats: seq<Category>, rank: Collation, nodes: map<string, Node>)
    requires Matching(up, cats, nodes)
    ensures
      var roots := SortByName(rank, Kids(up, cats, nodes, None));
      && Lists(up, nodes, roots, None)
      && forall i :: 0 <= i < |roots| ==> LowerThan(up, roots[i].id, |up|)
  {
    var kids := Kids(up, cats, nodes, None);
    KidsAreListed(up, cats, nodes, None);
    SortStillLists(up, rank, nodes, kids, None);
    var roots := SortByName(rank, kids);
    hide Kids, SortByName, LowerThan;
    forall i | 0 <= i < |roots|
      ensures LowerThan(up, roots[i].id, |up|)
    {
      RootsAreShallow(up, roots[i].id);
    }
  }

  lemma SortedIsBuilt(up: Links, cats: seq<Category>, rank: Collation, nodes: map<string, Node>, roots: seq<Node>)
    requires Matching(up, cats, nodes) && roots == SortByName(rank, Kids(up, cats, nodes, None))
    ensures Built(up, cats, rank, nodes, SortedUnder(up, rank, roots, KidLists(up, cats, nodes)), roots)
  {
    hide Kids, SortByName, Grounded, Under, Lists, Closed, LowerThan;
    SortedRoots(up, cats, rank, nodes);
    forall id | id in nodes
      ensures Under(up, id, roots) <==> Grounded(up, id)
    {
      UnderRoots(up, nodes, roots, id);
    }
  }

  /** The state after the recursive sort: every list holds its kids, sorted wherever the forest reaches. */
  ghost predicate Built(up: Links, cats: seq<Category>, rank: Collation, nodes: map<string, Node>, lists: ChildLists, roots: seq<Node>) {
    && Matching(up, cats, nodes) && lists.Keys == nodes.Keys
    && roots == SortByName(rank, Kids(up, cats, nodes, None))
    && forall id :: id in nodes ==>
         lists[id] ==
           if Grounded(up, id) then SortByName(rank, Kids(up, cats, nodes, Some(id))) else Kids(up, cats, nodes, Some(id))
  }

  /** Where each row's node is, in the rows' own columns: in the list of the row its parent column
      names and in no other, or among the roots if the column is absent, empty or names no row. */
  ghost predicate PlacedByParent(cats: seq<Category>, nodes: map<string, Node>, lists: ChildLists, roots: seq<Node>)
    requires lists.Keys == nodes.Keys && forall i :: 0 <= i < |cats| ==> cats[i].id in nodes
  {
    && (forall i, k :: 0 <= i < |cats| && 0 <= k < |cats| ==>
          (nodes[cats[i].id] in lists[cats[k].id] <==> cats[i].parentCategoryId == Some(cats[k].id) && cats[k].id != ""))
    && (forall i :: 0 <= i < |cats| ==>
          (nodes[cats[i].id] in roots <==>
             !exists k :: 0 <= k < |cats| && cats[i].parentCategoryId == Some(cats[k].id) && cats[k].id != ""))
  }

  lemma LinkIs(cats: seq<Category>, i: nat, k: nat)
    requires DistinctIds(cats) && i < |cats| && k < |cats|
    ensures cats[i].id in LinksOf(cats)
    ensures LinksOf(cats)[cats[i].id] == Some(cats[k].id) <==> cats[i].parentCategoryId == Some(cats[k].id) && cats[k].id != ""
    ensures LinksOf(cats)[cats[i].id] == None <==>
      !exists j :: 0 <= j < |cats| && cats[i].parentCategoryId == Some(cats[j].id) && cats[j].id != ""
  {
    hide LinksOf;
    assert IsActive(cats, cats[k].id);
  }

  lemma BuiltIsPlaced(cats: seq<Category>, rank: Collation, nodes: map<string, Node>, lists: ChildLists, roots: seq<Node>)
    requires DistinctIds(cats) && Built(LinksOf(cats), cats, rank, nodes, lists, roots)
    ensures PlacedByParent(cats, nodes, lists, roots)
  {
    hide Grounded, SortByName, Kids, Lists, Closed, LinksOf, IsActive, DistinctIds;
    var up := LinksOf(cats);
    forall i, k | 0 <= i < |cats| && 0 <= k < |cats|
      ensures nodes[cats[i].id] in lists[cats[k].id] <==> cats[i].parentCategoryId == Some(cats[k].id) && cats[k].id != ""
    {
      LinkIs(cats, i, k);
      ShownStep(up, cats, rank, nodes, lists, roots, cats[k].id, cats[i].id);
    }
    KidsAreListed(up, cats, nodes, None);
    forall i | 0 <= i < |cats|
      ensures nodes[cats[i].id] in roots <==>
        !exists k :: 0 <= k < |cats| && cats[i].parentCategoryId == Some(cats[k].id) && cats[k].id != ""
    {
      LinkIs(cats, i, i);
      ListedIff(up, rank, nodes, Kids(up, cats, nodes, None), None, cats[i].id);
    }
  }

  method GetCategoryTree(cats: seq<Category>, rank: Collation) returns (roots: seq<Node>, nodes: map<string, Node>)
    requires DistinctIds(cats)
    ensures NodesFor(cats, nodes) && fresh(nodes.Values)
    ensures Built(LinksOf(cats), cats, rank, nodes, ListsOf(nodes), roots)
    ensures PlacedByParent(cats, nodes, ListsOf(nodes), roots)
  {
    nodes := CreateNodes(cats);
    ghost var up := LinksOf(cats);
    assert Matching(up, cats, nodes);
    roots := LinkNodes(cats, nodes, up);
    SortedRoots(up, cats, rank, nodes);
    LinkedHangs(up, cats, nodes);
    roots := SortByName(rank, roots);
    SortedIsBuilt(up, cats, rank, nodes, roots);
    SortDescendants(up, rank, nodes, roots, |up|);
    BuiltIsPlaced(cats, rank, nodes, ListsOf(nodes), roots);
  }

  // ---------------------------------------------------------------------------------------------
  // What the caller of getCategoryTree sees
  // ---------------------------------------------------------------------------------------------

  /** A way down through the returned objects, by id. */
  ghost predicate Shown(nodes: map<string, Node>, lists: ChildLists, roots: seq<Node>, p: seq<string>)
    requires nodes.Keys == lists.Keys
  {
    && |p| > 0 && (forall i :: 0 <= i < |p| ==> p[i] in nodes)
    && nodes[p[0]] in roots
    && (forall i :: 0 < i < |p| ==> nodes[p[i]] in lists[p[i - 1]])
  }

  /** A node is shown below another exactly when it is linked under it. */
  lemma ShownStep(up: Links, cats: seq<Category>, rank: Collation, nodes: map<string, Node>, lists: ChildLists, roots: seq<Node>, a: string, c: string)
    requires Built(up, cats, rank, nodes, lists, roots)
    requires a in nodes && c in nodes
    ensures nodes[c] in lists[a] <==> up[c] == Some(a)
  {
    KidsAreListed(up, cats, nodes, Some(a));
    ListedIff(up, rank, nodes, Kids(up, cats, nodes, Some(a)), Some(a), c);
  }

  /** The returned objects contain exactly the ways down of the link graph: together with
      WayIffGrounded, WayIsUnique and GroundedIffNoCycleAbove, every active category whose chain
      ends appears exactly once, under its own parent, and those on or below a cycle nowhere. */
  lemma ShownIffWay(up: Links, cats: seq<Category>, rank: Collation, nodes: map<string, Node>, lists: ChildLists, roots: seq<Node>, p: seq<string>)
    requires Built(up, cats, rank, nodes, lists, roots)
    ensures Shown(nodes, lists, roots, p) <==> Way(up, p)
  {
    hide Grounded, SortByName, Kids, Lists, Closed, IsActive;
    assert nodes.Keys == up.Keys;
    if |p| > 0 && p[0] in nodes {
      KidsAreListed(up, cats, nodes, None);
      ListedIff(up, rank, nodes, Kids(up, cats, nodes, None), None, p[0]);
    }
    hide Built;
    forall i | 0 < i < |p| && p[i] in nodes && p[i - 1] in nodes
      ensures nodes[p[i]] in lists[p[i - 1]] <==> up[p[i]] == Some(p[i - 1])
    {
      ShownStep(up, cats, rank, nodes, lists, roots, p[i - 1], p[i]);
    }
  }

  lemma ListedIff(up: Links, rank: Collation, nodes: map<string, Node>, kids: seq<Node>, parent: Option<string>, c: string)
    requires OwnIds(nodes) && nodes.Keys == up.Keys && Lists(up, nodes, kids, parent) && c in nodes
    ensures nodes[c] in kids <==> up[c] == parent
    ensures nodes[c] in SortByName(rank, kids) <==> up[c] == parent
  {
    SortMembers(rank, kids, nodes[c]);
  }

  ghost predicate NoneTwice(s: seq<Node>) {
    forall i, j :: 0 <= i < j < |s| ==> s[i] != s[j]
  }

  /** Every sibling list that is shown is sorted by name, lists no node twice, and keeps
      equally named siblings in query order. */
  lemma ShownListsAreSorted(up: Links, cats: seq<Category>, rank: Collation, nodes: map<string, Node>, lists: ChildLists, roots: seq<Node>, p: seq<string>)
    requires DistinctIds(cats) && Built(up, cats, rank, nodes, lists, roots) && Shown(nodes, lists, roots, p)
    ensures
      var last := p[|p| - 1];
      && Sorted(rank, roots) && NoneTwice(roots)
      && Sorted(rank, lists[last]) && NoneTwice(lists[last])
      && forall name :: Ties(rank, lists[last], name) == Ties(rank, Kids(up, cats, nodes, Some(last)), name)
  {
    var last := p[|p| - 1];
    ShownIffWay(up, cats, rank, nodes, lists, roots, p);
    WayUp(up, p);
    SortedKids(up, cats, rank, nodes, None);
    SortedKids(up, cats, rank, nodes, Some(last));
  }

  lemma SortedKids(up: Links, cats: seq<Category>, rank: Collation, nodes: map<string, Node>, parent: Option<string>)
    requires DistinctIds(cats) && OwnIds(nodes)
    requires forall i :: 0 <= i < |cats| ==> cats[i].id in nodes && cats[i].id in up
    ensures
      var kids := Kids(up, cats, nodes, parent);
      && Sorted(rank, SortByName(rank, kids)) && NoneTwice(SortByName(rank, kids))
      && forall name :: Ties(rank, SortByName(rank, kids), name) == Ties(rank, kids, name)
  {
    var kids := Kids(up, cats, nodes, parent);
    SortFacts(rank, kids);
    KidsOnce(up, cats, nodes, parent);
    SortOnce(rank, kids);
    forall name
      ensures Ties(rank, SortByName(rank, kids), name) == Ties(rank, kids, name)
    {
      SortIsStable(rank, kids, name);
    }
  }

  lemma {:induction false} KidsOnce(up: Links, rows: seq<Category>, nodes: map<string, Node>, parent: Option<string>)
    requires DistinctIds(rows) && OwnIds(nodes)
    requires forall i :: 0 <= i < |rows| ==> rows[i].id in nodes && rows[i].id in up
    ensures NoneTwice(Kids(up, rows, nodes, parent))
  {
    if rows != [] {
      var rest := rows[..|rows| - 1];
      KidsOnce(up, rest, nodes, parent);
      KidsMembers(up, rest, nodes, parent, nodes[rows[|rows| - 1].id]);
    }
  }

  lemma {:induction false} InsertOnce(rank: Collation, x: Node, s: seq<Node>)
    requires NoneTwice(s) && x !in s
    ensures NoneTwice(Insert(rank, x, s))
    ensures forall y :: y in Insert(rank, x, s) <==> y == x || y in s
  {
    if s != [] && rank(x.name) > rank(s[0].name) {
      InsertOnce(rank, x, s[1..]);
      assert s == [s[0]] + s[1..];
      assert s[0] !in s[1..];
    }
  }

  lemma {:induction false} SortOnce(rank: Collation, s: seq<Node>)
    requires NoneTwice(s)
    ensures NoneTwice(SortByName(rank, s))
  {
    if s != [] {
      SortOnce(rank, s[1..]);
      SortMembers(rank, s[1..], s[0]);
      InsertOnce(rank, s[0], SortByName(rank, s[1..]));
    }
  }

  // ---------------------------------------------------------------------------------------------
  // The order of siblings, in the rows' own columns
  // ---------------------------------------------------------------------------------------------

  /** The position of a row. */
  function PlaceOf(rows: seq<Category>, id: string): int {
    if rows == [] then 0
    else if rows[|rows| - 1].id == id then |rows| - 1
    else PlaceOf(rows[..|rows| - 1], id)
  }

  lemma {:induction false} PlaceIs(rows: seq<Category>, i: nat)
    requires DistinctIds(rows) && i < |rows|
    ensures PlaceOf(rows, rows[i].id) == i
  {
    if i < |rows| - 1 {
      assert rows[|rows| - 1].id != rows[i].id;
      PlaceIs(rows[..|rows| - 1], i);
    }
  }

  /** By name, and by position where names tie. */
  ghost predicate NameThenPlace(rank: Collation, cats: seq<Category>, s: seq<Node>) {
    forall i, j :: 0 <= i < j < |s| ==>
      rank(s[i].name) < rank(s[j].name) || (rank(s[i].name) == rank(s[j].name) && PlaceOf(cats, s[i].id) < PlaceOf(cats, s[j].id))
  }

  lemma {:induction false} InsertKeepsPlaces(rank: Collation, cats: seq<Category>, x: Node, s: seq<Node>)
    requires NameThenPlace(rank, cats, s) && forall i :: 0 <= i < |s| ==> PlaceOf(cats, x.id) < PlaceOf(cats, s[i].id)
    ensures NameThenPlace(rank, cats, Insert(rank, x, s))
  {
    if s != [] && rank(x.name) > rank(s[0].name) {
      var tail := Insert(rank, x, s[1..]);
      InsertKeepsPlaces(rank, cats, x, s[1..]);
      InsertMembers(rank, x, s[1..]);
      forall j | 0 <= j < |tail|
        ensures rank(s[0].name) < rank(tail[j].name) || (rank(s[0].name) == rank(tail[j].name) && PlaceOf(cats, s[0].id) < PlaceOf(cats, tail[j].id))
      {
        assert tail[j] in multiset(tail);
      }
    }
  }

  /** In row order, and among the first `n` rows. */
  ghost predicate InPlace(cats: seq<Category>, s: seq<Node>, n: nat) {
    && (forall i, j :: 0 <= i < j < |s| ==> PlaceOf(cats, s[i].id) < PlaceOf(cats, s[j].id))
    && (forall i :: 0 <= i < |s| ==> PlaceOf(cats, s[i].id) < n)
  }

  lemma {:induction false} SortKeepsPlaces(rank: Collation, cats: seq<Category>, s: seq<Node>)
    requires InPlace(cats, s, |cats|)
    ensures NameThenPlace(rank, cats, SortByName(rank, s))
  {
    if s != [] {
      SortKeepsPlaces(rank, cats, s[1..]);
      var rest := SortByName(rank, s[1..]);
      SortFacts(rank, s[1..]);
      forall i | 0 <= i < |rest|
        ensures PlaceOf(cats, s[0].id) < PlaceOf(cats, rest[i].id)
      {
        assert rest[i] in multiset(rest);
      }
      InsertKeepsPlaces(rank, cats, s[0], rest);
    }
  }

  lemma {:induction false} KidsInPlace(up: Links, cats: seq<Category>, n: nat, nodes: map<string, Node>, parent: Option<string>)
    requires DistinctIds(cats) && OwnIds(nodes) && n <= |cats|
    requires forall i :: 0 <= i < |cats| ==> cats[i].id in nodes && cats[i].id in up
    ensures InPlace(cats, Kids(up, cats[..n], nodes, parent), n)
  {
    hide PlaceOf;
    if n > 0 {
      var before := Kids(up, cats[..n - 1], nodes, parent);
      KidsInPlace(up, cats, n - 1, nodes, parent);
      PlaceIs(cats, n - 1);
      assert cats[..n] == cats[..n - 1] + [cats[n - 1]];
      KidsAppend(up, cats[..n - 1], cats[n - 1], nodes, parent);
      assert nodes[cats[n - 1].id].id == cats[n - 1].id;
      hide Kids;
    }
  }

  /** In every list that is shown, and among the roots, a sibling before another has the smaller name,
      or an equal one and the earlier row. */
  lemma SiblingsByNameThenRow(cats: seq<Category>, rank: Collation, nodes: map<string, Node>, lists: ChildLists, roots: seq<Node>, p: seq<string>, i: nat, k: nat, a: nat, b: nat)
    requires DistinctIds(cats) && Built(LinksOf(cats), cats, rank, nodes, lists, roots) && Shown(nodes, lists, roots, p)
    requires i < |cats| && k < |cats| && a < b
    ensures
      b < |roots| && roots[a].id == cats[i].id && roots[b].id == cats[k].id ==>
      rank(roots[a].name) < rank(roots[b].name) || (rank(roots[a].name) == rank(roots[b].name) && i < k)
    ensures
      var list := lists[p[|p| - 1]];
      b < |list| && list[a].id == cats[i].id && list[b].id == cats[k].id ==>
      rank(list[a].name) < rank(list[b].name) || (rank(list[a].name) == rank(list[b].name) && i < k)
  {
    var up := LinksOf(cats);
    var last := p[|p| - 1];
    ShownIffWay(up, cats, rank, nodes, lists, roots, p);
    WayUp(up, p);
    hide SortByName, Kids, Lists, Grounded, Shown, Way;
    SortedInPlace(up, cats, rank, nodes, None);
    SortedInPlace(up, cats, rank, nodes, Some(last));
    PlaceIs(cats, i);
    PlaceIs(cats, k);
  }

  lemma SortedInPlace(up: Links, cats: seq<Category>, rank: Collation, nodes: map<string, Node>, parent: Option<string>)
    requires DistinctIds(cats) && OwnIds(nodes)
    requires forall i :: 0 <= i < |cats| ==> cats[i].id in nodes && cats[i].id in up
    ensures NameThenPlace(rank, cats, SortByName(rank, Kids(up, cats, nodes, parent)))
  {
    KidsInPlace(up, cats, |cats|, nodes, parent);
    assert cats[..|cats|] == cats;
    SortKeepsPlaces(rank, cats, Kids(up, cats, nodes, parent));
  }
}
