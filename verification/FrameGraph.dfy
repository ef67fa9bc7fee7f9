/**
 The frame-graph report of inspect_model.py: directed cycles by a depth-first search and connected
 components by a breadth-first one. A link name is a number, its place in the sorted order of names.
 */
module FrameGraph {

  type Link = nat

  datatype Joint = Joint(parent: Link, child: Link)

  /** The directed graph: the children of each link in the order of the joints. */
  function ChildrenOf(joints: seq<Joint>, link: Link): (children: seq<Link>)
    ensures forall c :: c in children <==> Joint(link, c) in joints
  {
    if joints == [] then []
    else
      var last := joints[|joints| - 1];
      ChildrenOf(joints[..|joints| - 1], link) + (if last.parent == link then [last.child] else [])
  }

  // ---------------------------------------------------------------------------------------------
  // Walks
  // ---------------------------------------------------------------------------------------------

  /** Consecutive links joined by joints from parent to child. */
  predicate Walk(joints: seq<Joint>, p: seq<Link>) {
    p != [] && forall i | 0 <= i < |p| - 1 :: Joint(p[i], p[i + 1]) in joints
  }

  predicate ClosedWalk(joints: seq<Joint>, p: seq<Link>) {
    Walk(joints, p) && |p| >= 2 && p[0] == p[|p| - 1]
  }

  /** A directed cycle that can be reached from one of the links. */
  ghost predicate CycleReachable(joints: seq<Joint>, links: set<Link>, cycle: seq<Link>) {
    ClosedWalk(joints, cycle) && exists p :: Walk(joints, p) && p[0] in links && p[|p| - 1] == cycle[0]
  }

  ghost predicate HasCycle(joints: seq<Joint>, links: set<Link>) {
    exists cycle :: CycleReachable(joints, links, cycle)
  }

  /** Every link comes after all of its children. */
  ghost predicate FinishOrder(joints: seq<Joint>, order: seq<Link>) {
    forall i, c | 0 <= i < |order| && Joint(order[i], c) in joints :: c in order[..i]
  }

  lemma {:induction false} WalkGoesDown(joints: seq<Joint>, order: seq<Link>, p: seq<Link>, i: nat)
    requires FinishOrder(joints, order) && Walk(joints, p) && i < |order| && p[0] == order[i] && |p| >= 2
    ensures p[|p| - 1] in order[..i]
    decreases |p|
  {
    assert Joint(p[0], p[1]) in joints;
    var j :| 0 <= j < i && order[j] == p[1];
    if |p| > 2 {
      var rest := p[1..];
      assert Walk(joints, rest);
      WalkGoesDown(joints, order, rest, j);
      assert order[..j] <= order[..i];
    }
  }

  lemma {:induction false} NoClosedWalk(joints: seq<Joint>, order: seq<Link>, p: seq<Link>, i: nat)
    requires FinishOrder(joints, order) && ClosedWalk(joints, p) && i < |order| && p[0] == order[i]
    ensures false
    decreases i
  {
    WalkGoesDown(joints, order, p, i);
    var j :| 0 <= j < i && order[j] == p[0];
    NoClosedWalk(joints, order, p, j);
  }

  lemma {:induction false} WalkStaysInside(joints: seq<Joint>, order: seq<Link>, p: seq<Link>)
    requires FinishOrder(joints, order) && Walk(joints, p) && p[0] in order
    ensures p[|p| - 1] in order
  {
    if |p| >= 2 {
      var i :| 0 <= i < |order| && order[i] == p[0];
      WalkGoesDown(joints, order, p, i);
    }
  }

  /** A finish order that holds all listed links leaves no room for a reachable cycle. */
  lemma FinishedIsAcyclic(joints: seq<Joint>, links: set<Link>, order: seq<Link>)
    requires FinishOrder(joints, order) && forall l | l in links :: l in order
    ensures !HasCycle(joints, links)
  {
    forall cycle | CycleReachable(joints, links, cycle)
      ensures false
    {
      var p :| Walk(joints, p) && p[0] in links && p[|p| - 1] == cycle[0];
      WalkStaysInside(joints, order, p);
      var i :| 0 <= i < |order| && order[i] == cycle[0];
      NoClosedWalk(joints, order, cycle, i);
    }
  }

  // ---------------------------------------------------------------------------------------------
  // Depth-first search
  // ---------------------------------------------------------------------------------------------

  /** list.index: the first position of a link that is in the path. */
  function IndexOf(path: seq<Link>, link: Link): (i: nat)
    requires link in path
    ensures i < |path| && path[i] == link && link !in path[..i]
  {
    if path[0] == link then 0 else
      assert path == [path[0]] + path[1..];
      IndexOf(path[1..], link) + 1
  }

  /** The reported path repeats its last entry; without it, it is a reachable cycle. */
  ghost predicate Reported(joints: seq<Joint>, links: set<Link>, path: seq<Link>) {
    |path| >= 3 && path[|path| - 1] == path[|path| - 2] && CycleReachable(joints, links, path[..|path| - 1])
  }

  function Elements(s: seq<Link>): set<Link> {
    set l | l in s
  }

  class CycleFinder {
    const joints: seq<Joint>
    const links: set<Link>
    var visited: set<Link>
    var active: set<Link>
    var cyclePaths: seq<seq<Link>>
    ghost var order: seq<Link>

    ghost predicate Valid()
      reads this
    {
      && visited == Elements(order)
      && (cyclePaths == [] ==> FinishOrder(joints, order))
      && forall path | path in cyclePaths :: Reported(joints, links, path)
    }

    constructor (joints: seq<Joint>, links: set<Link>)
      ensures this.joints == joints && this.links == links
      ensures Valid() && visited == {} && active == {} && cyclePaths == []
    {
      this.joints, this.links := joints, links;
      visited, active, cyclePaths, order := {}, {}, [], [];
    }

    ghost function Universe(): set<Link> {
      links + set j | j in joints :: j.child
    }

    /** The nested function visit. The path ends in the link, and the links before it are the active
        ones. */
    method Visit(link: Link, path: seq<Link>)
      requires Valid() && link in Universe()
      requires path != [] && Walk(joints, path) && path[0] in links && path[|path| - 1] == link
      requires active == Elements(path[..|path| - 1])
      modifies this
      ensures Valid() && active == old(active) && old(visited) <= visited && old(cyclePaths) <= cyclePaths
      ensures cyclePaths == [] ==> link in visited
      decreases |Universe() - active|, 0
    {
      hide FinishOrder, Reported, Walk, ChildrenOf, IndexOf, Elements, Universe;
      if link in active {
        FoundAgain(path, link);
        var start := IndexOf(path, link);
        CycleFound(joints, links, path, start);
        cyclePaths := cyclePaths + [path[start..] + [link]];
        return;
      }
      if link in visited {
        return;
      }
      Shrinks(Universe(), active, link);
      active := active + {link};
      ActiveIsPath(path, link);
      var children := ChildrenOf(joints, link);
      VisitChildren(path, children);
      active := active - {link};
      Finish(joints, order, link, children, cyclePaths == []);
      order := order + [link];
      visited := visited + {link};
    }

    lemma ChildInUniverse(link: Link, child: Link)
      requires Joint(link, child) in joints
      ensures child in Universe()
    {
    }

    /** The loop over the children of the last link of the path. */
    method VisitChildren(path: seq<Link>, children: seq<Link>)
      requires Valid() && path != [] && Walk(joints, path) && path[0] in links && active == Elements(path)
      requires forall c | c in children :: Joint(path[|path| - 1], c) in joints
      modifies this
      ensures Valid() && active == old(active) && old(visited) <= visited && old(cyclePaths) <= cyclePaths
      ensures cyclePaths == [] ==> forall c | c in children :: c in visited
      decreases |Universe() - active|, 1
    {
      hide Valid, FinishOrder, Reported, Walk, Universe, Elements;
      for i := 0 to |children|
        invariant Valid() && active == old(active) && old(visited) <= visited && old(cyclePaths) <= cyclePaths
        invariant cyclePaths == [] ==> forall c | c in children[..i] :: c in visited
      {
        var child := children[i];
        assert child in children;
        StepOn(joints, path, child);
        ChildInUniverse(path[|path| - 1], child);
        Visit(child, path + [child]);
      }
    }

    /** The search from every listed link, in sorted order. */
    method Search(sorted: seq<Link>)
      requires Valid() && Elements(sorted) == links && active == {} && visited == {} && cyclePaths == []
      modifies this
      ensures Valid()
      ensures cyclePaths == [] <==> !HasCycle(joints, links)
      ensures forall path | path in cyclePaths :: Reported(joints, links, path)
    {
      for i := 0 to |sorted|
        invariant Valid() && active == {}
        invariant cyclePaths == [] ==> forall l | l in sorted[..i] :: l in visited
      {
        assert sorted[i] in Elements(sorted);
        Visit(sorted[i], [sorted[i]]);
      }
      if cyclePaths == [] {
        forall l | l in links
          ensures l in order
        {
          assert l in Elements(sorted);
          assert l in visited;
        }
        FinishedIsAcyclic(joints, links, order);
      } else {
        assert Reported(joints, links, cyclePaths[0]);
      }
    }
  }

  lemma Shrinks(universe: set<Link>, active: set<Link>, link: Link)
    requires link in universe && link !in active
    ensures |universe - (active + {link})| < |universe - active|
  {
    assert universe - (active + {link}) < universe - active;
    SmallerSet(universe - (active + {link}), universe - active);
  }

  lemma SmallerSet(a: set<Link>, b: set<Link>)
    requires a < b
    ensures |a| < |b|
  {
    var x :| x in b && x !in a;
    Subset(a, b - {x});
  }

  lemma {:induction false} Subset(a: set<Link>, b: set<Link>)
    requires a <= b
    ensures |a| <= |b|
    decreases a
  {
    if a != {} {
      var x :| x in a;
      Subset(a - {x}, b - {x});
    }
  }

  lemma {:induction false} FoundAgain(path: seq<Link>, link: Link)
    requires path != [] && link in Elements(path[..|path| - 1])
    ensures link in path && IndexOf(path, link) < |path| - 1
  {
  }

  lemma StepOn(joints: seq<Joint>, path: seq<Link>, child: Link)
    requires path != [] && Walk(joints, path) && Joint(path[|path| - 1], child) in joints
    ensures Walk(joints, path + [child]) && (path + [child])[..|path|] == path
  {
  }

  lemma ActiveIsPath(path: seq<Link>, link: Link)
    requires path != [] && path[|path| - 1] == link
    ensures Elements(path) == Elements(path[..|path| - 1]) + {link}
  {
    assert path == path[..|path| - 1] + [link];
  }

  lemma CycleFound(joints: seq<Joint>, links: set<Link>, path: seq<Link>, start: nat)
    requires path != [] && Walk(joints, path) && path[0] in links && start < |path| - 1 && path[start] == path[|path| - 1]
    ensures Reported(joints, links, path[start..] + [path[|path| - 1]])
  {
    var cycle, tail := path[start..], path[..start + 1];
    assert Walk(joints, tail) && tail[0] in links && tail[|tail| - 1] == cycle[0];
    assert (cycle + [path[|path| - 1]])[..|cycle|] == cycle;
  }

  lemma Finish(joints: seq<Joint>, order: seq<Link>, link: Link, children: seq<Link>, clean: bool)
    requires forall c :: c in children <==> Joint(link, c) in joints
    requires clean ==> FinishOrder(joints, order) && forall c | c in children :: c in Elements(order)
    ensures clean ==> FinishOrder(joints, order + [link])
    ensures Elements(order + [link]) == Elements(order) + {link}
  {
    var longer := order + [link];
    assert longer[..|order|] == order;
    forall i, c | clean && 0 <= i < |longer| && Joint(longer[i], c) in joints
      ensures c in longer[..i]
    {
      if i < |order| {
        assert longer[..i] == order[..i];
      }
    }
  }
}
