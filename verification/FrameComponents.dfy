/** The connected components of the frame-graph report (inspect_model.py, lines 124-137). */
module FrameComponents {
  import opened FrameGraph

  predicate Adjacent(joints: seq<Joint>, a: Link, b: Link) {
    Joint(a, b) in joints || Joint(b, a) in joints
  }

  /** The undirected adjacency list of a link. */
  function NeighboursOf(joints: seq<Joint>, link: Link): (neighbours: seq<Link>)
    ensures forall n :: n in neighbours <==> Adjacent(joints, link, n)
  {
    if joints == [] then []
    else
      var last := joints[|joints| - 1];
      NeighboursOf(joints[..|joints| - 1], link)
      + (if last.parent == link then [last.child] else []) + (if last.child == link then [last.parent] else [])
  }

  // ---------------------------------------------------------------------------------------------
  // Connectivity
  // ---------------------------------------------------------------------------------------------

  /** A walk through listed links along joints in either direction. */
  predicate Path(joints: seq<Joint>, links: set<Link>, p: seq<Link>) {
    && p != []
    && (forall i | 0 <= i < |p| :: p[i] in links)
    && forall i | 0 <= i < |p| - 1 :: Adjacent(joints, p[i], p[i + 1])
  }

  ghost predicate Joined(joints: seq<Joint>, links: set<Link>, a: Link, b: Link) {
    exists p :: Path(joints, links, p) && p[0] == a && p[|p| - 1] == b
  }

  lemma JoinedToSelf(joints: seq<Joint>, links: set<Link>, a: Link)
    requires a in links
    ensures Joined(joints, links, a, a)
  {
    assert Path(joints, links, [a]);
  }

  lemma JoinedToNext(joints: seq<Joint>, links: set<Link>, a: Link, b: Link, c: Link)
    requires Joined(joints, links, a, b) && Adjacent(joints, b, c) && c in links
    ensures Joined(joints, links, a, c)
  {
    var p :| Path(joints, links, p) && p[0] == a && p[|p| - 1] == b;
    assert Path(joints, links, p + [c]);
  }

  lemma {:induction false} JoinedIsSymmetric(joints: seq<Joint>, links: set<Link>, p: seq<Link>)
    requires Path(joints, links, p)
    ensures Joined(joints, links, p[|p| - 1], p[0])
  {
    if |p| == 1 {
      JoinedToSelf(joints, links, p[0]);
    } else {
      assert Path(joints, links, p[1..]);
      assert p[1] in links && p[0] in links && Adjacent(joints, p[1], p[0]);
      JoinedIsSymmetric(joints, links, p[1..]);
      JoinedToNext(joints, links, p[|p| - 1], p[1], p[0]);
    }
  }

  lemma {:induction false} JoinedIsTransitive(joints: seq<Joint>, links: set<Link>, a: Link, p: seq<Link>)
    requires Path(joints, links, p) && Joined(joints, links, a, p[0])
    ensures Joined(joints, links, a, p[|p| - 1])
  {
    if |p| > 1 {
      assert p[1] in links && Adjacent(joints, p[0], p[1]);
      JoinedToNext(joints, links, a, p[0], p[1]);
      assert Path(joints, links, p[1..]);
      JoinedIsTransitive(joints, links, a, p[1..]);
    }
  }

  /** No joint leads from the set to another listed link. */
  ghost predicate Closed(joints: seq<Joint>, links: set<Link>, inside: set<Link>) {
    forall a, b | a in inside && b in links && Adjacent(joints, a, b) :: b in inside
  }

  lemma {:induction false} PathStaysInside(joints: seq<Joint>, links: set<Link>, inside: set<Link>, p: seq<Link>)
    requires Closed(joints, links, inside) && Path(joints, links, p) && p[0] in inside
    ensures p[|p| - 1] in inside
  {
    if |p| > 1 {
      assert p[1] in links && Adjacent(joints, p[0], p[1]);
      assert Path(joints, links, p[1..]);
      PathStaysInside(joints, links, inside, p[1..]);
    }
  }

  /** A connectivity class of the listed links. */
  ghost predicate Class(joints: seq<Joint>, links: set<Link>, members: set<Link>) {
    && members != {} && members <= links
    && forall a, b | a in members && b in links :: b in members <==> Joined(joints, links, a, b)
  }

  lemma ClosedAndJoinedIsClass(joints: seq<Joint>, links: set<Link>, members: set<Link>, start: Link)
    requires members <= links && start in members && Closed(joints, links, members)
    requires forall b | b in members :: Joined(joints, links, start, b)
    ensures Class(joints, links, members)
  {
    forall a, b | a in members && b in links
      ensures b in members <==> Joined(joints, links, a, b)
    {
      if b in members {
        var p :| Path(joints, links, p) && p[0] == start && p[|p| - 1] == a;
        JoinedIsSymmetric(joints, links, p);
        var q :| Path(joints, links, q) && q[0] == start && q[|q| - 1] == b;
        JoinedIsTransitive(joints, links, a, q);
      } else if Joined(joints, links, a, b) {
        var p :| Path(joints, links, p) && p[0] == a && p[|p| - 1] == b;
        PathStaysInside(joints, links, members, p);
      }
    }
  }

  // ---------------------------------------------------------------------------------------------
  // Breadth-first search
  // ---------------------------------------------------------------------------------------------

  ghost predicate IsLeast(least: Link, s: set<Link>) {
    least in s && forall x | x in s :: least <= x
  }

  method Smallest(s: set<Link>) returns (least: Link)
    requires s != {}
    ensures IsLeast(least, s)
  {
    least :| least in s;
    var rest := s - {least};
    ghost var seen := {least};
    while rest != {}
      invariant s == seen + rest && IsLeast(least, seen)
      decreases rest
    {
      var x :| x in rest;
      rest, seen := rest - {x}, seen + {x};
      if x < least {
        least := x;
      }
    }
  }

  predicate Increasing(s: seq<Link>) {
    forall i, j | 0 <= i < j < |s| :: s[i] < s[j]
  }

  method Sorted(s: set<Link>) returns (sorted: seq<Link>)
    ensures Increasing(sorted) && Elements(sorted) == s
  {
    sorted := [];
    var rest := s;
    while rest != {}
      invariant rest <= s && Elements(sorted) == s - rest && Increasing(sorted)
      invariant forall i, y | 0 <= i < |sorted| && y in rest :: sorted[i] < y
      decreases rest
    {
      var least := Smallest(rest);
      AppendElement(sorted, least);
      sorted := sorted + [least];
      rest := rest - {least};
    }
  }

  lemma AppendElement(s: seq<Link>, l: Link)
    ensures Elements(s + [l]) == Elements(s) + {l}
  {
  }

  /** The links taken out of the remaining ones so far are joined to the start, and those popped have
      no remaining neighbour. */
  ghost predicate Exploring(joints: seq<Joint>, links: set<Link>, start: Link, taken: set<Link>, popped: set<Link>,
                            remaining: set<Link>) {
    && start in taken && popped <= taken
    && (forall x | x in taken :: Joined(joints, links, start, x))
    && forall x, n | x in popped && n in remaining :: !Adjacent(joints, x, n)
  }

  lemma StartExploring(joints: seq<Joint>, links: set<Link>, start: Link, remaining: set<Link>)
    requires start in links
    ensures Exploring(joints, links, start, Elements([start]), {}, remaining) && Elements([start]) == {start}
  {
    JoinedToSelf(joints, links, start);
  }

  /** Moving the popped link from the queue to the component changes nothing in their union. */
  lemma Popped(component: set<Link>, queue: seq<Link>)
    requires queue != []
    ensures component + {queue[0]} + Elements(queue[1..]) == component + Elements(queue)
  {
    assert queue == [queue[0]] + queue[1..];
  }

  /** One round of the outer loop: the component of the smallest remaining link. */
  method Explore(joints: seq<Joint>, links: set<Link>, before: set<Link>)
    returns (component: set<Link>, remaining: set<Link>, ghost start: Link)
    requires before != {} && before <= links && Closed(joints, links, links - before)
    ensures component <= before && remaining == before - component
    ensures start in component && IsLeast(start, before)
    ensures Class(joints, links, component) && Closed(joints, links, links - remaining)
  {
    hide Exploring, Joined, Class, Closed, Elements;
    var first := Smallest(before);
    start := first;
    var queue := [first];
    remaining := before - {first};
    component := {};
    StartExploring(joints, links, start, remaining);
    ghost var taken := {start};
    while queue != []
      invariant Exploring(joints, links, start, taken, component, remaining)
      invariant taken == component + Elements(queue) && taken == before - remaining && remaining <= before && start in taken
      decreases |remaining|, |queue|
    {
      Popped(component, queue);
      ghost var was := remaining;
      var link := queue[0];
      queue, remaining := Enqueue(joints, links, start, taken, component, link, queue[1..], remaining);
      component := component + {link};
      taken := taken + (was - remaining);
      if remaining != was {
        SmallerSet(remaining, was);
      }
    }
    assert Elements([]) == {} by { EmptyElements(); }
    NothingLeftOut(joints, links, start, component, before, remaining);
  }

  lemma EmptyElements()
    ensures Elements([]) == {}
  {
  }

  /** The loop over the neighbours of the popped link. */
  method Enqueue(joints: seq<Joint>, links: set<Link>, ghost start: Link, ghost taken: set<Link>, ghost popped: set<Link>,
                 link: Link, queue: seq<Link>, before: set<Link>)
    returns (longer: seq<Link>, remaining: set<Link>)
    requires before <= links && link in taken && Exploring(joints, links, start, taken, popped, before)
    ensures remaining <= before && (remaining == before ==> longer == queue)
    ensures Elements(longer) == Elements(queue) + (before - remaining)
    ensures Exploring(joints, links, start, taken + (before - remaining), popped + {link}, remaining)
  {
    longer, remaining := queue, before;
    var neighbours := NeighboursOf(joints, link);
    for i := 0 to |neighbours|
      invariant remaining <= before && (remaining == before ==> longer == queue)
      invariant Elements(longer) == Elements(queue) + (before - remaining)
      invariant Exploring(joints, links, start, taken + (before - remaining), popped, remaining)
      invariant forall n | n in neighbours[..i] :: n !in remaining
    {
      var n := neighbours[i];
      if n in remaining {
        TakeNeighbour(joints, links, start, taken + (before - remaining), popped, remaining, link, n);
        assert n in neighbours;
        assert taken + (before - (remaining - {n})) == taken + (before - remaining) + {n};
        assert Elements(longer + [n]) == Elements(longer) + {n};
        remaining := remaining - {n};
        longer := longer + [n];
      }
    }
    assert forall n | Adjacent(joints, link, n) :: n in neighbours;
  }

  lemma TakeNeighbour(joints: seq<Joint>, links: set<Link>, start: Link, taken: set<Link>, popped: set<Link>,
                      remaining: set<Link>, link: Link, n: Link)
    requires Exploring(joints, links, start, taken, popped, remaining) && remaining <= links
    requires link in taken && n in remaining && Adjacent(joints, link, n)
    ensures Exploring(joints, links, start, taken + {n}, popped, remaining - {n})
  {
    JoinedToNext(joints, links, start, link, n);
    hide Joined, Adjacent;
  }

  lemma NothingLeftOut(joints: seq<Joint>, links: set<Link>, start: Link, component: set<Link>, before: set<Link>,
                       remaining: set<Link>)
    requires Exploring(joints, links, start, component, component, remaining)
    requires component == before - remaining && before <= links && remaining <= before
    requires Closed(joints, links, links - before)
    ensures Class(joints, links, component) && Closed(joints, links, links - remaining)
  {
    hide Joined;
    forall a, b | a in component && b in links && Adjacent(joints, a, b)
      ensures b in component
    {
      assert Adjacent(joints, b, a);
      assert b !in remaining;
      assert b in links - before ==> a in links - before;
    }
    ClosedAndJoinedIsClass(joints, links, component, start);
  }

  ghost predicate AreClasses(joints: seq<Joint>, links: set<Link>, components: seq<seq<Link>>) {
    forall i | 0 <= i < |components| :: Increasing(components[i]) && Class(joints, links, Elements(components[i]))
  }

  ghost predicate Cover(links: set<Link>, components: seq<seq<Link>>) {
    forall l | l in links :: exists i :: 0 <= i < |components| && l in Elements(components[i])
  }

  predicate InOrder(components: seq<seq<Link>>) {
    && (forall i | 0 <= i < |components| :: components[i] != [])
    && (forall i, j | 0 <= i < j < |components| :: components[i][0] < components[j][0])
  }

  /** Sorted connectivity classes that cover the listed links, in the order of their least members. */
  ghost predicate AreComponents(joints: seq<Joint>, links: set<Link>, components: seq<seq<Link>>) {
    AreClasses(joints, links, components) && Cover(links, components) && InOrder(components)
  }

  method Components(joints: seq<Joint>, links: set<Link>) returns (components: seq<seq<Link>>)
    ensures AreComponents(joints, links, components)
  {
    hide Class, Closed, Increasing, Elements;
    components := [];
    var remaining := links;
    StartClosed(joints, links);
    while remaining != {}
      invariant remaining <= links && Closed(joints, links, links - remaining)
      invariant AreClasses(joints, links, components) && Cover(links - remaining, components) && InOrder(components)
      invariant forall i, x | 0 <= i < |components| && x in remaining :: components[i][0] < x
      decreases remaining
    {
      var component, rest, start := Explore(joints, links, remaining);
      var sorted := Sorted(component);
      FirstIsLeast(sorted, start, remaining);
      Covered(components, sorted, links - remaining, component);
      assert links - rest == links - remaining + component;
      components := components + [sorted];
      remaining := rest;
    }
    assert links - remaining == links;
  }

  lemma StartClosed(joints: seq<Joint>, links: set<Link>)
    ensures Closed(joints, links, links - links)
  {
  }

  lemma Covered(components: seq<seq<Link>>, sorted: seq<Link>, done: set<Link>, component: set<Link>)
    requires Cover(done, components) && Elements(sorted) == component
    ensures Cover(done + component, components + [sorted])
  {
    hide Elements;
    var longer := components + [sorted];
    forall l | l in done + component
      ensures exists i :: 0 <= i < |longer| && l in Elements(longer[i])
    {
      if l in component {
        assert l in Elements(longer[|components|]);
      } else {
        var i :| 0 <= i < |components| && l in Elements(components[i]);
        assert l in Elements(longer[i]);
      }
    }
  }

  lemma FirstIsLeast(sorted: seq<Link>, start: Link, before: set<Link>)
    requires Increasing(sorted) && start in Elements(sorted) && Elements(sorted) <= before && IsLeast(start, before)
    ensures sorted != [] && sorted[0] == start
  {
    assert start in sorted;
    assert sorted[0] in Elements(sorted);
  }

  lemma FirstsAgree(s: seq<Link>, t: seq<Link>)
    requires Increasing(s) && Increasing(t) && s != [] && t != [] && Elements(s) == Elements(t)
    ensures s[0] == t[0]
  {
    assert s[0] in Elements(t) && t[0] in Elements(s);
  }

  /** Two listed links are in the same component exactly when a path of joints through listed links
      joins them. */
  lemma SameComponent(joints: seq<Joint>, links: set<Link>, components: seq<seq<Link>>, i: nat, j: nat, a: Link, b: Link)
    requires AreComponents(joints, links, components) && i < |components| && j < |components|
    requires a in Elements(components[i]) && b in Elements(components[j])
    ensures i == j <==> Joined(joints, links, a, b)
  {
    hide Class, Elements, Joined, Increasing;
    var c, d := Elements(components[i]), Elements(components[j]);
    assert Class(joints, links, c) && Class(joints, links, d);
    ClassIsJoined(joints, links, c, a, b);
    ClassIsListed(joints, links, d, b);
    if Joined(joints, links, a, b) {
      MeetingClasses(joints, links, c, d, b);
      FirstsAgree(components[i], components[j]);
    }
  }

  lemma ClassIsListed(joints: seq<Joint>, links: set<Link>, c: set<Link>, b: Link)
    requires Class(joints, links, c) && b in c
    ensures b in links
  {
  }

  lemma ClassIsJoined(joints: seq<Joint>, links: set<Link>, c: set<Link>, a: Link, b: Link)
    requires Class(joints, links, c) && a in c
    ensures b in c ==> Joined(joints, links, a, b)
    ensures b in links && Joined(joints, links, a, b) ==> b in c
  {
  }

  lemma MeetingClasses(joints: seq<Joint>, links: set<Link>, c: set<Link>, d: set<Link>, l: Link)
    requires Class(joints, links, c) && Class(joints, links, d) && l in c && l in d
    ensures c == d
  {
    hide Joined;
  }

  /** The report says "connected" exactly when there is a link and every two listed links are joined. */
  lemma OneComponent(joints: seq<Joint>, links: set<Link>, components: seq<seq<Link>>)
    requires AreComponents(joints, links, components)
    ensures |components| == 1 <==> links != {} && forall a, b | a in links && b in links :: Joined(joints, links, a, b)
  {
    hide Joined, Increasing;
    if |components| == 1 {
      assert Class(joints, links, Elements(components[0]));
    } else if |components| > 1 {
      var a, b := components[0][0], components[1][0];
      assert Class(joints, links, Elements(components[0])) && Class(joints, links, Elements(components[1]));
      assert a in Elements(components[0]) && b in Elements(components[1]);
      SameComponent(joints, links, components, 0, 1, a, b);
    }
  }
}
