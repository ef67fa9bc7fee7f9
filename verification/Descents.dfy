/**
 Descents through the joints of a model and the breadth-first search for them (inspect_model.py:151-175):
 the search finds for every link the first of its shortest descents, in the order of the joints.
 */
module Descents {
  import opened Prelude
  import opened UrdfChain

  /** The joint elements below a link that name both their links, in the order of the model. */
  function EdgesFrom(elements: seq<JointElement>, link: string): (edges: seq<JointElement>)
    ensures forall e :: e in edges <==> e in elements && e.parent == Some(link) && e.child.Some?
  {
    if elements == [] then []
    else
      var last := elements[|elements| - 1];
      EdgesFrom(elements[..|elements| - 1], link) + (if last.parent == Some(link) && last.child.Some? then [last] else [])
  }

  /** A sequence of joints that leads from base down to link and does not come back to base. */
  ghost predicate Descends(elements: seq<JointElement>, base: string, link: string, w: seq<JointElement>)
    decreases |w|
  {
    if w == [] then link == base
    else
      var last := w[|w| - 1];
      && last in elements && last.child == Some(link) && last.parent.Some? && link != base
      && Descends(elements, base, last.parent.value, w[..|w| - 1])
  }

  lemma {:induction false} DescendFurther(elements: seq<JointElement>, base: string, link: string, w: seq<JointElement>, e: JointElement)
    requires Descends(elements, base, link, w) && e in elements && e.parent == Some(link) && e.child.Some?
    requires e.child != Some(base)
    ensures Descends(elements, base, e.child.value, w + [e])
  {
    assert (w + [e])[..|w|] == w;
  }

  // ---------------------------------------------------------------------------------------------
  // The order of descents
  // ---------------------------------------------------------------------------------------------

  /** Where an element first stands in the model. */
  function Place(elements: seq<JointElement>, e: JointElement): (p: nat)
    ensures e in elements <==> p < |elements|
    ensures p <= |elements| && (p < |elements| ==> elements[p] == e)
  {
    if elements == [] then 0
    else
      var n := |elements| - 1;
      var p := Place(elements[..n], e);
      if p < n then p else if elements[n] == e then n else n + 1
  }

  /** The joints below a link are listed by their first places. */
  lemma {:induction false} EdgesInOrder(elements: seq<JointElement>, link: string, i: nat, k: nat)
    requires var edges := EdgesFrom(elements, link); i < k < |edges| && edges[k] !in edges[..i + 1]
    ensures Place(elements, EdgesFrom(elements, link)[i]) < Place(elements, EdgesFrom(elements, link)[k])
  {
    var n := |elements| - 1;
    var before, edges := EdgesFrom(elements[..n], link), EdgesFrom(elements, link);
    assert edges[..i + 1] == before[..i + 1];
    if k < |before| {
      EdgesInOrder(elements[..n], link, i, k);
    } else if edges[k] in before {
      var j :| 0 <= j < |before| && before[j] == edges[k];
      assert forall m | 0 <= m <= i :: before[m] == edges[..i + 1][m];
      EdgesInOrder(elements[..n], link, i, j);
    } else {
      assert before[i] in elements[..n];
      assert edges[k] == elements[n];
    }
  }

  /** Of two descents of the same length, the one whose first different joint stands earlier. */
  predicate Earlier(elements: seq<JointElement>, v: seq<JointElement>, w: seq<JointElement>)
    decreases |v|
  {
    && |v| == |w| && v != []
    && (|| Earlier(elements, v[..|v| - 1], w[..|w| - 1])
        || (v[..|v| - 1] == w[..|w| - 1] && Place(elements, v[|v| - 1]) < Place(elements, w[|w| - 1])))
  }

  predicate Precedes(elements: seq<JointElement>, v: seq<JointElement>, w: seq<JointElement>) {
    |v| < |w| || Earlier(elements, v, w)
  }

  predicate NotAfter(elements: seq<JointElement>, v: seq<JointElement>, w: seq<JointElement>) {
    v == w || Precedes(elements, v, w)
  }

  /** The first descent to a link: none is shorter, and none of its length stands earlier. */
  ghost predicate IsFirst(elements: seq<JointElement>, base: string, link: string, w: seq<JointElement>) {
    Descends(elements, base, link, w) && forall v | Descends(elements, base, link, v) :: NotAfter(elements, w, v)
  }

  lemma {:induction false} EarlierTwice(elements: seq<JointElement>, u: seq<JointElement>, v: seq<JointElement>, w: seq<JointElement>)
    requires Earlier(elements, u, v) && Earlier(elements, v, w)
    ensures Earlier(elements, u, w)
    decreases |u|
  {
    var n := |u| - 1;
    if Earlier(elements, u[..n], v[..n]) && Earlier(elements, v[..n], w[..n]) {
      EarlierTwice(elements, u[..n], v[..n], w[..n]);
    }
  }

  lemma {:induction false} NeverEarlier(elements: seq<JointElement>, v: seq<JointElement>)
    ensures !Earlier(elements, v, v)
    decreases |v|
  {
    if v != [] {
      NeverEarlier(elements, v[..|v| - 1]);
    }
  }

  lemma NotAfterTwice(elements: seq<JointElement>, u: seq<JointElement>, v: seq<JointElement>, w: seq<JointElement>)
    requires NotAfter(elements, u, v) && NotAfter(elements, v, w)
    ensures NotAfter(elements, u, w)
    ensures Precedes(elements, u, v) || Precedes(elements, v, w) ==> Precedes(elements, u, w)
  {
    if Earlier(elements, u, v) && Earlier(elements, v, w) {
      EarlierTwice(elements, u, v, w);
    }
  }

  /** The first descent is determined: a search that finds it finds one matrix only. */
  lemma FirstIsUnique(elements: seq<JointElement>, base: string, link: string, v: seq<JointElement>, w: seq<JointElement>)
    requires IsFirst(elements, base, link, v) && IsFirst(elements, base, link, w)
    ensures v == w
  {
    if v != w {
      NotAfterTwice(elements, v, w, v);
      NeverEarlier(elements, v);
    }
  }

  lemma {:induction false} PrecedesFurther(elements: seq<JointElement>, v: seq<JointElement>, w: seq<JointElement>, e: JointElement, f: JointElement)
    ensures Precedes(elements, v, w) ==> Precedes(elements, v + [e], w + [f])
    ensures NotAfter(elements, v, w) && e == f ==> NotAfter(elements, v + [e], w + [f])
    ensures v == w && Place(elements, e) < Place(elements, f) ==> Precedes(elements, v + [e], w + [f])
  {
    assert (v + [e])[..|v|] == v && (w + [f])[..|w|] == w;
  }

  /** Before every joint more than v. */
  predicate Under(elements: seq<JointElement>, w: seq<JointElement>, v: seq<JointElement>) {
    |w| <= |v| || (|w| == |v| + 1 && Earlier(elements, w[..|v|], v))
  }

  lemma UnderPrecedes(elements: seq<JointElement>, w: seq<JointElement>, v: seq<JointElement>, f: JointElement)
    requires Under(elements, w, v)
    ensures Precedes(elements, w, v + [f])
  {
    assert (v + [f])[..|v|] == v;
  }

  lemma UnderLater(elements: seq<JointElement>, w: seq<JointElement>, v: seq<JointElement>, e: JointElement)
    requires Precedes(elements, w, v)
    ensures Under(elements, w + [e], v)
  {
    assert (w + [e])[..|w|] == w;
  }

  // ---------------------------------------------------------------------------------------------
  // The search
  // ---------------------------------------------------------------------------------------------

  function ChildLinks(elements: seq<JointElement>): set<string> {
    set e | e in elements && e.child.Some? :: e.child.value
  }

  /** The descents found so far. */
  ghost predicate Found(elements: seq<JointElement>, base: string, paths: map<string, seq<JointElement>>) {
    && base in paths && paths.Keys <= {base} + ChildLinks(elements)
    && forall l | l in paths :: Descends(elements, base, l, paths[l])
  }

  /** Every joint below these links ends in a link that is known by a descent not after the one through it. */
  ghost predicate Finished(elements: seq<JointElement>, links: set<string>, paths: map<string, seq<JointElement>>) {
    forall e | e in elements && e.parent.Some? && e.parent.value in links && e.child.Some? ::
      && e.parent.value in paths && e.child.value in paths
      && NotAfter(elements, paths[e.child.value], paths[e.parent.value] + [e])
  }

  /** The queue is in the order of its descents, and nothing known comes after what it will lead to. */
  ghost predicate Ordered(elements: seq<JointElement>, queue: seq<string>, paths: map<string, seq<JointElement>>) {
    && (forall i | 0 <= i < |queue| :: queue[i] in paths)
    && (forall i, j | 0 <= i < j < |queue| :: Precedes(elements, paths[queue[i]], paths[queue[j]]))
    && (forall l, i | l in paths && 0 <= i < |queue| :: Under(elements, paths[l], paths[queue[i]]))
  }

  /** When everything known is finished, every descent leads to a known link and is not before its path. */
  lemma {:induction false} FirstFound(elements: seq<JointElement>, base: string, paths: map<string, seq<JointElement>>,
                                      link: string, w: seq<JointElement>)
    requires Found(elements, base, paths) && Finished(elements, paths.Keys, paths) && Descends(elements, base, link, w)
    ensures link in paths && NotAfter(elements, paths[link], w)
    decreases |w|
  {
    hide NotAfter;
    if w == [] {
      BaseIsFound(elements, base, paths);
    } else {
      var e, v := w[|w| - 1], w[..|w| - 1];
      var parent := e.parent.value;
      FirstFound(elements, base, paths, parent, v);
      PrecedesFurther(elements, paths[parent], v, e, e);
      assert v + [e] == w;
      NotAfterTwice(elements, paths[link], paths[parent] + [e], w);
    }
  }

  lemma BaseIsFound(elements: seq<JointElement>, base: string, paths: map<string, seq<JointElement>>)
    requires Found(elements, base, paths)
    ensures paths[base] == [] && NotAfter(elements, paths[base], [])
  {
    assert Descends(elements, base, base, paths[base]);
  }

  /** A joint below `head` was seen: its child is known by a descent not after the one through the head. */
  ghost predicate SeenBelow(elements: seq<JointElement>, head: string, e: JointElement, paths: map<string, seq<JointElement>>) {
    && head in paths && e.child.Some? && e.child.value in paths
    && NotAfter(elements, paths[e.child.value], paths[head] + [e])
  }

  /** A joint below `head` is still to be seen: nothing known comes after the descent through it. */
  ghost predicate Pending(elements: seq<JointElement>, head: string, e: JointElement, paths: map<string, seq<JointElement>>) {
    head in paths && forall l | l in paths :: NotAfter(elements, paths[l], paths[head] + [e])
  }

  /** The queue comes after the head. */
  ghost predicate Follows(elements: seq<JointElement>, head: string, queue: seq<string>, paths: map<string, seq<JointElement>>) {
    && head in paths && Ordered(elements, queue, paths)
    && forall j | 0 <= j < |queue| :: Precedes(elements, paths[head], paths[queue[j]])
  }

  /** The loop over the joints below `head`, with these already seen. */
  ghost predicate Expanding(elements: seq<JointElement>, head: string, seen: seq<JointElement>, queue: seq<string>,
                            paths: map<string, seq<JointElement>>) {
    && Follows(elements, head, queue, paths)
    && (forall e | e in seen :: SeenBelow(elements, head, e, paths))
    && (forall e | e in EdgesFrom(elements, head) && e !in seen :: Pending(elements, head, e, paths))
  }

  lemma StartExpanding(elements: seq<JointElement>, queue: seq<string>, paths: map<string, seq<JointElement>>)
    requires queue != [] && Ordered(elements, queue, paths)
    ensures Expanding(elements, queue[0], [], queue[1..], paths)
  {
    hide Precedes, Under;
    forall l, e: JointElement | l in paths
      ensures NotAfter(elements, paths[l], paths[queue[0]] + [e])
    {
      UnderPrecedes(elements, paths[l], paths[queue[0]], e);
    }
  }

  /** The child of the next joint is known already. */
  lemma {:induction false} ChildKnown(elements: seq<JointElement>, head: string, seen: seq<JointElement>, e: JointElement, queue: seq<string>,
                   paths: map<string, seq<JointElement>>)
    requires Expanding(elements, head, seen, queue, paths) && e in EdgesFrom(elements, head) && e.child.value in paths
    ensures Expanding(elements, head, seen + [e], queue, paths)
  {
    hide NotAfter, Follows;
    assert e in seen || Pending(elements, head, e, paths);
  }

  /** The child of the next joint is new: its descent goes through the head. */
  lemma {:induction false} ChildFound(elements: seq<JointElement>, base: string, head: string, i: nat, queue: seq<string>,
                   paths: map<string, seq<JointElement>>)
    requires Found(elements, base, paths) && i < |EdgesFrom(elements, head)| && head in paths
    requires Expanding(elements, head, EdgesFrom(elements, head)[..i], queue, paths)
    requires EdgesFrom(elements, head)[i].child.value !in paths
    ensures var e := EdgesFrom(elements, head)[i];
      var more := paths[e.child.value := paths[head] + [e]];
      && Found(elements, base, more)
      && Expanding(elements, head, EdgesFrom(elements, head)[..i] + [e], queue + [e.child.value], more)
  {
    hide NotAfter, Follows, Found, Pending, SeenBelow;
    var edges := EdgesFrom(elements, head);
    var seen, e := edges[..i], edges[i];
    var more := paths[e.child.value := paths[head] + [e]];
    NewIsUnseen(elements, head, e, paths, seen);
    NewIsLast(elements, base, head, e, paths);
    FoundFurther(elements, base, head, e, paths);
    FollowsFurther(elements, head, e, queue, paths);
    forall f | f in seen + [e]
      ensures SeenBelow(elements, head, f, more)
    {
      SeenFurther(elements, head, e, f, paths);
    }
    forall f | f in edges && f !in seen + [e]
      ensures Pending(elements, head, f, more)
    {
      var k :| 0 <= k < |edges| && edges[k] == f;
      assert edges[..i + 1] == seen + [e];
      assert forall m | 0 <= m <= i :: edges[m] == edges[..i + 1][m];
      EdgesInOrder(elements, head, i, k);
      PendingFurther(elements, head, e, f, paths);
    }
  }

  lemma NewIsUnseen(elements: seq<JointElement>, head: string, e: JointElement, paths: map<string, seq<JointElement>>,
                    seen: seq<JointElement>)
    requires e.child.Some? && e.child.value !in paths && forall f | f in seen :: SeenBelow(elements, head, f, paths)
    ensures e !in seen
  {
  }

  lemma SeenFurther(elements: seq<JointElement>, head: string, e: JointElement, f: JointElement, paths: map<string, seq<JointElement>>)
    requires head in paths && e.child.Some? && e.child.value !in paths && (f == e || SeenBelow(elements, head, f, paths))
    ensures SeenBelow(elements, head, f, paths[e.child.value := paths[head] + [e]])
  {
    hide Precedes;
  }

  lemma {:induction false} PendingFurther(elements: seq<JointElement>, head: string, e: JointElement, f: JointElement, paths: map<string, seq<JointElement>>)
    requires head in paths && e.child.Some? && e.child.value !in paths
    requires Pending(elements, head, f, paths) && Place(elements, e) < Place(elements, f)
    ensures Pending(elements, head, f, paths[e.child.value := paths[head] + [e]])
  {
    PrecedesFurther(elements, paths[head], paths[head], e, f);
    hide Precedes;
  }

  lemma {:induction false} FoundFurther(elements: seq<JointElement>, base: string, head: string, e: JointElement,
                                        paths: map<string, seq<JointElement>>)
    requires Found(elements, base, paths) && head in paths && e in EdgesFrom(elements, head) && e.child.value !in paths
    ensures Found(elements, base, paths[e.child.value := paths[head] + [e]])
  {
    DescendFurther(elements, base, head, paths[head], e);
    hide Descends;
  }

  lemma {:induction false} LastChild(elements: seq<JointElement>, base: string, link: string, w: seq<JointElement>, e: JointElement)
    requires Descends(elements, base, link, w + [e])
    ensures e.child == Some(link)
  {
  }

  lemma NewIsLast(elements: seq<JointElement>, base: string, head: string, e: JointElement, paths: map<string, seq<JointElement>>)
    requires Found(elements, base, paths) && Pending(elements, head, e, paths) && e.child.Some? && e.child.value !in paths
    ensures forall l | l in paths :: Precedes(elements, paths[l], paths[head] + [e])
  {
    hide Precedes, Descends;
    forall l | l in paths
      ensures Precedes(elements, paths[l], paths[head] + [e])
    {
      if paths[l] == paths[head] + [e] {
        LastChild(elements, base, l, paths[head], e);
        assert false;
      }
    }
  }

  lemma FollowsFurther(elements: seq<JointElement>, head: string, e: JointElement, queue: seq<string>,
                       paths: map<string, seq<JointElement>>)
    requires Follows(elements, head, queue, paths) && e.child.Some? && e.child.value !in paths
    requires forall l | l in paths :: Precedes(elements, paths[l], paths[head] + [e])
    ensures Follows(elements, head, queue + [e.child.value], paths[e.child.value := paths[head] + [e]])
  {
    var child, w := e.child.value, paths[head] + [e];
    var more, longer := paths[child := w], queue + [child];
    forall l, j | l in more && 0 <= j < |longer|
      ensures longer[j] in more && Under(elements, more[l], more[longer[j]])
    {
      if l == child && j < |queue| {
        UnderLater(elements, paths[head], paths[queue[j]], e);
      }
    }
  }

  lemma {:induction false} FinishHead(elements: seq<JointElement>, head: string, queue: seq<string>, popped: set<string>,
                   before: map<string, seq<JointElement>>, paths: map<string, seq<JointElement>>)
    requires Expanding(elements, head, EdgesFrom(elements, head), queue, paths) && Finished(elements, popped, before)
    requires before.Keys <= paths.Keys && forall l | l in before :: paths[l] == before[l]
    ensures Finished(elements, popped + {head}, paths)
  {
    hide NotAfter, Follows;
    forall e | e in elements && e.parent.Some? && e.parent.value in popped + {head} && e.child.Some?
      ensures && e.parent.value in paths && e.child.value in paths
              && NotAfter(elements, paths[e.child.value], paths[e.parent.value] + [e])
    {
      if e.parent.value == head {
        assert e in EdgesFrom(elements, head);
        assert SeenBelow(elements, head, e, paths);
      }
    }
  }
}
