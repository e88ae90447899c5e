/**
  The frame graph a `tf` stream describes, and what the two facts the audit looks at (how many
  parents a frame has, how many roots there are) say about it.
 */
module FrameGraph {
  import opened Prelude

  type Frame = seq<byte>

  datatype Edge = Edge(parent: Frame, child: Frame)

  /** Every parent each frame has been seen under. */
  type Parents = map<Frame, set<Frame>>

  function Learn(parents: Parents, e: Edge): Parents {
    parents[e.child := (if e.child in parents then parents[e.child] else {}) + {e.parent}]
  }

  function LearnAll(parents: Parents, edges: seq<Edge>): Parents {
    if edges == [] then parents
    else Learn(LearnAll(parents, edges[..|edges| - 1]), edges[|edges| - 1])
  }

  /** No frame is recorded without a parent: true of everything learned from edges. */
  ghost predicate WellFormed(parents: Parents) {
    forall c :: c in parents ==> parents[c] != {}
  }

  /** Frames seen as a parent but never as a child. */
  function Roots(parents: Parents): set<Frame> {
    set c, f | c in parents && f in parents[c] && f !in parents :: f
  }

  function Frames(parents: Parents): set<Frame> {
    parents.Keys + set c, f | c in parents && f in parents[c] :: f
  }

  /** What the audit reports about the tree: frames with several parents, and several roots. */
  datatype TreeReport = TreeReport(doubled: map<Frame, set<Frame>>, split: set<Frame>) {
    predicate Clean() { doubled == map[] && split == {} }
  }

  function ReportTree(parents: Parents): TreeReport {
    TreeReport(map c | c in parents && |parents[c]| > 1 :: parents[c],
               if |Roots(parents)| > 1 then Roots(parents) else {})
  }

  /** A frame the graph hangs others from, and that hangs from none. */
  ghost predicate IsTop(edges: seq<Edge>, f: Frame) {
    (exists e :: e in edges && e.parent == f) && forall e :: e in edges ==> e.child != f
  }

  ghost predicate HasTwoParents(edges: seq<Edge>, f: Frame) {
    exists p, q :: p != q && Edge(p, f) in edges && Edge(q, f) in edges
  }

  ghost predicate HasTwoTops(edges: seq<Edge>) {
    exists f, g :: f != g && IsTop(edges, f) && IsTop(edges, g)
  }

  /**
    What the report names, in terms of the edges seen: the frames seen under two parents, each
    with every parent it was seen under, and, if there are two tops, all of them.
   */
  lemma ReportIs(edges: seq<Edge>)
    ensures var report := ReportTree(LearnAll(map[], edges));
            && (forall f :: f in report.doubled <==> HasTwoParents(edges, f))
            && (forall f, p :: f in report.doubled ==> (p in report.doubled[f] <==> Edge(p, f) in edges))
            && (HasTwoTops(edges) ==> forall f :: f in report.split <==> IsTop(edges, f))
            && (!HasTwoTops(edges) ==> report.split == {})
  {
    hide IsTop;
    var parents := LearnAll(map[], edges);
    LearnedExactly(edges);
    TopsAreRoots(edges);
    forall f
      ensures f in ReportTree(parents).doubled <==> HasTwoParents(edges, f)
    {
      TwoParentsIff(edges, f);
    }
    SeveralIffTwo(Roots(parents));
  }

  lemma TwoParentsIff(edges: seq<Edge>, f: Frame)
    ensures var parents := LearnAll(map[], edges);
            f in parents && |parents[f]| > 1 <==> HasTwoParents(edges, f)
  {
    var parents := LearnAll(map[], edges);
    LearnedExactly(edges);
    if f in parents { SeveralIffTwo(parents[f]); }
  }

  lemma SeveralIffTwo(s: set<Frame>)
    ensures |s| > 1 <==> exists p, q :: p in s && q in s && p != q
  {
    if |s| > 1 {
      var p :| p in s;
      assert |s - {p}| > 0;
      var q :| q in s - {p};
    }
    if p, q :| p in s && q in s && p != q {
      assert {p, q} <= s;
      assert |s| == |{p, q}| + |s - {p, q}|;
    }
  }

  lemma TopsAreRoots(edges: seq<Edge>)
    ensures forall f :: f in Roots(LearnAll(map[], edges)) <==> IsTop(edges, f)
  {
    var parents := LearnAll(map[], edges);
    LearnedExactly(edges);
    forall f
      ensures f in Roots(parents) <==> IsTop(edges, f)
    {
      if f in Roots(parents) {
        var c :| c in parents && f in parents[c] && f !in parents;
        assert Edge(f, c) in edges;
      }
      if IsTop(edges, f) {
        var e :| e in edges && e.parent == f;
        assert e == Edge(f, e.child);
        assert f !in parents;
      }
    }
  }

  // ------------------------------------------------------------ walking towards the root

  ghost predicate IsWalk(parents: Parents, w: seq<Frame>) {
    && w != []
    && forall i :: 0 <= i < |w| - 1 ==> w[i] in parents && w[i + 1] in parents[w[i]]
  }

  ghost predicate Leads(parents: Parents, w: seq<Frame>, from: Frame, to: Frame) {
    IsWalk(parents, w) && w[0] == from && w[|w| - 1] == to
  }

  ghost predicate Reaches(parents: Parents, from: Frame, to: Frame) {
    exists w :: Leads(parents, w, from, to)
  }

  ghost predicate Acyclic(parents: Parents) {
    forall w :: IsWalk(parents, w) && |w| > 1 ==> w[0] != w[|w| - 1]
  }

  /** Every frame walks to `root`, by one walk only. */
  ghost predicate IsTreeAt(parents: Parents, root: Frame) {
    forall f :: f in Frames(parents) ==>
      && Reaches(parents, f, root)
      && forall v, w :: Leads(parents, v, f, root) && Leads(parents, w, f, root) ==> v == w
  }

  ghost predicate IsTree(parents: Parents) {
    exists root :: root in Frames(parents) && IsTreeAt(parents, root)
  }

  // ------------------------------------------------------------ every frame reaches a root

  /** Extends a walk that has not met itself until it stands on a root. */
  lemma {:induction false} Ascend(parents: Parents, w: seq<Frame>, seen: set<Frame>) returns (full: seq<Frame>)
    requires WellFormed(parents) && Acyclic(parents)
    requires IsWalk(parents, w) && w[0] in Frames(parents)
    requires seen == (set f | f in w) && seen <= Frames(parents)
    ensures IsWalk(parents, full) && full[0] == w[0] && full[|full| - 1] in Roots(parents)
    decreases Frames(parents) - seen
  {
    var top := w[|w| - 1];
    if top !in parents {
      if |w| > 1 {
        assert w[|w| - 2] in parents && top in parents[w[|w| - 2]];
      }
      return w;
    }
    var p :| p in parents[top];
    var longer := w + [p];
    assert IsWalk(parents, longer);
    if p in w {
      var i :| 0 <= i < |w| && w[i] == p;
      var loop := longer[i..];
      assert IsWalk(parents, loop);
      assert false;
    }
    assert (set f | f in longer) == seen + {p};
    assert p in Frames(parents) && p !in seen;
    full := Ascend(parents, longer, seen + {p});
  }

  lemma EveryFrameReachesARoot(parents: Parents, f: Frame)
    requires WellFormed(parents) && Acyclic(parents) && f in Frames(parents)
    ensures exists root :: root in Roots(parents) && Reaches(parents, f, root)
  {
    assert (set g | g in [f]) == {f};
    var w := Ascend(parents, [f], {f});
    assert Leads(parents, w, f, w[|w| - 1]);
  }

  // ------------------------------------------------------------ a clean report and a tree

  /** With one parent each, two walks from one frame to a frame without parents are the same. */
  lemma {:induction false} OneWayUp(parents: Parents, v: seq<Frame>, w: seq<Frame>, from: Frame, to: Frame)
    requires forall c :: c in parents ==> |parents[c]| == 1
    requires to !in parents
    requires Leads(parents, v, from, to) && Leads(parents, w, from, to)
    ensures v == w
    decreases |v|
  {
    if |v| == 1 || |w| == 1 {
      assert from == to;
    } else {
      OnlyElement(parents[from], v[1], w[1]);
      assert Leads(parents, v[1..], v[1], to);
      assert Leads(parents, w[1..], v[1], to);
      OneWayUp(parents, v[1..], w[1..], v[1], to);
      assert v == [from] + v[1..] && w == [from] + w[1..];
    }
  }

  lemma OnlyElement(s: set<Frame>, a: Frame, b: Frame)
    requires |s| == 1 && a in s && b in s
    ensures a == b
  {
    if a != b {
      assert |{a, b}| == 2;
      SubsetIsSmaller({a, b}, s);
    }
  }

  lemma {:induction false} SubsetIsSmaller<T>(a: set<T>, b: set<T>)
    requires a <= b
    ensures |a| <= |b|
    decreases a
  {
    if a != {} {
      var x :| x in a;
      SubsetIsSmaller(a - {x}, b - {x});
    }
  }

  lemma CleanMeansOneParentEach(parents: Parents)
    requires WellFormed(parents) && ReportTree(parents).Clean()
    ensures forall c :: c in parents ==> |parents[c]| == 1
    ensures |Roots(parents)| <= 1
  {
    forall c | c in parents
      ensures |parents[c]| == 1
    {
      assert c !in ReportTree(parents).doubled;
      assert parents[c] != {};
    }
  }

  lemma AcyclicAndCleanIsATree(parents: Parents)
    requires WellFormed(parents) && parents != map[]
    requires Acyclic(parents) && ReportTree(parents).Clean()
    ensures IsTree(parents)
  {
    CleanMeansOneParentEach(parents);
    var some :| some in parents;
    EveryFrameReachesARoot(parents, some);
    var root :| root in Roots(parents) && Reaches(parents, some, root);
    forall f | f in Frames(parents)
      ensures Reaches(parents, f, root)
      ensures forall v, w :: Leads(parents, v, f, root) && Leads(parents, w, f, root) ==> v == w
    {
      EveryFrameReachesARoot(parents, f);
      var r :| r in Roots(parents) && Reaches(parents, f, r);
      if r != root {
        assert |{r, root}| == 2;
        SubsetIsSmaller({r, root}, Roots(parents));
      }
      forall v, w | Leads(parents, v, f, root) && Leads(parents, w, f, root)
        ensures v == w
      {
        OneWayUp(parents, v, w, f, root);
      }
    }
    assert IsTreeAt(parents, root);
  }

  lemma StepFirst(parents: Parents, f: Frame, p: Frame, w: seq<Frame>, to: Frame)
    requires f in parents && p in parents[f] && Leads(parents, w, p, to)
    ensures Leads(parents, [f] + w, f, to)
  {
  }

  lemma DifferentSteps(c: Frame, v: seq<Frame>, w: seq<Frame>)
    requires v != [] && w != [] && v[0] != w[0]
    ensures [c] + v != [c] + w
  {
    assert ([c] + v)[1] == v[0] && ([c] + w)[1] == w[0];
  }

  lemma ATreeHasNoRootAboveIt(parents: Parents, root: Frame)
    requires root in Frames(parents) && IsTreeAt(parents, root)
    ensures root !in parents || parents[root] == {}
  {
    if root in parents && parents[root] != {} {
      var p :| p in parents[root];
      assert p in Frames(parents);
      var w :| Leads(parents, w, p, root);
      StepFirst(parents, root, p, w, root);
      assert Leads(parents, [root], root, root);
      assert false;
    }
  }

  lemma ATreeHasOneParentEach(parents: Parents, root: Frame, c: Frame)
    requires IsTreeAt(parents, root) && c in parents
    ensures |parents[c]| <= 1
  {
    if |parents[c]| > 1 {
      var p :| p in parents[c];
      if parents[c] == {p} { assert false; }
      var q :| q in parents[c] && q != p;
      assert p in Frames(parents) && q in Frames(parents) && c in Frames(parents);
      var v :| Leads(parents, v, p, root);
      var w :| Leads(parents, w, q, root);
      StepFirst(parents, c, p, v, root);
      StepFirst(parents, c, q, w, root);
      DifferentSteps(c, v, w);
      assert false;
    }
  }

  lemma ATreeIsAcyclic(parents: Parents, root: Frame)
    requires IsTreeAt(parents, root)
    ensures Acyclic(parents)
  {
    forall w | IsWalk(parents, w) && |w| > 1
      ensures w[0] != w[|w| - 1]
    {
      if w[0] == w[|w| - 1] {
        assert w[0] in Frames(parents);
        var v :| Leads(parents, v, w[0], root);
        var around := w + v[1..];
        assert Leads(parents, around, w[0], root);
        assert false;
      }
    }
  }

  /**
    The audit finds no fault with a graph of at least one edge, and the graph has no cycle,
    exactly when the graph is a tree: one frame that every frame reaches by one walk only.
   */
  lemma CleanAndAcyclicIffTree(parents: Parents)
    requires WellFormed(parents) && parents != map[]
    ensures ReportTree(parents).Clean() && Acyclic(parents) <==> IsTree(parents)
  {
    hide Acyclic, IsTreeAt, ReportTree;
    if ReportTree(parents).Clean() && Acyclic(parents) {
      AcyclicAndCleanIsATree(parents);
    }
    if IsTree(parents) {
      var root :| root in Frames(parents) && IsTreeAt(parents, root);
      ATreeIsAcyclic(parents, root);
      ATreeReportsClean(parents, root);
    }
  }

  lemma ATreeReportsClean(parents: Parents, root: Frame)
    requires WellFormed(parents) && root in Frames(parents) && IsTreeAt(parents, root)
    ensures ReportTree(parents).Clean()
  {
    hide IsTreeAt;
    ATreeHasNoRootAboveIt(parents, root);
    forall c | c in parents
      ensures |parents[c]| <= 1
    {
      ATreeHasOneParentEach(parents, root, c);
    }
    forall r | r in Roots(parents)
      ensures r == root
    {
      assert r in Frames(parents);
      ATreeIsReached(parents, root, r);
      RootOnlyReachesItself(parents, r, root);
    }
    SubsetIsSmaller(Roots(parents), {root});
  }

  lemma ATreeIsReached(parents: Parents, root: Frame, f: Frame)
    requires IsTreeAt(parents, root) && f in Frames(parents)
    ensures Reaches(parents, f, root)
  {
  }

  /** Two roots are always two worlds: no frame is above all others, cycle or not. */
  lemma SeveralRootsShareNoAncestor(parents: Parents, top: Frame)
    requires |Roots(parents)| > 1
    ensures exists f :: f in Frames(parents) && !Reaches(parents, f, top)
  {
    var r :| r in Roots(parents);
    if Roots(parents) == {r} { assert false; }
    var s :| s in Roots(parents) && s != r;
    RootOnlyReachesItself(parents, r, top);
    RootOnlyReachesItself(parents, s, top);
    assert r in Frames(parents) && s in Frames(parents);
  }

  lemma RootOnlyReachesItself(parents: Parents, root: Frame, top: Frame)
    requires root in Roots(parents)
    ensures Reaches(parents, root, top) ==> root == top
  {
    if Reaches(parents, root, top) {
      var w :| Leads(parents, w, root, top);
    }
  }

  // ------------------------------------------------------------ the cycle the audit cannot see

  lemma CycleParents(a: Frame, b: Frame, root: Frame, leaf: Frame)
    requires a != b && a != root && b != root && leaf !in {a, b, root}
    ensures LearnAll(map[], [Edge(a, b), Edge(b, a), Edge(root, leaf)]) == WithCycle(a, b, root, leaf)
  {
    LearnMore(map[], [], Edge(a, b));
    LearnMore(map[], [Edge(a, b)], Edge(b, a));
    LearnMore(map[], [Edge(a, b), Edge(b, a)], Edge(root, leaf));
    hide LearnAll;
    assert [] + [Edge(a, b)] == [Edge(a, b)];
    assert [Edge(a, b)] + [Edge(b, a)] == [Edge(a, b), Edge(b, a)];
    assert [Edge(a, b), Edge(b, a)] + [Edge(root, leaf)] == [Edge(a, b), Edge(b, a), Edge(root, leaf)];
    LearnNone();
    FirstParent(map[], a, b);
    FirstParent(map[b := {a}], b, a);
    FirstParent(map[b := {a}, a := {b}], root, leaf);
  }

  lemma LearnNone()
    ensures LearnAll(map[], []) == map[]
  {
  }

  lemma FirstParent(parents: Parents, p: Frame, c: Frame)
    requires c !in parents
    ensures Learn(parents, Edge(p, c)) == parents[c := {p}]
  {
    var none: set<Frame> := {};
    assert none + {p} == {p};
  }

  /**
    Two frames parenting each other beside an ordinary edge: the report is clean and names one
    root, yet the cycle never reaches it.
   */
  lemma ACycleGoesUnreported(a: Frame, b: Frame, root: Frame, leaf: Frame)
    requires a != b && a != root && b != root && leaf !in {a, b, root}
    ensures var parents := LearnAll(map[], [Edge(a, b), Edge(b, a), Edge(root, leaf)]);
            && ReportTree(parents).Clean() && Roots(parents) == {root}
            && !Reaches(parents, a, root) && !IsTree(parents)
  {
    hide LearnAll, ReportTree, Roots, Reaches, IsTree;
    CycleParents(a, b, root, leaf);
    CycleRoots(a, b, root, leaf);
    CycleReport(a, b, root, leaf);
    CycleKeepsIn(a, b, root, leaf);
    CycleIsNoTree(a, b, root, leaf);
  }

  function WithCycle(a: Frame, b: Frame, root: Frame, leaf: Frame): Parents {
    map[b := {a}, a := {b}, leaf := {root}]
  }

  lemma CycleRoots(a: Frame, b: Frame, root: Frame, leaf: Frame)
    requires a != b && a != root && b != root && leaf !in {a, b, root}
    ensures Roots(WithCycle(a, b, root, leaf)) == {root}
  {
    var parents := WithCycle(a, b, root, leaf);
    assert root in parents[leaf] && root !in parents;
  }

  lemma CycleReport(a: Frame, b: Frame, root: Frame, leaf: Frame)
    requires a != b && a != root && b != root && leaf !in {a, b, root}
    ensures ReportTree(WithCycle(a, b, root, leaf)).Clean()
  {
    hide Roots;
    CycleRoots(a, b, root, leaf);
    var parents := WithCycle(a, b, root, leaf);
    assert forall c :: c in parents ==> |parents[c]| == 1;
  }

  lemma CycleKeepsIn(a: Frame, b: Frame, root: Frame, leaf: Frame)
    requires a != b && a != root && b != root && leaf !in {a, b, root}
    ensures !Reaches(WithCycle(a, b, root, leaf), a, root)
  {
    var parents := WithCycle(a, b, root, leaf);
    forall w | Leads(parents, w, a, root)
      ensures w[|w| - 1] in {a, b}
    {
      StaysInCycle(parents, w, a, b);
    }
  }

  lemma CycleIsNoTree(a: Frame, b: Frame, root: Frame, leaf: Frame)
    requires a != b && a != root && b != root && leaf !in {a, b, root}
    ensures !IsTree(WithCycle(a, b, root, leaf))
  {
    hide IsTree, ReportTree;
    var parents := WithCycle(a, b, root, leaf);
    assert b in parents;
    assert !Acyclic(parents) by { assert IsWalk(parents, [a, b, a]); }
    CleanAndAcyclicIffTree(parents);
  }

  lemma LearnMore(parents: Parents, edges: seq<Edge>, e: Edge)
    ensures LearnAll(parents, edges + [e]) == Learn(LearnAll(parents, edges), e)
  {
    assert (edges + [e])[..|edges|] == edges;
  }

  lemma {:induction false} StaysInCycle(parents: Parents, w: seq<Frame>, a: Frame, b: Frame)
    requires IsWalk(parents, w) && w[0] in {a, b}
    requires a in parents && parents[a] == {b} && b in parents && parents[b] == {a}
    ensures w[|w| - 1] in {a, b}
    decreases |w|
  {
    if |w| > 1 {
      assert w[1] in parents[w[0]];
      StaysInCycle(parents, w[1..], a, b);
    }
  }

  // ------------------------------------------------------------ arrival order does not matter

  /** What was learned is a function of the set of edges seen. */
  lemma {:induction false} LearnedExactly(edges: seq<Edge>)
    ensures var parents := LearnAll(map[], edges);
            && WellFormed(parents)
            && (forall c :: c in parents <==> exists p :: Edge(p, c) in edges)
            && (forall c, p :: c in parents ==> (p in parents[c] <==> Edge(p, c) in edges))
    decreases |edges|
  {
    if edges != [] {
      var front, e := edges[..|edges| - 1], edges[|edges| - 1];
      LearnedExactly(front);
      assert forall x :: x in edges <==> x in front || x == e;
      var parents := LearnAll(map[], edges);
      forall c | c in parents
        ensures exists p :: Edge(p, c) in edges
      {
        if c == e.child { assert Edge(e.parent, c) in edges; }
        else { var p :| Edge(p, c) in front; assert Edge(p, c) in edges; }
      }
    }
  }

  lemma SameEdgesSameParents(edges: seq<Edge>, other: seq<Edge>, c: Frame)
    requires forall e :: e in edges <==> e in other
    ensures var a, b := LearnAll(map[], edges), LearnAll(map[], other);
            (c in a <==> c in b) && (c in a ==> a[c] == b[c])
  {
    hide LearnAll;
    LearnedExactly(edges);
    LearnedExactly(other);
  }

  /** The tree report depends on which edges were seen, not on when or how often. */
  lemma ReportIgnoresOrder(edges: seq<Edge>, other: seq<Edge>)
    requires forall e :: e in edges <==> e in other
    ensures ReportTree(LearnAll(map[], edges)) == ReportTree(LearnAll(map[], other))
  {
    hide LearnAll, ReportTree;
    var a, b := LearnAll(map[], edges), LearnAll(map[], other);
    forall c
      ensures (c in a <==> c in b) && (c in a ==> a[c] == b[c])
    {
      SameEdgesSameParents(edges, other, c);
    }
    assert a == b;
  }
}
