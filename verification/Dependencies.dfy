/** Source dependency graphs: exact cycle detection and reachability. */
module Dependencies {
  import opened Common
  import opened Counting
  import opened PathOrder

  datatype DependencyKind = Input | Include | Subfile | Graphics | Bibliography

  datatype Resolution = ProjectFile(target: Path) | ExternalTex | Missing(candidates: seq<Path>) | Dynamic

  datatype Edge = Edge(from: Path, kind: DependencyKind, resolution: Resolution)

  type Adjacency = map<Path, set<Path>>

  /** Input, Include and Subfile edges that resolved to a project file. */
  predicate IsSource(e: Edge)
  {
    (e.kind.Input? || e.kind.Include? || e.kind.Subfile?) && e.resolution.ProjectFile?
  }

  ghost predicate Depends(edges: seq<Edge>, a: Path, b: Path)
  {
    exists e :: e in edges && e.kind in {Input, Include, Subfile} && e.from == a && e.resolution == ProjectFile(b)
  }

  ghost predicate Links(adjacency: Adjacency, a: Path, b: Path)
  {
    a in adjacency && b in adjacency[a]
  }

  /** A non-empty chain of links from `a` to `b`. */
  ghost predicate Walk(adjacency: Adjacency, p: seq<Path>, a: Path, b: Path)
  {
    && |p| >= 2 && p[0] == a && p[|p|-1] == b
    && forall i :: 0 <= i < |p| - 1 ==> Links(adjacency, p[i], p[i+1])
  }

  ghost predicate Leads(adjacency: Adjacency, a: Path, b: Path)
  {
    exists p :: Walk(adjacency, p, a, b)
  }

  ghost predicate OnCycle(adjacency: Adjacency, a: Path)
  {
    Leads(adjacency, a, a)
  }

  ghost predicate Acyclic(adjacency: Adjacency)
  {
    forall a: Path :: !OnCycle(adjacency, a)
  }

  lemma StepLeads(adjacency: Adjacency, a: Path, b: Path)
    requires Links(adjacency, a, b)
    ensures Leads(adjacency, a, b)
  {
    assert Walk(adjacency, [a, b], a, b);
  }

  lemma ExtendLeads(adjacency: Adjacency, a: Path, b: Path, c: Path)
    requires Leads(adjacency, a, b) && Links(adjacency, b, c)
    ensures Leads(adjacency, a, c)
  {
    var p :| Walk(adjacency, p, a, b);
    assert Walk(adjacency, p + [c], a, c);
  }

  // --- an order in which links point backwards, or to a reported file ----------------------

  /** Files in the order their traversal ended; a link of a listed file goes to an earlier or a reported one. */
  ghost predicate Backwards(adjacency: Adjacency, finished: seq<Path>, reported: set<Path>)
  {
    forall i, t :: 0 <= i < |finished| && Links(adjacency, finished[i], t) ==> t in finished[..i] || t in reported
  }

  ghost predicate Meets(p: seq<Path>, reported: set<Path>)
  {
    exists k :: 0 <= k < |p| && p[k] in reported
  }

  /** A chain that avoids the reported files ends strictly before it starts. */
  lemma {:induction false} WalksGoBackwards(adjacency: Adjacency, finished: seq<Path>, reported: set<Path>,
                                            p: seq<Path>, i: nat)
    requires Backwards(adjacency, finished, reported) && i < |finished| && !Meets(p, reported)
    requires |p| >= 2 && p[0] == finished[i] && forall k :: 0 <= k < |p| - 1 ==> Links(adjacency, p[k], p[k+1])
    ensures p[|p|-1] in finished[..i]
  {
    assert Links(adjacency, p[0], p[1]) && p[1] !in reported;
    var j :| 0 <= j < i && finished[j] == p[1];
    if |p| > 2 {
      assert !Meets(p[1..], reported) by {
        forall k | 0 <= k < |p[1..]| ensures p[1..][k] !in reported { assert p[k+1] !in reported; }
      }
      WalksGoBackwards(adjacency, finished, reported, p[1..], j);
      assert p[1..][|p[1..]|-1] == p[|p|-1];
    }
  }

  /** Every cycle passes through a reported file. */
  ghost predicate Covers(adjacency: Adjacency, reported: set<Path>)
  {
    forall p, a: Path :: Walk(adjacency, p, a, a) ==> Meets(p, reported)
  }

  lemma FinishedCovers(adjacency: Adjacency, finished: seq<Path>, reported: set<Path>)
    requires Backwards(adjacency, finished, reported) && forall a :: a in adjacency ==> a in finished
    requires forall i, j :: 0 <= i < j < |finished| ==> finished[i] != finished[j]
    ensures Covers(adjacency, reported)
  {
    forall p, a: Path | Walk(adjacency, p, a, a) ensures Meets(p, reported) {
      assert Links(adjacency, p[0], p[1]);
      var i :| 0 <= i < |finished| && finished[i] == a;
      if !Meets(p, reported) {
        WalksGoBackwards(adjacency, finished, reported, p, i);
      }
    }
  }

  lemma CoveredByNothing(adjacency: Adjacency, reported: set<Path>)
    requires Covers(adjacency, reported) && forall r :: r in reported ==> OnCycle(adjacency, r)
    ensures reported == {} <==> Acyclic(adjacency)
  {
    if reported == {} {
      forall a: Path ensures !OnCycle(adjacency, a) {
        forall p: seq<Path> ensures !Walk(adjacency, p, a, a) {
          assert !Meets(p, reported);
        }
      }
    } else {
      var r :| r in reported;
      assert OnCycle(adjacency, r);
    }
  }

  // --- detect_cycle ----------------------------------------------------------------------------

  /** The traversal's shared sets; `finished` records the order in which nodes left `active`. */
  class CycleDetector {
    const adjacency: Adjacency
    var visited: set<Path>
    var active: set<Path>
    var reported: set<Path>
    var diagnostics: seq<Path>
    ghost var finished: seq<Path>

    constructor (adjacency: Adjacency)
      ensures this.adjacency == adjacency && visited == active == reported == {} && diagnostics == finished == []
    {
      this.adjacency := adjacency;
      visited, active, reported, diagnostics, finished := {}, {}, {}, [], [];
    }

    ghost predicate Valid()
      reads this
    {
      Sound(adjacency, visited, active, reported, diagnostics, finished)
    }

    /** The nodes on the recursion stack all lead to `node`. */
    ghost predicate OnStack(node: Path)
      reads this
    {
      forall a :: a in active ==> Leads(adjacency, a, node)
    }

    method DetectCycle(node: Path)
      requires Valid() && node in Nodes(adjacency) && OnStack(node)
      modifies this
      ensures Valid()
      ensures active == old(active) && old(visited) <= visited && old(reported) <= reported
      ensures node in visited && (node in finished || node in reported)
      decreases |Nodes(adjacency) - visited|, 1
    {
      if node in active {
        if node !in reported {
          ReportSound(adjacency, visited, active, reported, diagnostics, finished, node);
          reported := reported + {node};
          diagnostics := diagnostics + [node];
        }
        return;
      }
      if node in visited {
        return;
      }
      Explore(node);
    }

    /** The rest of detect_cycle, for a node seen for the first time. */
    method Explore(node: Path)
      requires Valid() && node in Nodes(adjacency) && OnStack(node) && node !in visited
      modifies this
      ensures Valid()
      ensures active == old(active) && old(visited) <= visited && old(reported) <= reported
      ensures node in visited && node in finished
      decreases |Nodes(adjacency) - visited|, 0
    {
      FewerLeft(adjacency, visited, node);
      Enter(node);
      VisitTargets(node);
      Leave(node);
    }

    method Enter(node: Path)
      requires Valid() && node in Nodes(adjacency) && node !in visited
      modifies `visited, `active
      ensures Valid() && visited == old(visited) + {node} && active == old(active) + {node}
    {
      EnterSound(adjacency, visited, active, reported, diagnostics, finished, node);
      visited := visited + {node};
      active := active + {node};
    }

    method Leave(node: Path)
      requires Valid() && node in active
      requires forall t :: Links(adjacency, node, t) ==> t in finished || t in reported
      modifies `active, `finished
      ensures Valid() && active == old(active) - {node} && finished == old(finished) + [node]
    {
      LeaveSound(adjacency, visited, active, reported, diagnostics, finished, node);
      active := active - {node};
      finished := finished + [node];
    }

    /** The loop over the targets of the node on top of the stack, in ascending order. */
    method VisitTargets(node: Path)
      requires Valid() && node in active && forall a :: a in active && a != node ==> Leads(adjacency, a, node)
      modifies this
      ensures Valid()
      ensures active == old(active) && old(visited) <= visited && old(reported) <= reported
      ensures forall t :: Links(adjacency, node, t) ==> t in finished || t in reported
      decreases |Nodes(adjacency) - visited|, 2
    {
      if node !in adjacency {
        return;
      }
      var targets := Listing(adjacency[node]);
      for i := 0 to |targets|
        invariant Valid() && active == old(active) && old(visited) <= visited && old(reported) <= reported
        invariant forall k :: 0 <= k < i ==> targets[k] in finished || targets[k] in reported
      {
        assert targets[i] in targets;
        TargetOnStack(adjacency, active, node, targets[i]);
        MonotoneLeft(adjacency, old(visited), visited);
        DetectCycle(targets[i]);
      }
    }
  }

  /** What the shared sets mean between two calls. */
  ghost predicate Sound(adjacency: Adjacency, visited: set<Path>, active: set<Path>, reported: set<Path>,
                        diagnostics: seq<Path>, finished: seq<Path>)
  {
    && active <= visited <= Nodes(adjacency)
    && (forall f :: f in finished <==> f in visited && f !in active)
    && (forall i, j :: 0 <= i < j < |finished| ==> finished[i] != finished[j])
    && (forall d :: d in diagnostics <==> d in reported)
    && (forall i, j :: 0 <= i < j < |diagnostics| ==> diagnostics[i] != diagnostics[j])
    && (forall r :: r in reported ==> OnCycle(adjacency, r))
    && Backwards(adjacency, finished, reported)
  }

  lemma ReportSound(adjacency: Adjacency, visited: set<Path>, active: set<Path>, reported: set<Path>,
                    diagnostics: seq<Path>, finished: seq<Path>, node: Path)
    requires Sound(adjacency, visited, active, reported, diagnostics, finished)
    requires node !in reported && OnCycle(adjacency, node)
    ensures Sound(adjacency, visited, active, reported + {node}, diagnostics + [node], finished)
  {
    assert node in reported + {node};
  }

  lemma EnterSound(adjacency: Adjacency, visited: set<Path>, active: set<Path>, reported: set<Path>,
                   diagnostics: seq<Path>, finished: seq<Path>, node: Path)
    requires Sound(adjacency, visited, active, reported, diagnostics, finished)
    requires node !in visited && node in Nodes(adjacency)
    ensures Sound(adjacency, visited + {node}, active + {node}, reported, diagnostics, finished)
  {
  }

  lemma LeaveSound(adjacency: Adjacency, visited: set<Path>, active: set<Path>, reported: set<Path>,
                   diagnostics: seq<Path>, finished: seq<Path>, node: Path)
    requires Sound(adjacency, visited, active, reported, diagnostics, finished)
    requires node in active
    requires forall t :: Links(adjacency, node, t) ==> t in finished || t in reported
    ensures Sound(adjacency, visited, active - {node}, reported, diagnostics, finished + [node])
  {
    var after := finished + [node];
    forall i, t | 0 <= i < |after| && Links(adjacency, after[i], t) ensures t in after[..i] || t in reported {
      if i < |finished| {
        assert after[..i] == finished[..i] && Links(adjacency, finished[i], t);
      } else {
        assert after[..i] == finished;
      }
    }
  }

  lemma TargetOnStack(adjacency: Adjacency, active: set<Path>, node: Path, target: Path)
    requires Links(adjacency, node, target) && forall a :: a in active && a != node ==> Leads(adjacency, a, node)
    ensures forall a :: a in active ==> Leads(adjacency, a, target)
    ensures target in Nodes(adjacency)
  {
    forall a | a in active ensures Leads(adjacency, a, target) {
      if a == node { StepLeads(adjacency, node, target); } else { ExtendLeads(adjacency, a, node, target); }
    }
  }

  function Nodes(adjacency: Adjacency): set<Path>
  {
    adjacency.Keys + set a, t | a in adjacency && t in adjacency[a] :: t
  }

  lemma FewerLeft(adjacency: Adjacency, visited: set<Path>, node: Path)
    requires node !in visited && node in Nodes(adjacency)
    ensures |Nodes(adjacency) - (visited + {node})| < |Nodes(adjacency) - visited|
  {
    assert Nodes(adjacency) - visited == (Nodes(adjacency) - (visited + {node})) + {node};
  }

  lemma MonotoneLeft(adjacency: Adjacency, before: set<Path>, after: set<Path>)
    requires before <= after
    ensures |Nodes(adjacency) - after| <= |Nodes(adjacency) - before|
  {
    var a, b := Nodes(adjacency) - after, Nodes(adjacency) - before;
    assert b == a + (b - a);
  }

  // --- add_cycle_diagnostics ---------------------------------------------------------------

  /** The adjacency map that the source edges spell out. */
  function SourceGraph(edges: seq<Edge>): Adjacency
  {
    if edges == [] then map[]
    else
      var before, e := SourceGraph(edges[..|edges|-1]), edges[|edges|-1];
      if !IsSource(e) then before
      else before[e.from := (if e.from in before then before[e.from] else {}) + {e.resolution.target}]
  }

  lemma {:induction false} LinksAreDependencies(edges: seq<Edge>, a: Path, b: Path)
    ensures Links(SourceGraph(edges), a, b) <==> Depends(edges, a, b)
  {
    if edges != [] {
      var most, e := edges[..|edges|-1], edges[|edges|-1];
      LinksAreDependencies(most, a, b);
      assert edges == most + [e];
      if Depends(most, a, b) {
        var d :| d in most && d.kind in {Input, Include, Subfile} && d.from == a && d.resolution == ProjectFile(b);
        assert d in edges;
      }
    }
  }

  lemma SameMembers(s: seq<Path>, m: set<Path>)
    requires forall d :: d in s <==> d in m
    ensures m == set d | d in s
    ensures s == [] <==> m == {}
  {
    if s != [] {
      assert s[0] in m;
    }
  }

  /**
   * Each reported file lies on a cycle and is reported once, and every cycle passes through a reported file;
   * so nothing is reported exactly when the sources are acyclic.
   */
  method AddCycleDiagnostics(edges: seq<Edge>) returns (diagnostics: seq<Path>)
    ensures Covers(SourceGraph(edges), set d | d in diagnostics)
    ensures diagnostics == [] <==> Acyclic(SourceGraph(edges))
    ensures forall d :: d in diagnostics ==> OnCycle(SourceGraph(edges), d)
    ensures forall i, j :: 0 <= i < j < |diagnostics| ==> diagnostics[i] != diagnostics[j]
  {
    var adjacency: Adjacency := map[];
    for i := 0 to |edges|
      invariant adjacency == SourceGraph(edges[..i])
    {
      assert edges[..i+1][..i] == edges[..i];
      if IsSource(edges[i]) {
        var from := edges[i].from;
        if from !in adjacency {
          adjacency := adjacency[from := {}];
        }
        adjacency := adjacency[from := adjacency[from] + {edges[i].resolution.target}];
        assert adjacency == SourceGraph(edges[..i+1]);
      }
    }
    assert edges[..|edges|] == edges;
    var detector := new CycleDetector(adjacency);
    var nodes := Listing(adjacency.Keys);
    for i := 0 to |nodes|
      invariant detector.Valid() && detector.active == {} && detector.adjacency == adjacency
      invariant fresh(detector)
      invariant forall k :: 0 <= k < i ==> nodes[k] in detector.finished
    {
      assert nodes[i] in nodes;
      detector.DetectCycle(nodes[i]);
    }
    diagnostics := detector.diagnostics;
    forall a | a in adjacency ensures a in detector.finished {
      var k :| 0 <= k < |nodes| && nodes[k] == a;
    }
    FinishedCovers(adjacency, detector.finished, detector.reported);
    CoveredByNothing(adjacency, detector.reported);
    SameMembers(diagnostics, detector.reported);
  }

  // --- the reachable_sources loop --------------------------------------------------------------

  ghost predicate ReachedFrom(edges: seq<Edge>, main: Path, x: Path)
  {
    x == main || Leads(SourceGraph(edges), main, x)
  }

  ghost predicate Closed(edges: seq<Edge>, reached: set<Path>)
  {
    forall e :: e in edges && IsSource(e) && e.from in reached ==> e.resolution.target in reached
  }

  lemma {:induction false} ClosedHoldsWalks(edges: seq<Edge>, reached: set<Path>, p: seq<Path>)
    requires Closed(edges, reached) && |p| >= 1 && p[0] in reached
    requires forall i :: 0 <= i < |p| - 1 ==> Links(SourceGraph(edges), p[i], p[i+1])
    ensures p[|p|-1] in reached
  {
    if |p| > 1 {
      ClosedHoldsWalks(edges, reached, p[..|p|-1]);
      assert Links(SourceGraph(edges), p[|p|-2], p[|p|-1]);
      LinksAreDependencies(edges, p[|p|-2], p[|p|-1]);
    }
  }

  lemma EdgeReaches(edges: seq<Edge>, main: Path, e: Edge)
    requires e in edges && IsSource(e) && ReachedFrom(edges, main, e.from)
    ensures ReachedFrom(edges, main, e.resolution.target)
  {
    LinksAreDependencies(edges, e.from, e.resolution.target);
    if e.from == main {
      StepLeads(SourceGraph(edges), main, e.resolution.target);
    } else {
      ExtendLeads(SourceGraph(edges), main, e.from, e.resolution.target);
    }
  }

  function Targets(edges: seq<Edge>): set<Path>
  {
    set e | e in edges && IsSource(e) :: e.resolution.target
  }

  /** The fixpoint holds exactly the main file and what its source edges lead to, in whatever order edges are read. */
  method ReachableSources(main: Path, edges: seq<Edge>) returns (reached: set<Path>)
    ensures forall x :: x in reached <==> ReachedFrom(edges, main, x)
  {
    reached := {main};
    while true
      invariant main in reached && reached <= {main} + Targets(edges)
      invariant forall x :: x in reached ==> ReachedFrom(edges, main, x)
      decreases |{main} + Targets(edges)| - |reached|
    {
      var before := |reached|;
      ghost var start := reached;
      reached := OnePass(main, edges, reached);
      SubsetIsSmaller(reached, {main} + Targets(edges));
      SubsetIsSmaller(start, reached);
      if |reached| == before {
        SubsetOfSameSize(start, reached);
        break;
      }
    }
    forall x | ReachedFrom(edges, main, x) ensures x in reached {
      if x != main {
        var p :| Walk(SourceGraph(edges), p, main, x);
        ClosedHoldsWalks(edges, reached, p);
      }
    }
  }

  method OnePass(ghost main: Path, edges: seq<Edge>, start: set<Path>) returns (reached: set<Path>)
    requires start <= {main} + Targets(edges) && forall x :: x in start ==> ReachedFrom(edges, main, x)
    ensures start <= reached <= {main} + Targets(edges)
    ensures forall x :: x in reached ==> ReachedFrom(edges, main, x)
    ensures reached == start ==> Closed(edges, start)
  {
    reached := start;
    for i := 0 to |edges|
      invariant start <= reached <= {main} + Targets(edges)
      invariant forall x :: x in reached ==> ReachedFrom(edges, main, x)
      invariant reached == start ==> Closed(edges[..i], start)
    {
      var e := edges[i];
      if e.from in reached && IsSource(e) {
        EdgeReaches(edges, main, e);
        reached := reached + {e.resolution.target};
      }
      assert edges[..i+1] == edges[..i] + [e];
    }
    assert edges[..|edges|] == edges;
  }
}
