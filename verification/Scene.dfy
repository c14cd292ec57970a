/** The scene graph of crates/rpack/src/scene.rs: building a scene, checking its references,
    and Kahn's algorithm for acyclicity. */
module Scene {
  import opened Prelude

  datatype Node = Node(nodeId: nat, name: string)
  datatype Edge = Edge(source: nat, target: nat)
  datatype Constraint = Constraint(targetA: nat, targetB: Option<nat>)
  datatype Animation = Animation(targetNode: nat)
  datatype ValidationError =
    | InvalidEdgeSource(id: nat)
    | InvalidEdgeTarget(id: nat)
    | InvalidConstraintTarget(id: nat)
    | InvalidAnimationTarget(id: nat)

  function Ids(nodes: seq<Node>): (r: seq<nat>)
    ensures |r| == |nodes|
  {
    seq(|nodes|, i requires 0 <= i < |nodes| => nodes[i].nodeId)
  }

  // ---------- What acyclicity means ----------

  /** No edge enters a known node from an unknown one. */
  ghost predicate NoStrangers(ids: set<nat>, edges: seq<Edge>) {
    forall e :: e in edges && e.target in ids ==> e.source in ids
  }

  ghost predicate Linked(edges: seq<Edge>, p: seq<nat>, i: nat)
    requires i + 1 < |p|
  {
    Edge(p[i], p[i + 1]) in edges
  }

  ghost predicate Walk(ids: set<nat>, edges: seq<Edge>, p: seq<nat>) {
    && (forall i :: 0 <= i < |p| ==> p[i] in ids)
    && (forall i :: 0 <= i < |p| - 1 ==> Linked(edges, p, i))
  }

  ghost predicate Cycle(ids: set<nat>, edges: seq<Edge>, p: seq<nat>) {
    |p| >= 2 && p[0] == p[|p| - 1] && Walk(ids, edges, p)
  }

  ghost predicate Acyclic(ids: set<nat>, edges: seq<Edge>) {
    forall p :: !Cycle(ids, edges, p)
  }

  /** Every edge into a listed node comes from a node listed earlier. */
  ghost predicate Topological(edges: seq<Edge>, order: seq<nat>) {
    forall k, e :: 0 <= k < |order| && e in edges && e.target == order[k] ==> e.source in order[..k]
  }

  lemma WalkSlice(ids: set<nat>, edges: seq<Edge>, p: seq<nat>, lo: nat, hi: nat)
    requires Walk(ids, edges, p) && lo <= hi <= |p|
    ensures Walk(ids, edges, p[lo..hi])
  {
    forall i | 0 <= i < hi - lo - 1 ensures Linked(edges, p[lo..hi], i) {
      assert Linked(edges, p, lo + i);
    }
  }

  /** Along a walk inside a topological order, positions strictly increase. */
  lemma {:induction false} WalkClimbs(ids: set<nat>, edges: seq<Edge>, order: seq<nat>, p: seq<nat>, from: nat, to: nat)
    requires Distinct(order) && Topological(edges, order)
    requires Walk(ids, edges, p) && |p| > 1
    requires from < |order| && to < |order| && p[0] == order[from] && p[|p| - 1] == order[to]
    ensures from < to
    decreases |p|
  {
    var last := |p| - 1;
    assert Linked(edges, p, last - 1);
    assert p[last - 1] in order[..to];
    var k :| 0 <= k < to && order[k] == p[last - 1];
    if |p| > 2 {
      WalkSlice(ids, edges, p, 0, last);
      WalkClimbs(ids, edges, order, p[..last], from, k);
    }
  }

  lemma OrderedIsAcyclic(edges: seq<Edge>, order: seq<nat>)
    requires Distinct(order) && Topological(edges, order)
    ensures NoStrangers(Elems(order), edges) && Acyclic(Elems(order), edges)
  {
    var ids := Elems(order);
    forall e | e in edges && e.target in ids ensures e.source in ids {
      var k :| 0 <= k < |order| && order[k] == e.target;
      assert e.source in order[..k];
    }
    forall p ensures !Cycle(ids, edges, p) {
      if Cycle(ids, edges, p) {
        assert p[0] in ids;
        var k :| 0 <= k < |order| && order[k] == p[0];
        WalkClimbs(ids, edges, order, p, k, k);
      }
    }
  }

  ghost predicate HasPredecessor(edges: seq<Edge>, u: set<nat>, t: nat) {
    exists e :: e in edges && e.target == t && e.source in u
  }

  /** Every node of the set has a predecessor in the set. */
  ghost predicate Trapped(edges: seq<Edge>, u: set<nat>) {
    forall t {:trigger HasPredecessor(edges, u, t)} :: t in u ==> HasPredecessor(edges, u, t)
  }

  /** From a trapped set one can walk backwards for ever; here, for n edges. */
  lemma {:induction false} BackwardWalk(edges: seq<Edge>, u: set<nat>, t: nat, n: nat) returns (p: seq<nat>)
    requires Trapped(edges, u) && t in u
    ensures |p| == n + 1 && p[n] == t && Walk(u, edges, p)
    decreases n
  {
    if n == 0 {
      p := [t];
    } else {
      assert HasPredecessor(edges, u, t);
      var e :| e in edges && e.target == t && e.source in u;
      var q := BackwardWalk(edges, u, e.source, n - 1);
      p := q + [t];
      assert e == Edge(q[n - 1], t);
      forall i | 0 <= i < |p| - 1 ensures Linked(edges, p, i) {
        assert i < n - 1 ==> Linked(edges, q, i);
      }
    }
  }

  /** A non-empty trapped set contains a cycle: a long enough backward walk repeats a node. */
  lemma TrappedHasCycle(edges: seq<Edge>, u: set<nat>, t: nat) returns (c: seq<nat>)
    requires Trapped(edges, u) && t in u
    ensures Cycle(u, edges, c)
  {
    var p := BackwardWalk(edges, u, t, |u|);
    ElemsCardinality(p);
    SubsetCardinality(Elems(p), u);
    var i, j :| 0 <= i < j < |p| && p[i] == p[j];
    WalkSlice(u, edges, p, i, j + 1);
    c := p[i..j + 1];
  }

  lemma CycleGrows(u: set<nat>, ids: set<nat>, edges: seq<Edge>, c: seq<nat>)
    requires u <= ids && Cycle(u, edges, c)
    ensures !Acyclic(ids, edges)
  {
    assert Cycle(ids, edges, c);
  }

  /** The independent reference: a set of nodes can be listed topologically exactly when no
      stranger points into it and it has no cycle. */
  lemma AcyclicIffOrder(ids: set<nat>, edges: seq<Edge>)
    ensures NoStrangers(ids, edges) && Acyclic(ids, edges)
       <==> exists order: seq<nat> :: Elems(order) == ids && Distinct(order) && Topological(edges, order)
  {
    if NoStrangers(ids, edges) && Acyclic(ids, edges) {
      var order := CompleteOrder(ids, edges, []);
    }
    forall order: seq<nat> | Elems(order) == ids && Distinct(order) && Topological(edges, order)
      ensures NoStrangers(ids, edges) && Acyclic(ids, edges)
    {
      OrderedIsAcyclic(edges, order);
    }
  }

  lemma {:induction false} CompleteOrder(ids: set<nat>, edges: seq<Edge>, done: seq<nat>) returns (order: seq<nat>)
    requires NoStrangers(ids, edges) && Acyclic(ids, edges)
    requires Elems(done) <= ids && Distinct(done) && Topological(edges, done)
    ensures Elems(order) == ids && Distinct(order) && Topological(edges, order)
    decreases ids - Elems(done)
  {
    var u := ids - Elems(done);
    if u == {} {
      order := done;
    } else {
      var t := FreeNode(ids, edges, u);
      assert Elems(done + [t]) == Elems(done) + {t};
      Extend(edges, done, t);
      order := CompleteOrder(ids, edges, done + [t]);
    }
  }

  lemma FreeNode(ids: set<nat>, edges: seq<Edge>, u: set<nat>) returns (t: nat)
    requires Acyclic(ids, edges) && u <= ids && u != {}
    ensures t in u && forall e :: e in edges && e.target == t ==> e.source !in u
  {
    if Trapped(edges, u) {
      var s :| s in u;
      var c := TrappedHasCycle(edges, u, s);
      CycleGrows(u, ids, edges, c);
      assert false;
    }
    t :| t in u && !HasPredecessor(edges, u, t);
  }

  lemma Extend(edges: seq<Edge>, done: seq<nat>, t: nat)
    requires Distinct(done) && Topological(edges, done) && t !in done
    requires forall e :: e in edges && e.target == t ==> e.source in done
    ensures Distinct(done + [t]) && Topological(edges, done + [t])
  {
    var order := done + [t];
    forall k, e | 0 <= k < |order| && e in edges && e.target == order[k] ensures e.source in order[..k] {
      if k < |done| {
        assert order[..k] == done[..k];
        assert e.target == done[k];
      } else {
        assert order[..k] == done;
      }
    }
  }

  // ---------- The degree bookkeeping of Kahn's algorithm ----------

  /** How many edges enter t from nodes that are not done. */
  function Remaining(edges: seq<Edge>, t: nat, done: set<nat>): (r: nat) {
    if edges == [] then 0
    else Remaining(edges[..|edges| - 1], t, done)
         + (var e := edges[|edges| - 1]; if e.target == t && e.source !in done then 1 else 0)
  }

  lemma {:induction false} RemainingSplit(a: seq<Edge>, b: seq<Edge>, t: nat, done: set<nat>)
    ensures Remaining(a + b, t, done) == Remaining(a, t, done) + Remaining(b, t, done)
  {
    if b == [] {
      assert a + b == a;
    } else {
      assert (a + b)[..|a + b| - 1] == a + b[..|b| - 1];
      RemainingSplit(a, b[..|b| - 1], t, done);
    }
  }

  lemma {:induction false} RemainingZero(edges: seq<Edge>, t: nat, done: set<nat>)
    ensures Remaining(edges, t, done) == 0 <==> forall e :: e in edges && e.target == t ==> e.source in done
  {
    if edges != [] {
      var init, last := edges[..|edges| - 1], edges[|edges| - 1];
      RemainingZero(init, t, done);
      assert edges == init + [last];
    }
  }

  /** The degrees while the edges of n are being scanned: edges before j already treat n as done. */
  ghost predicate Scanned(edges: seq<Edge>, j: nat, degree: map<nat, nat>, done: set<nat>, n: nat)
    requires j <= |edges|
  {
    forall t :: t in degree ==>
      degree[t] == Remaining(edges[..j], t, done + {n}) + Remaining(edges[j..], t, done)
  }

  ghost predicate Counted(edges: seq<Edge>, degree: map<nat, nat>, done: set<nat>) {
    forall t :: t in degree ==> degree[t] == Remaining(edges, t, done)
  }

  /** The nodes popped so far together with the queue list the zero-degree nodes, each once. */
  ghost predicate Frontier(degree: map<nat, nat>, listed: seq<nat>) {
    && Distinct(listed)
    && forall t :: t in listed <==> t in degree && degree[t] == 0
  }

  lemma ScanEdge(edges: seq<Edge>, j: nat, degree: map<nat, nat>, done: set<nat>, n: nat)
    requires j < |edges| && n !in done && Scanned(edges, j, degree, done, n)
    ensures var e := edges[j];
            if e.source == n && e.target in degree
            then degree[e.target] > 0 &&
                 Scanned(edges, j + 1, degree[e.target := degree[e.target] - 1], done, n)
            else Scanned(edges, j + 1, degree, done, n)
  {
    var e := edges[j];
    assert edges[j..] == [e] + edges[j + 1..];
    assert edges[..j + 1] == edges[..j] + [e];
    forall t | t in degree
      ensures Remaining(edges[j..], t, done)
              == Remaining(edges[j + 1..], t, done) + if e.target == t && e.source !in done then 1 else 0
      ensures Remaining(edges[..j + 1], t, done + {n})
              == Remaining(edges[..j], t, done + {n}) + if e.target == t && e.source !in done + {n} then 1 else 0
    {
      RemainingSplit([e], edges[j + 1..], t, done);
      RemainingSplit(edges[..j], [e], t, done + {n});
      assert [e][..0] == [];
    }
  }

  method InDegrees(nodes: seq<Node>, edges: seq<Edge>) returns (degree: map<nat, nat>)
    ensures degree.Keys == Elems(Ids(nodes)) && Counted(edges, degree, {})
  {
    degree := map[];
    for i := 0 to |nodes|
      invariant degree.Keys == Elems(Ids(nodes)[..i])
      invariant forall t :: t in degree ==> degree[t] == 0
    {
      assert Ids(nodes)[..i + 1] == Ids(nodes)[..i] + [nodes[i].nodeId];
      if nodes[i].nodeId !in degree {
        degree := degree[nodes[i].nodeId := 0];
      }
    }
    assert Ids(nodes)[..|nodes|] == Ids(nodes);
    for j := 0 to |edges|
      invariant degree.Keys == Elems(Ids(nodes))
      invariant Counted(edges[..j], degree, {})
    {
      assert edges[..j + 1][..j] == edges[..j];
      var t := edges[j].target;
      if t in degree {
        degree := degree[t := degree[t] + 1];
      }
    }
    assert edges[..|edges|] == edges;
  }

  /** The zero-degree nodes in whatever order the hash map yields them. */
  method InitialQueue(degree: map<nat, nat>) returns (queue: seq<nat>)
    ensures Frontier(degree, queue)
  {
    queue := [];
    var rest := degree.Keys;
    while rest != {}
      invariant rest <= degree.Keys && Distinct(queue)
      invariant forall t :: t in queue <==> t in degree.Keys - rest && degree[t] == 0
      decreases |rest|
    {
      var t :| t in rest;
      if degree[t] == 0 {
        queue := queue + [t];
      }
      rest := rest - {t};
    }
  }

  /** The inner loop for one popped node: every outgoing edge lowers its target's degree, and a
      target that reaches zero joins the queue. */
  method Relax(edges: seq<Edge>, n: nat, degree0: map<nat, nat>, queue0: seq<nat>, ghost order: seq<nat>)
    returns (degree: map<nat, nat>, queue: seq<nat>)
    requires Frontier(degree0, order + [n] + queue0)
    requires Counted(edges, degree0, Elems(order))
    ensures degree.Keys == degree0.Keys
    ensures Frontier(degree, order + [n] + queue)
    ensures Counted(edges, degree, Elems(order) + {n})
  {
    degree, queue := degree0, queue0;
    ghost var done := Elems(order);
    assert n !in done by {
      var listed := order + [n] + queue0;
      assert listed[|order|] == n;
      assert forall i :: 0 <= i < |order| ==> order[i] == listed[i];
    }
    assert edges[..0] == [] && edges[0..] == edges;
    for j := 0 to |edges|
      invariant degree.Keys == degree0.Keys
      invariant Frontier(degree, order + [n] + queue)
      invariant Scanned(edges, j, degree, done, n)
    {
      ScanEdge(edges, j, degree, done, n);
      var e := edges[j];
      if e.source == n && e.target in degree {
        ghost var listed := order + [n] + queue;
        assert e.target !in listed;
        degree := degree[e.target := degree[e.target] - 1];
        if degree[e.target] == 0 {
          queue := queue + [e.target];
          assert order + [n] + queue == listed + [e.target];
        }
      }
    }
    assert edges[..|edges|] == edges && edges[|edges|..] == [];
  }

  /** The loop stopped with an empty queue: what is left out is trapped, unless nothing is. */
  lemma Verdict(ids: seq<nat>, edges: seq<Edge>, degree: map<nat, nat>, order: seq<nat>)
    requires degree.Keys == Elems(ids)
    requires Frontier(degree, order) && Counted(edges, degree, Elems(order)) && Topological(edges, order)
    ensures |order| == |ids| <==> Distinct(ids) && NoStrangers(Elems(ids), edges) && Acyclic(Elems(ids), edges)
  {
    var all := Elems(ids);
    assert Elems(order) <= all;
    ElemsCardinality(order);
    ElemsCardinality(ids);
    SubsetCardinality(Elems(order), all);
    if Elems(order) == all {
      OrderedIsAcyclic(edges, order);
    } else {
      var u := all - Elems(order);
      forall t | t in u ensures exists e :: e in edges && e.target == t && e.source !in Elems(order) {
        RemainingZero(edges, t, Elems(order));
      }
      if NoStrangers(all, edges) {
        forall t | t in u ensures HasPredecessor(edges, u, t) {
          var e :| e in edges && e.target == t && e.source !in Elems(order);
          assert e.source in u;
        }
        assert !(all <= Elems(order));
        var t :| t in all && t !in Elems(order);
        var c := TrappedHasCycle(edges, u, t);
        CycleGrows(u, all, edges, c);
      }
    }
  }

  // ---------- Reference errors ----------

  function Missing(known: set<nat>, id: nat, err: ValidationError): (r: seq<ValidationError>) {
    if id in known then [] else [err]
  }

  function EdgeErrors(known: set<nat>, edges: seq<Edge>): (r: seq<ValidationError>) {
    if edges == [] then []
    else
      var e := edges[|edges| - 1];
      EdgeErrors(known, edges[..|edges| - 1])
      + Missing(known, e.source, InvalidEdgeSource(e.source))
      + Missing(known, e.target, InvalidEdgeTarget(e.target))
  }

  function ConstraintErrors(known: set<nat>, constraints: seq<Constraint>): (r: seq<ValidationError>) {
    if constraints == [] then []
    else
      var c := constraints[|constraints| - 1];
      ConstraintErrors(known, constraints[..|constraints| - 1])
      + Missing(known, c.targetA, InvalidConstraintTarget(c.targetA))
      + match c.targetB
        case None => []
        case Some(b) => Missing(known, b, InvalidConstraintTarget(b))
  }

  function AnimationErrors(known: set<nat>, animations: seq<Animation>): (r: seq<ValidationError>) {
    if animations == [] then []
    else
      var t := animations[|animations| - 1].targetNode;
      AnimationErrors(known, animations[..|animations| - 1])
      + Missing(known, t, InvalidAnimationTarget(t))
  }

  lemma {:induction false} NoEdgeErrors(known: set<nat>, edges: seq<Edge>)
    ensures EdgeErrors(known, edges) == [] <==> forall e :: e in edges ==> e.source in known && e.target in known
  {
    if edges != [] {
      var init, last := edges[..|edges| - 1], edges[|edges| - 1];
      NoEdgeErrors(known, init);
      assert edges == init + [last];
    }
  }

  lemma {:induction false} NoConstraintErrors(known: set<nat>, constraints: seq<Constraint>)
    ensures ConstraintErrors(known, constraints) == []
       <==> forall c :: c in constraints ==> c.targetA in known && (c.targetB.Some? ==> c.targetB.value in known)
  {
    if constraints != [] {
      var init, last := constraints[..|constraints| - 1], constraints[|constraints| - 1];
      NoConstraintErrors(known, init);
      assert constraints == init + [last];
    }
  }

  lemma {:induction false} NoAnimationErrors(known: set<nat>, animations: seq<Animation>)
    ensures AnimationErrors(known, animations) == [] <==> forall a :: a in animations ==> a.targetNode in known
  {
    if animations != [] {
      var init, last := animations[..|animations| - 1], animations[|animations| - 1];
      NoAnimationErrors(known, init);
      assert animations == init + [last];
    }
  }

  /** For a scene numbered by AddNode whose edge references check out, the verdict of
      IsAcyclic says exactly that the graph has no cycle. */
  lemma CleanSceneVerdict(nodes: seq<Node>, edges: seq<Edge>)
    requires forall i :: 0 <= i < |nodes| ==> nodes[i].nodeId == i
    requires EdgeErrors(Elems(Ids(nodes)), edges) == []
    ensures Distinct(Ids(nodes)) && NoStrangers(Elems(Ids(nodes)), edges)
  {
    NoEdgeErrors(Elems(Ids(nodes)), edges);
  }

  method CheckConstraints(known: set<nat>, constraints: seq<Constraint>) returns (errors: seq<ValidationError>)
    ensures errors == ConstraintErrors(known, constraints)
  {
    errors := [];
    for i := 0 to |constraints|
      invariant errors == ConstraintErrors(known, constraints[..i])
    {
      assert constraints[..i + 1][..i] == constraints[..i];
      var c := constraints[i];
      errors := errors + Missing(known, c.targetA, InvalidConstraintTarget(c.targetA));
      if c.targetB.Some? {
        errors := errors + Missing(known, c.targetB.value, InvalidConstraintTarget(c.targetB.value));
      }
    }
    assert constraints[..|constraints|] == constraints;
  }

  method CheckAnimations(known: set<nat>, animations: seq<Animation>) returns (errors: seq<ValidationError>)
    ensures errors == AnimationErrors(known, animations)
  {
    errors := [];
    for i := 0 to |animations|
      invariant errors == AnimationErrors(known, animations[..i])
    {
      assert animations[..i + 1][..i] == animations[..i];
      var t := animations[i].targetNode;
      errors := errors + Missing(known, t, InvalidAnimationTarget(t));
    }
    assert animations[..|animations|] == animations;
  }

  class SceneIR {
    var nodes: seq<Node>
    var edges: seq<Edge>
    var constraints: seq<Constraint>
    var animations: seq<Animation>

    /** Nodes are numbered by position, as AddNode does. */
    ghost predicate Numbered()
      reads this
    {
      forall i :: 0 <= i < |nodes| ==> nodes[i].nodeId == i
    }

    /** Every edge, constraint and animation refers to nodes of the scene. */
    ghost predicate ReferencesKnown()
      reads this
    {
      var known := Elems(Ids(nodes));
      && (forall e :: e in edges ==> e.source in known && e.target in known)
      && (forall c :: c in constraints ==> c.targetA in known && (c.targetB.Some? ==> c.targetB.value in known))
      && (forall a :: a in animations ==> a.targetNode in known)
    }

    constructor ()
      ensures nodes == [] && edges == [] && constraints == [] && animations == []
      ensures Numbered()
    {
      nodes, edges, constraints, animations := [], [], [], [];
    }

    method AddNode(node: Node) returns (id: nat)
      modifies this`nodes
      ensures id == |old(nodes)| && nodes == old(nodes) + [node.(nodeId := id)]
      ensures old(Numbered()) ==> Numbered()
    {
      id := |nodes|;
      nodes := nodes + [node.(nodeId := id)];
    }

    method AddEdge(edge: Edge)
      modifies this`edges
      ensures edges == old(edges) + [edge]
    {
      edges := edges + [edge];
    }

    /** True exactly when ids are distinct, no stranger points into the scene, and the scene
        has no directed cycle; for every scene, however malformed. */
    method IsAcyclic() returns (r: bool)
      ensures r <==> Distinct(Ids(nodes))
                     && NoStrangers(Elems(Ids(nodes)), edges)
                     && Acyclic(Elems(Ids(nodes)), edges)
      ensures Numbered() && EdgeErrors(Elems(Ids(nodes)), edges) == []
              ==> (r <==> Acyclic(Elems(Ids(nodes)), edges))
    {
      var degree := InDegrees(nodes, edges);
      var queue := InitialQueue(degree);
      var visited := 0;
      ghost var order: seq<nat> := [];
      assert order + queue == queue && Elems(order) == {};
      while queue != []
        invariant degree.Keys == Elems(Ids(nodes))
        invariant visited == |order|
        invariant Frontier(degree, order + queue)
        invariant Counted(edges, degree, Elems(order))
        invariant Topological(edges, order)
        decreases degree.Keys - Elems(order)
      {
        var n := queue[0];
        ghost var listed := order + queue;
        assert listed[|order|] == n;
        assert n !in order by {
          assert forall i :: 0 <= i < |order| ==> order[i] == listed[i];
        }
        assert Distinct(order) by {
          assert forall i :: 0 <= i < |order| ==> order[i] == listed[i];
        }
        RemainingZero(edges, n, Elems(order));
        Extend(edges, order, n);
        queue := queue[1..];
        visited := visited + 1;
        assert order + [n] + queue == listed;
        degree, queue := Relax(edges, n, degree, queue, order);
        assert Elems(order + [n]) == Elems(order) + {n};
        order := order + [n];
      }
      assert order + queue == order;
      Verdict(Ids(nodes), edges, degree, order);
      r := visited == |nodes|;
      if Numbered() && EdgeErrors(Elems(Ids(nodes)), edges) == [] {
        CleanSceneVerdict(nodes, edges);
      }
    }

    method ValidateReferences() returns (errors: seq<ValidationError>)
      ensures errors == EdgeErrors(Elems(Ids(nodes)), edges)
                        + ConstraintErrors(Elems(Ids(nodes)), constraints)
                        + AnimationErrors(Elems(Ids(nodes)), animations)
      ensures errors == [] <==> ReferencesKnown()
    {
      var known := Elems(Ids(nodes));
      errors := [];
      for i := 0 to |edges|
        invariant errors == EdgeErrors(known, edges[..i])
      {
        assert edges[..i + 1][..i] == edges[..i];
        var e := edges[i];
        errors := errors + Missing(known, e.source, InvalidEdgeSource(e.source));
        errors := errors + Missing(known, e.target, InvalidEdgeTarget(e.target));
      }
      assert edges[..|edges|] == edges;
      var rest := CheckConstraints(known, constraints);
      var last := CheckAnimations(known, animations);
      errors := errors + rest + last;
      NoEdgeErrors(known, edges);
      NoConstraintErrors(known, constraints);
      NoAnimationErrors(known, animations);
    }
  }
}
