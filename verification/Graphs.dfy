/** The replicated graph of crates/storage/src/crdt.rs. Its inner sets are never removed from, so
    they stay tombstone-free and merge is a join; replicas that absorbed the same updates agree. */
module Graphs {
  import opened Prelude
  import opened OrSets

  type EdgeKey = (nat, nat)

  datatype Graph = Graph(nodes: OrSet<nat>, edges: map<nat, OrSet<nat>>,
                         edgeTombstones: Tags<EdgeKey>, clock: nat, replicaId: nat)

  function EmptyGraph(id: nat): (g: Graph) {
    Graph(Empty(id), map[], map[], 0, id)
  }

  /** The edge set of a source node, created on demand with the graph's replica id. */
  function EdgeSet(g: Graph, from: nat): (s: OrSet<nat>) {
    if from in g.edges then g.edges[from] else Empty(g.replicaId)
  }

  function AddNode(g: Graph, n: nat): (g': Graph) {
    g.(nodes := Add(g.nodes, n))
  }

  function AddEdge(g: Graph, from: nat, to: nat): (g': Graph) {
    g.(clock := g.clock + 1, edges := g.edges[from := Add(EdgeSet(g, from), to)])
  }

  function RemoveEdge(g: Graph, from: nat, to: nat): (g': Graph) {
    var id := OpId(g.replicaId, g.clock + 1);
    g.(clock := g.clock + 1,
       edgeTombstones := g.edgeTombstones[(from, to) := Of(g.edgeTombstones, (from, to)) + {id}])
  }

  function MergedEdges(g: Graph, h: Graph): (r: map<nat, OrSet<nat>>) {
    map from | from in g.edges.Keys + h.edges.Keys ::
      if from in h.edges then Merge(EdgeSet(g, from), h.edges[from]) else g.edges[from]
  }

  function MergeGraphs(g: Graph, h: Graph): (r: Graph) {
    Graph(Merge(g.nodes, h.nodes), MergedEdges(g, h),
          UnionTags(g.edgeTombstones, h.edgeTombstones), Max(g.clock, h.clock), g.replicaId)
  }

  ghost predicate IsNeighbor(g: Graph, from: nat, to: nat) {
    Contains(EdgeSet(g, from), to) && (from, to) !in g.edgeTombstones
  }

  // ---------- Merge as a join ----------

  ghost predicate TombFree(g: Graph) {
    && g.nodes.tombstones == map[]
    && forall from :: from in g.edges ==> g.edges[from].tombstones == map[]
  }

  function Blank<T>(s: OrSet<T>): (r: OrSet<T>) {
    s.(replicaId := 0)
  }

  /** A graph with every replica id blanked out. */
  function Content(g: Graph): (c: Graph) {
    Graph(Blank(g.nodes), map from | from in g.edges :: Blank(g.edges[from]), g.edgeTombstones, g.clock, 0)
  }

  /** Without tombstones, merging sets is a plain union of tags. */
  lemma TombFreeMerge<T>(s: OrSet<T>, o: OrSet<T>)
    requires s.tombstones == map[] && o.tombstones == map[]
    ensures Merge(s, o) == OrSet(UnionTags(s.elements, o.elements), map[], Max(s.clock, o.clock), s.replicaId)
  {
    var u, m := UnionTags(s.elements, o.elements), MergedElements(s, o);
    assert u.Keys == m.Keys;
    assert UnionTags(s.tombstones, o.tombstones) == map[];
  }

  lemma UnionEmpty<T>(a: Tags<T>, none: Tags<T>)
    requires none == map[]
    ensures UnionTags(a, none) == a
  {
    assert UnionTags(a, none).Keys == a.Keys;
    forall e | e in a ensures UnionTags(a, none)[e] == a[e] {
      assert a[e] + {} == a[e];
    }
  }

  lemma UnionCommutes<T>(a: Tags<T>, b: Tags<T>)
    ensures UnionTags(a, b) == UnionTags(b, a)
  {
    assert UnionTags(a, b).Keys == UnionTags(b, a).Keys;
    forall e | e in UnionTags(a, b) ensures UnionTags(a, b)[e] == UnionTags(b, a)[e] {
      assert Of(a, e) + Of(b, e) == Of(b, e) + Of(a, e);
    }
  }

  lemma OfUnion<T>(a: Tags<T>, b: Tags<T>, e: T)
    ensures Of(UnionTags(a, b), e) == Of(a, e) + Of(b, e)
  {
    if e !in UnionTags(a, b) {
      assert Of(a, e) + Of(b, e) == {};
    }
  }

  lemma UnionAssociates<T>(a: Tags<T>, b: Tags<T>, c: Tags<T>)
    ensures UnionTags(UnionTags(a, b), c) == UnionTags(a, UnionTags(b, c))
  {
    var l, r := UnionTags(UnionTags(a, b), c), UnionTags(a, UnionTags(b, c));
    UnionKeys(a, b);
    UnionKeys(UnionTags(a, b), c);
    UnionKeys(b, c);
    UnionKeys(a, UnionTags(b, c));
    forall e | e in l ensures Of(l, e) == Of(r, e) {
      TagsAssociate(a, b, c, e);
    }
    TagsEqual(l, r);
  }

  lemma UnionKeys<T>(a: Tags<T>, b: Tags<T>)
    ensures UnionTags(a, b).Keys == a.Keys + b.Keys
  {
  }

  lemma TagsEqual<T>(a: Tags<T>, b: Tags<T>)
    requires a.Keys == b.Keys && forall e :: e in a ==> Of(a, e) == Of(b, e)
    ensures a == b
  {
    forall e | e in a ensures a[e] == b[e] {
      assert Of(a, e) == Of(b, e);
    }
  }

  lemma TagsAssociate<T>(a: Tags<T>, b: Tags<T>, c: Tags<T>, e: T)
    ensures Of(UnionTags(UnionTags(a, b), c), e) == Of(UnionTags(a, UnionTags(b, c)), e)
  {
    OfUnion(UnionTags(a, b), c, e);
    OfUnion(a, b, e);
    OfUnion(a, UnionTags(b, c), e);
    OfUnion(b, c, e);
  }

  lemma UnionIdempotent<T>(a: Tags<T>)
    ensures UnionTags(a, a) == a
  {
    forall e | e in UnionTags(a, a) ensures UnionTags(a, a)[e] == a[e] {
      assert Of(a, e) + Of(a, e) == a[e];
    }
  }

  lemma MergeStaysTombFree(g: Graph, h: Graph)
    requires TombFree(g) && TombFree(h)
    ensures TombFree(MergeGraphs(g, h))
  {
    TombFreeMerge(g.nodes, h.nodes);
    forall from | from in h.edges ensures Merge(EdgeSet(g, from), h.edges[from]).tombstones == map[] {
      TombFreeMerge(EdgeSet(g, from), h.edges[from]);
    }
  }

  lemma SetMergeCommutes<T>(s: OrSet<T>, o: OrSet<T>)
    requires s.tombstones == map[] && o.tombstones == map[]
    ensures Blank(Merge(s, o)) == Blank(Merge(o, s))
  {
    TombFreeMerge(s, o);
    TombFreeMerge(o, s);
    UnionCommutes(s.elements, o.elements);
  }

  lemma EdgeCommutes(g: Graph, h: Graph, from: nat)
    requires TombFree(g) && TombFree(h)
    ensures Blank(EdgeSet(MergeGraphs(g, h), from)) == Blank(EdgeSet(MergeGraphs(h, g), from))
  {
    SetMergeCommutes(EdgeSet(g, from), EdgeSet(h, from));
    AbsentIsEmpty(g, h, from);
    AbsentIsEmpty(h, g, from);
  }

  /** Graphs that agree part by part have the same content. */
  lemma SameParts(g: Graph, h: Graph)
    requires Blank(g.nodes) == Blank(h.nodes) && g.edges.Keys == h.edges.Keys
    requires forall from :: from in g.edges ==> Blank(EdgeSet(g, from)) == Blank(EdgeSet(h, from))
    requires g.edgeTombstones == h.edgeTombstones && g.clock == h.clock
    ensures Content(g) == Content(h)
  {
    assert Content(g).edges == Content(h).edges;
  }

  lemma MergeCommutative(g: Graph, h: Graph)
    requires TombFree(g) && TombFree(h)
    ensures Content(MergeGraphs(g, h)) == Content(MergeGraphs(h, g))
  {
    SetMergeCommutes(g.nodes, h.nodes);
    UnionCommutes(g.edgeTombstones, h.edgeTombstones);
    forall from | from in MergedEdges(g, h)
      ensures Blank(EdgeSet(MergeGraphs(g, h), from)) == Blank(EdgeSet(MergeGraphs(h, g), from))
    {
      EdgeCommutes(g, h, from);
    }
    SameParts(MergeGraphs(g, h), MergeGraphs(h, g));
  }

  /** A source missing on either side behaves as an empty edge set. */
  lemma AbsentIsEmpty(g: Graph, h: Graph, from: nat)
    requires TombFree(g) && TombFree(h)
    ensures Blank(EdgeSet(MergeGraphs(g, h), from)) == Blank(Merge(EdgeSet(g, from), EdgeSet(h, from)))
    ensures EdgeSet(MergeGraphs(g, h), from).tombstones == map[]
  {
    var s, o := EdgeSet(g, from), EdgeSet(h, from);
    TombFreeMerge(s, o);
    if from !in h.edges {
      UnionEmpty(s.elements, o.elements);
    }
  }

  lemma SetMergeAssociates<T>(s: OrSet<T>, o: OrSet<T>, p: OrSet<T>)
    requires s.tombstones == map[] && o.tombstones == map[] && p.tombstones == map[]
    ensures Merge(Merge(s, o), p) == Merge(s, Merge(o, p))
  {
    TombFreeMerge(s, o);
    TombFreeMerge(o, p);
    TombFreeMerge(Merge(s, o), p);
    TombFreeMerge(s, Merge(o, p));
    UnionAssociates(s.elements, o.elements, p.elements);
  }

  lemma BlankMerge<T>(s: OrSet<T>, o: OrSet<T>, s': OrSet<T>, o': OrSet<T>)
    requires Blank(s) == Blank(s') && Blank(o) == Blank(o')
    ensures Blank(Merge(s, o)) == Blank(Merge(s', o'))
  {
    assert s.elements == Blank(s).elements == s'.elements && s.tombstones == Blank(s).tombstones == s'.tombstones;
    assert o.elements == Blank(o).elements == o'.elements && o.tombstones == Blank(o).tombstones == o'.tombstones;
    assert s.clock == Blank(s).clock == s'.clock && o.clock == Blank(o).clock == o'.clock;
  }

  lemma EdgeAssociates(g: Graph, h: Graph, k: Graph, from: nat)
    requires TombFree(g) && TombFree(h) && TombFree(k)
    ensures Blank(EdgeSet(MergeGraphs(MergeGraphs(g, h), k), from))
         == Blank(EdgeSet(MergeGraphs(g, MergeGraphs(h, k)), from))
  {
    MergeStaysTombFree(g, h);
    MergeStaysTombFree(h, k);
    var gh, hk := MergeGraphs(g, h), MergeGraphs(h, k);
    AbsentIsEmpty(gh, k, from);
    AbsentIsEmpty(g, h, from);
    AbsentIsEmpty(g, hk, from);
    AbsentIsEmpty(h, k, from);
    var s, o, p := EdgeSet(g, from), EdgeSet(h, from), EdgeSet(k, from);
    BlankMerge(EdgeSet(gh, from), p, Merge(s, o), p);
    BlankMerge(s, EdgeSet(hk, from), s, Merge(o, p));
    SetMergeAssociates(s, o, p);
  }

  lemma UnionOfThree<T>(a: set<T>, b: set<T>, c: set<T>)
    ensures a + b + c == a + (b + c)
  {
  }

  lemma MergedKeys(g: Graph, h: Graph)
    ensures MergeGraphs(g, h).edges.Keys == g.edges.Keys + h.edges.Keys
  {
  }

  lemma MergeAssociative(g: Graph, h: Graph, k: Graph)
    requires TombFree(g) && TombFree(h) && TombFree(k)
    ensures Content(MergeGraphs(MergeGraphs(g, h), k)) == Content(MergeGraphs(g, MergeGraphs(h, k)))
  {
    SetMergeAssociates(g.nodes, h.nodes, k.nodes);
    UnionAssociates(g.edgeTombstones, h.edgeTombstones, k.edgeTombstones);
    var a, b := MergeGraphs(MergeGraphs(g, h), k), MergeGraphs(g, MergeGraphs(h, k));
    MergedKeys(g, h);
    MergedKeys(h, k);
    MergedKeys(MergeGraphs(g, h), k);
    MergedKeys(g, MergeGraphs(h, k));
    UnionOfThree(g.edges.Keys, h.edges.Keys, k.edges.Keys);
    forall from | from in a.edges ensures Blank(EdgeSet(a, from)) == Blank(EdgeSet(b, from)) {
      EdgeAssociates(g, h, k, from);
    }
    SameParts(a, b);
  }

  lemma MergeIdempotent(g: Graph)
    requires TombFree(g)
    ensures MergeGraphs(g, g) == g
  {
    TombFreeMerge(g.nodes, g.nodes);
    UnionIdempotent(g.nodes.elements);
    UnionIdempotent(g.edgeTombstones);
    forall from | from in g.edges ensures MergedEdges(g, g)[from] == g.edges[from] {
      TombFreeMerge(g.edges[from], g.edges[from]);
      UnionIdempotent(g.edges[from].elements);
    }
  }

  // ---------- Runs ----------

  datatype Op =
    | PutNode(at: nat, node: nat)
    | PutEdge(at: nat, from: nat, to: nat)
    | CutEdge(at: nat, from: nat, to: nat)
    | Absorb(at: nat, source: nat)

  function Advance(g: Graph, op: Op, incoming: Graph): (g': Graph)
    ensures g'.replicaId == g.replicaId
  {
    match op
    case PutNode(_, n) => AddNode(g, n)
    case PutEdge(_, from, to) => AddEdge(g, from, to)
    case CutEdge(_, from, to) => RemoveEdge(g, from, to)
    case Absorb(_, _) => MergeGraphs(g, incoming)
  }

  function Replica(ops: seq<Op>, r: nat): (g: Graph)
    ensures g.replicaId == r
  {
    if ops == [] then EmptyGraph(r)
    else
      var prev, op := ops[..|ops| - 1], ops[|ops| - 1];
      var g := Replica(prev, r);
      if op.at != r then g
      else Advance(g, op, if op.Absorb? then Replica(prev, op.source) else g)
  }

  /** The positions of the run's local updates that have reached replica r, directly or through
      other replicas. */
  function Seen(ops: seq<Op>, r: nat): (s: set<nat>)
    ensures forall i :: i in s ==> i < |ops| && !ops[i].Absorb?
  {
    if ops == [] then {}
    else
      var prev, op := ops[..|ops| - 1], ops[|ops| - 1];
      if op.at != r then Seen(prev, r)
      else if op.Absorb? then Seen(prev, r) + Seen(prev, op.source)
      else Seen(prev, r) + {|prev|}
  }

  /** What an update contributes: a tagged fact, and a tick of the graph clock. */
  datatype Fact =
    | NodeAdded(node: nat, id: OpId)
    | EdgeAdded(from: nat, to: nat, id: OpId)
    | EdgeRemoved(from: nat, to: nat, id: OpId)
    | Ticked(clock: nat)

  function Facts(g: Graph, op: Op): (s: set<Fact>) {
    match op
    case PutNode(_, n) => {NodeAdded(n, NextId(g.nodes))}
    case PutEdge(_, from, to) => {EdgeAdded(from, to, NextId(EdgeSet(g, from))), Ticked(g.clock + 1)}
    case CutEdge(_, from, to) => {EdgeRemoved(from, to, OpId(g.replicaId, g.clock + 1)), Ticked(g.clock + 1)}
    case Absorb(_, _) => {}
  }

  function FactsAt(ops: seq<Op>, i: nat): (s: set<Fact>)
    requires i < |ops|
  {
    Facts(Replica(ops[..i], ops[i].at), ops[i])
  }

  /** Everything replica r has been told. */
  function Log(ops: seq<Op>, r: nat): (s: set<Fact>) {
    set i, f | i in Seen(ops, r) && f in FactsAt(ops, i) :: f
  }

  ghost predicate NoneEmpty<T>(m: Tags<T>) {
    forall e :: e in m ==> m[e] != {}
  }

  ghost predicate NodeClockFits(c: nat, log: set<Fact>) {
    && (forall n, id :: NodeAdded(n, id) in log ==> id.clock <= c)
    && (c > 0 ==> exists n, id :: NodeAdded(n, id) in log && id.clock == c)
  }

  ghost predicate EdgeClockFits(c: nat, from: nat, log: set<Fact>) {
    && (forall to, id :: EdgeAdded(from, to, id) in log ==> id.clock <= c)
    && (c > 0 ==> exists to, id :: EdgeAdded(from, to, id) in log && id.clock == c)
  }

  ghost predicate GraphClockFits(c: nat, log: set<Fact>) {
    && (forall d: nat :: Ticked(d) in log ==> d <= c)
    && (c > 0 ==> Ticked(c) in log)
  }

  ghost predicate NodesReflect(g: Graph, log: set<Fact>) {
    && g.nodes.tombstones == map[] && g.nodes.replicaId == g.replicaId
    && NoneEmpty(g.nodes.elements)
    && (forall n, id :: id in Of(g.nodes.elements, n) <==> NodeAdded(n, id) in log)
    && NodeClockFits(g.nodes.clock, log)
  }

  ghost predicate EdgeReflects(s: OrSet<nat>, from: nat, log: set<Fact>) {
    && s.tombstones == map[]
    && NoneEmpty(s.elements)
    && (forall to, id :: id in Of(s.elements, to) <==> EdgeAdded(from, to, id) in log)
    && EdgeClockFits(s.clock, from, log)
  }

  ghost predicate EdgesReflect(g: Graph, log: set<Fact>) {
    && (forall from :: EdgeReflects(EdgeSet(g, from), from, log))
    && (forall from :: from in g.edges ==> g.edges[from].replicaId == g.replicaId && g.edges[from].elements != map[])
  }

  ghost predicate RemovalsReflect(g: Graph, log: set<Fact>) {
    && NoneEmpty(g.edgeTombstones)
    && (forall from, to, id :: id in Of(g.edgeTombstones, (from, to)) <==> EdgeRemoved(from, to, id) in log)
    && GraphClockFits(g.clock, log)
  }

  /** The graph holds exactly what the log says, nothing else. */
  ghost predicate Reflects(g: Graph, log: set<Fact>) {
    NodesReflect(g, log) && EdgesReflect(g, log) && RemovalsReflect(g, log)
  }

  // ---------- Each step keeps the graph and the log in agreement ----------

  lemma PutNodeReflects(g: Graph, log: set<Fact>, n: nat)
    requires Reflects(g, log)
    ensures Reflects(AddNode(g, n), log + {NodeAdded(n, NextId(g.nodes))})
  {
    var id := NextId(g.nodes);
    var g', log' := AddNode(g, n), log + {NodeAdded(n, id)};
    assert NodesReflect(g', log') by {
      assert id in Of(g'.nodes.elements, n);
      assert NodeAdded(n, id) in log' && id.clock == g'.nodes.clock;
    }
    SameEdges(g, log, g', log');
    assert RemovalsReflect(g', log');
  }

  /** A step that touches no edge set and logs no added edge. */
  lemma SameEdges(g: Graph, log: set<Fact>, g': Graph, log': set<Fact>)
    requires EdgesReflect(g, log) && g'.edges == g.edges && g'.replicaId == g.replicaId
    requires forall from, to, id :: EdgeAdded(from, to, id) in log' <==> EdgeAdded(from, to, id) in log
    ensures EdgesReflect(g', log')
  {
    forall from: nat ensures EdgeReflects(EdgeSet(g', from), from, log') {
      assert EdgeReflects(EdgeSet(g, from), from, log);
    }
  }

  lemma PutEdgeReflects(g: Graph, log: set<Fact>, from: nat, to: nat)
    requires Reflects(g, log)
    ensures Reflects(AddEdge(g, from, to), log + {EdgeAdded(from, to, NextId(EdgeSet(g, from))), Ticked(g.clock + 1)})
  {
    var s := EdgeSet(g, from);
    var id := NextId(s);
    var g', log' := AddEdge(g, from, to), log + {EdgeAdded(from, to, id), Ticked(g.clock + 1)};
    assert NodesReflect(g', log');
    assert RemovalsReflect(g', log');
    AddedEdgesReflect(g, log, from, to, log');
  }

  lemma AddedEdgesReflect(g: Graph, log: set<Fact>, from: nat, to: nat, log': set<Fact>)
    requires EdgesReflect(g, log)
    requires forall f, t, id :: EdgeAdded(f, t, id) in log' <==>
                                EdgeAdded(f, t, id) in log || (f == from && t == to && id == NextId(EdgeSet(g, from)))
    ensures EdgesReflect(AddEdge(g, from, to), log')
  {
    var g' := AddEdge(g, from, to);
    forall f: nat ensures EdgeReflects(EdgeSet(g', f), f, log') {
      assert EdgeReflects(EdgeSet(g, f), f, log);
      if f == from {
        AddedEdgeReflects(EdgeSet(g, from), from, to, log, log');
      }
    }
  }

  lemma AddedEdgeReflects(s: OrSet<nat>, from: nat, to: nat, log: set<Fact>, log': set<Fact>)
    requires EdgeReflects(s, from, log)
    requires forall t, id ::
               EdgeAdded(from, t, id) in log' <==> EdgeAdded(from, t, id) in log || (t == to && id == NextId(s))
    ensures EdgeReflects(Add(s, to), from, log')
  {
    var s' := Add(s, to);
    assert NextId(s) in Of(s'.elements, to);
    assert EdgeAdded(from, to, NextId(s)) in log' && NextId(s).clock == s'.clock;
  }

  lemma CutEdgeReflects(g: Graph, log: set<Fact>, from: nat, to: nat)
    requires Reflects(g, log)
    ensures Reflects(RemoveEdge(g, from, to),
                     log + {EdgeRemoved(from, to, OpId(g.replicaId, g.clock + 1)), Ticked(g.clock + 1)})
  {
    var id := OpId(g.replicaId, g.clock + 1);
    var g', log' := RemoveEdge(g, from, to), log + {EdgeRemoved(from, to, id), Ticked(g.clock + 1)};
    assert NodesReflect(g', log');
    SameEdges(g, log, g', log');
    assert RemovalsReflect(g', log') by {
      assert id in Of(g'.edgeTombstones, (from, to));
    }
  }

  lemma NoneEmptyUnion<T>(a: Tags<T>, b: Tags<T>)
    requires NoneEmpty(a) && NoneEmpty(b)
    ensures NoneEmpty(UnionTags(a, b))
  {
    forall e | e in UnionTags(a, b) ensures UnionTags(a, b)[e] != {} {
      var id: OpId :| id in Of(a, e) || id in Of(b, e);
      assert id in UnionTags(a, b)[e];
    }
  }

  lemma MergeNodesReflect(g: Graph, log: set<Fact>, h: Graph, more: set<Fact>)
    requires NodesReflect(g, log) && NodesReflect(h, more)
    ensures NodesReflect(MergeGraphs(g, h), log + more)
  {
    TombFreeMerge(g.nodes, h.nodes);
    NoneEmptyUnion(g.nodes.elements, h.nodes.elements);
    forall n: nat ensures Of(UnionTags(g.nodes.elements, h.nodes.elements), n)
                  == Of(g.nodes.elements, n) + Of(h.nodes.elements, n) {
      OfUnion(g.nodes.elements, h.nodes.elements, n);
    }
  }

  lemma MergeEdgeReflects(s: OrSet<nat>, o: OrSet<nat>, from: nat, log: set<Fact>, more: set<Fact>)
    requires EdgeReflects(s, from, log) && EdgeReflects(o, from, more)
    ensures EdgeReflects(Merge(s, o), from, log + more)
  {
    TombFreeMerge(s, o);
    NoneEmptyUnion(s.elements, o.elements);
    forall to: nat ensures Of(UnionTags(s.elements, o.elements), to) == Of(s.elements, to) + Of(o.elements, to) {
      OfUnion(s.elements, o.elements, to);
    }
  }

  lemma MergeEdgesReflect(g: Graph, log: set<Fact>, h: Graph, more: set<Fact>)
    requires TombFree(g) && TombFree(h) && EdgesReflect(g, log) && EdgesReflect(h, more)
    ensures EdgesReflect(MergeGraphs(g, h), log + more)
  {
    var m := MergeGraphs(g, h);
    forall from: nat ensures EdgeReflects(EdgeSet(m, from), from, log + more) {
      MergeEdgeReflects(EdgeSet(g, from), EdgeSet(h, from), from, log, more);
      AbsentIsEmpty(g, h, from);
      BlankReflects(EdgeSet(m, from), Merge(EdgeSet(g, from), EdgeSet(h, from)), from, log + more);
    }
    forall from | from in m.edges ensures m.edges[from].replicaId == m.replicaId && m.edges[from].elements != map[] {
      if from in h.edges {
        NonEmptyMerge(EdgeSet(g, from), h.edges[from]);
      }
    }
  }

  lemma NonEmptyMerge(s: OrSet<nat>, o: OrSet<nat>)
    requires s.tombstones == map[] && o.tombstones == map[] && o.elements != map[]
    ensures Merge(s, o).elements != map[]
  {
    TombFreeMerge(s, o);
    var to :| to in o.elements;
    assert to in Merge(s, o).elements;
  }

  lemma BlankReflects(s: OrSet<nat>, o: OrSet<nat>, from: nat, log: set<Fact>)
    requires Blank(s) == Blank(o) && EdgeReflects(o, from, log)
    ensures EdgeReflects(s, from, log)
  {
    assert s == o.(replicaId := s.replicaId);
  }

  lemma MergeRemovalsReflect(g: Graph, log: set<Fact>, h: Graph, more: set<Fact>)
    requires RemovalsReflect(g, log) && RemovalsReflect(h, more)
    ensures RemovalsReflect(MergeGraphs(g, h), log + more)
  {
    NoneEmptyUnion(g.edgeTombstones, h.edgeTombstones);
    forall from: nat, to: nat
      ensures Of(UnionTags(g.edgeTombstones, h.edgeTombstones), (from, to))
           == Of(g.edgeTombstones, (from, to)) + Of(h.edgeTombstones, (from, to))
    {
      OfUnion(g.edgeTombstones, h.edgeTombstones, (from, to));
    }
  }

  lemma ReflectsTombFree(g: Graph, log: set<Fact>)
    requires Reflects(g, log)
    ensures TombFree(g)
  {
    forall from | from in g.edges ensures g.edges[from].tombstones == map[] {
      assert EdgeReflects(EdgeSet(g, from), from, log);
    }
  }

  lemma AbsorbReflects(g: Graph, log: set<Fact>, h: Graph, more: set<Fact>)
    requires Reflects(g, log) && Reflects(h, more)
    ensures Reflects(MergeGraphs(g, h), log + more)
  {
    ReflectsTombFree(g, log);
    ReflectsTombFree(h, more);
    MergeNodesReflect(g, log, h, more);
    MergeEdgesReflect(g, log, h, more);
    MergeRemovalsReflect(g, log, h, more);
  }

  lemma AdvanceReflects(g: Graph, log: set<Fact>, op: Op, h: Graph, more: set<Fact>)
    requires Reflects(g, log) && Reflects(h, more)
    ensures Reflects(Advance(g, op, h), log + if op.Absorb? then more else Facts(g, op))
  {
    match op
    case PutNode(_, n) => PutNodeReflects(g, log, n);
    case PutEdge(_, from, to) => PutEdgeReflects(g, log, from, to);
    case CutEdge(_, from, to) => CutEdgeReflects(g, log, from, to);
    case Absorb(_, source) => AbsorbReflects(g, log, h, more);
  }

  // ---------- The log follows the run ----------

  lemma EarlierFacts(prev: seq<Op>, op: Op, i: nat)
    requires i < |prev|
    ensures FactsAt(prev + [op], i) == FactsAt(prev, i)
  {
    assert (prev + [op])[..i] == prev[..i];
  }

  lemma LogStep(prev: seq<Op>, op: Op, r: nat)
    ensures var ops := prev + [op];
            Log(ops, r) == if op.at != r then Log(prev, r)
                           else if op.Absorb? then Log(prev, r) + Log(prev, op.source)
                           else Log(prev, r) + Facts(Replica(prev, r), op)
  {
    var ops := prev + [op];
    assert ops[..|prev|] == prev;
    forall i | i < |prev| && i in Seen(ops, r) ensures FactsAt(ops, i) == FactsAt(prev, i) {
      EarlierFacts(prev, op, i);
    }
    assert FactsAt(ops, |prev|) == Facts(Replica(prev, op.at), op);
  }

  /** In every run, every replica holds exactly what its log says. */
  lemma {:induction false} ReplicaReflectsLog(ops: seq<Op>, r: nat)
    ensures Reflects(Replica(ops, r), Log(ops, r))
  {
    if ops == [] {
      assert Log(ops, r) == {};
    } else {
      var prev, op := ops[..|ops| - 1], ops[|ops| - 1];
      assert ops == prev + [op];
      LogStep(prev, op, r);
      ReplicaReflectsLog(prev, r);
      if op.at == r {
        var source := if op.Absorb? then op.source else r;
        ReplicaReflectsLog(prev, source);
        AdvanceReflects(Replica(prev, r), Log(prev, r), op, Replica(prev, source), Log(prev, source));
      }
    }
  }

  // ---------- Consequences ----------

  lemma EqualTags<T(!new)>(a: Tags<T>, b: Tags<T>)
    requires NoneEmpty(a) && NoneEmpty(b)
    requires forall e, id :: id in Of(a, e) <==> id in Of(b, e)
    ensures a == b
  {
    forall e | e in a ensures e in b && a[e] == b[e] {
      var id :| id in a[e];
      assert id in Of(a, e);
      assert id in Of(b, e);
      assert forall x :: x in a[e] <==> x in Of(b, e);
    }
    forall e | e in b ensures e in a {
      var id :| id in b[e];
      assert id in Of(b, e);
      assert id in Of(a, e);
    }
  }

  lemma EqualEdgeSets(s: OrSet<nat>, o: OrSet<nat>, from: nat, log: set<Fact>)
    requires EdgeReflects(s, from, log) && EdgeReflects(o, from, log)
    ensures Blank(s) == Blank(o)
  {
    EqualTags(s.elements, o.elements);
  }

  lemma EqualEdgeKeys(g: Graph, h: Graph, log: set<Fact>)
    requires EdgesReflect(g, log) && EdgesReflect(h, log)
    ensures g.edges.Keys <= h.edges.Keys
  {
    forall from | from in g.edges ensures from in h.edges {
      assert EdgeReflects(EdgeSet(g, from), from, log);
      assert EdgeReflects(EdgeSet(h, from), from, log);
      EqualEdgeSets(EdgeSet(g, from), EdgeSet(h, from), from, log);
      assert EdgeSet(h, from).elements == Blank(EdgeSet(h, from)).elements == g.edges[from].elements;
    }
  }

  /** The log determines the state, up to replica ids. */
  lemma LogDeterminesContent(g: Graph, h: Graph, log: set<Fact>)
    requires Reflects(g, log) && Reflects(h, log)
    ensures Content(g) == Content(h)
  {
    EqualTags(g.nodes.elements, h.nodes.elements);
    forall e: EdgeKey, id ensures id in Of(g.edgeTombstones, e) <==> id in Of(h.edgeTombstones, e) {
      var (from, to) := e;
      assert id in Of(g.edgeTombstones, (from, to)) <==> EdgeRemoved(from, to, id) in log;
    }
    EqualTags(g.edgeTombstones, h.edgeTombstones);
    EqualEdgeKeys(g, h, log);
    EqualEdgeKeys(h, g, log);
    forall from | from in g.edges ensures Blank(EdgeSet(g, from)) == Blank(EdgeSet(h, from)) {
      EqualEdgeSets(EdgeSet(g, from), EdgeSet(h, from), from, log);
    }
    SameParts(g, h);
  }

  /** Strong eventual consistency: replicas that have seen the same updates, in whatever order and
      through whatever merges, hold the same state and show the same neighbours. */
  lemma Convergence(ops: seq<Op>, a: nat, b: nat)
    requires Seen(ops, a) == Seen(ops, b)
    ensures Content(Replica(ops, a)) == Content(Replica(ops, b))
    ensures forall from, to :: IsNeighbor(Replica(ops, a), from, to) <==> IsNeighbor(Replica(ops, b), from, to)
  {
    ReplicaReflectsLog(ops, a);
    ReplicaReflectsLog(ops, b);
    assert Log(ops, a) == Log(ops, b);
    LogDeterminesContent(Replica(ops, a), Replica(ops, b), Log(ops, a));
    forall from: nat, to: nat
      ensures IsNeighbor(Replica(ops, a), from, to) <==> IsNeighbor(Replica(ops, b), from, to)
    {
      NeighborsExactly(ops, a, from, to);
      NeighborsExactly(ops, b, from, to);
    }
  }

  ghost predicate SawPut(ops: seq<Op>, r: nat, from: nat, to: nat) {
    exists i :: i in Seen(ops, r) && ops[i].PutEdge? && ops[i].from == from && ops[i].to == to
  }

  ghost predicate SawCut(ops: seq<Op>, r: nat, from: nat, to: nat) {
    exists i :: i in Seen(ops, r) && ops[i].CutEdge? && ops[i].from == from && ops[i].to == to
  }

  /** What a replica shows, stated on the run alone: the edges it has seen put and not seen cut. */
  lemma NeighborsExactly(ops: seq<Op>, r: nat, from: nat, to: nat)
    ensures IsNeighbor(Replica(ops, r), from, to) <==> SawPut(ops, r, from, to) && !SawCut(ops, r, from, to)
  {
    ReplicaReflectsLog(ops, r);
    var g, log := Replica(ops, r), Log(ops, r);
    var s := EdgeSet(g, from);
    assert EdgeReflects(s, from, log);
    assert Live(s, to) == Of(s.elements, to);
    PutsInLog(ops, r, from, to);
    CutsInLog(ops, r, from, to);
    assert Contains(s, to) <==> exists id :: id in Of(s.elements, to);
    if (from, to) in g.edgeTombstones {
      var id :| id in g.edgeTombstones[(from, to)];
      assert id in Of(g.edgeTombstones, (from, to));
    }
  }

  lemma PutsInLog(ops: seq<Op>, r: nat, from: nat, to: nat)
    ensures SawPut(ops, r, from, to) <==> exists id :: EdgeAdded(from, to, id) in Log(ops, r)
  {
    if SawPut(ops, r, from, to) {
      var i :| i in Seen(ops, r) && ops[i].PutEdge? && ops[i].from == from && ops[i].to == to;
      var id := NextId(EdgeSet(Replica(ops[..i], ops[i].at), from));
      assert EdgeAdded(from, to, id) in FactsAt(ops, i);
      assert EdgeAdded(from, to, id) in Log(ops, r);
    }
  }

  lemma CutsInLog(ops: seq<Op>, r: nat, from: nat, to: nat)
    ensures SawCut(ops, r, from, to) <==> exists id :: EdgeRemoved(from, to, id) in Log(ops, r)
  {
    if SawCut(ops, r, from, to) {
      var i :| i in Seen(ops, r) && ops[i].CutEdge? && ops[i].from == from && ops[i].to == to;
      var g := Replica(ops[..i], ops[i].at);
      assert EdgeRemoved(from, to, OpId(g.replicaId, g.clock + 1)) in FactsAt(ops, i);
      assert EdgeRemoved(from, to, OpId(g.replicaId, g.clock + 1)) in Log(ops, r);
    }
  }

  lemma {:induction false} SeenGrows(ops: seq<Op>, more: seq<Op>, r: nat)
    ensures Seen(ops, r) <= Seen(ops + more, r)
  {
    if more == [] {
      assert ops + more == ops;
    } else {
      SeenGrows(ops, more[..|more| - 1], r);
      assert (ops + more)[..|ops + more| - 1] == ops + more[..|more| - 1];
    }
  }

  /** A removed edge stays gone on every replica that has seen the removal, whatever follows,
      including adding the same edge again. */
  lemma RemovedStaysRemoved(ops: seq<Op>, more: seq<Op>, r: nat, from: nat, to: nat)
    requires SawCut(ops, r, from, to)
    ensures !IsNeighbor(Replica(ops + more, r), from, to)
  {
    SeenGrows(ops, more, r);
    var i :| i in Seen(ops, r) && ops[i].CutEdge? && ops[i].from == from && ops[i].to == to;
    assert (ops + more)[i] == ops[i];
    assert SawCut(ops + more, r, from, to);
    NeighborsExactly(ops + more, r, from, to);
  }

  /** The inner sets of every reachable graph are tombstone-free, so the join laws apply. */
  lemma ReachableTombFree(ops: seq<Op>, r: nat)
    ensures TombFree(Replica(ops, r))
  {
    ReplicaReflectsLog(ops, r);
    ReflectsTombFree(Replica(ops, r), Log(ops, r));
  }

  /** A neighbour list as getNeighbors returns it. */
  ghost predicate IsNeighborList(g: Graph, from: nat, list: seq<nat>) {
    Ascending(list) && forall to :: to in list <==> IsNeighbor(g, from, to)
  }

  /** Replicas that have seen the same updates return the very same list. */
  lemma NeighborListsAgree(ops: seq<Op>, a: nat, b: nat, from: nat, la: seq<nat>, lb: seq<nat>)
    requires Seen(ops, a) == Seen(ops, b)
    requires IsNeighborList(Replica(ops, a), from, la) && IsNeighborList(Replica(ops, b), from, lb)
    ensures la == lb
  {
    Convergence(ops, a, b);
    assert Elems(la) == Elems(lb);
    AscendingUnique(la, lb);
  }

  // ---------- The in-place graph ----------

  function EdgesAfter(g: Graph, h: Graph, done: set<nat>): (r: map<nat, OrSet<nat>>) {
    map from | from in g.edges.Keys + h.edges.Keys && (from in g.edges || from in done) ::
      if from in h.edges && from in done then Merge(EdgeSet(g, from), h.edges[from]) else EdgeSet(g, from)
  }

  lemma EdgesStep(g: Graph, h: Graph, done: set<nat>, from: nat)
    requires from in h.edges
    ensures EdgesAfter(g, h, done + {from}) == EdgesAfter(g, h, done)[from := Merge(EdgeSet(g, from), h.edges[from])]
  {
  }

  method MergeEdges(g: Graph, h: Graph) returns (edges: map<nat, OrSet<nat>>)
    ensures edges == MergedEdges(g, h)
  {
    edges := g.edges;
    var rest := h.edges.Keys;
    ghost var done := {};
    assert EdgesAfter(g, h, done) == edges;
    while rest != {}
      invariant rest !! done && rest + done == h.edges.Keys
      invariant edges == EdgesAfter(g, h, done)
      decreases rest
    {
      var from :| from in rest;
      var mine := if from in edges then edges[from] else Empty(g.replicaId);
      assert mine == EdgeSet(g, from);
      var merged := MergeSets(mine, h.edges[from]);
      EdgesStep(g, h, done, from);
      edges := edges[from := merged];
      rest, done := rest - {from}, done + {from};
    }
    assert done == h.edges.Keys;
  }

  class CRDTGraph {
    var nodes: OrSet<nat>
    var edges: map<nat, OrSet<nat>>
    var edgeTombstones: Tags<EdgeKey>
    var clock: nat
    const replicaId: nat

    function State(): (g: Graph)
      reads this
    {
      Graph(nodes, edges, edgeTombstones, clock, replicaId)
    }

    constructor (id: nat)
      ensures State() == EmptyGraph(id)
    {
      nodes, edges, edgeTombstones, clock, replicaId := Empty(id), map[], map[], 0, id;
    }

    method PutNode(n: nat)
      modifies this
      ensures State() == AddNode(old(State()), n)
    {
      nodes := Add(nodes, n);
    }

    method PutEdge(from: nat, to: nat)
      modifies this
      ensures State() == AddEdge(old(State()), from, to)
    {
      clock := clock + 1;
      if from !in edges {
        edges := edges[from := Empty(replicaId)];
      }
      edges := edges[from := Add(edges[from], to)];
    }

    method CutEdge(from: nat, to: nat)
      modifies this
      ensures State() == RemoveEdge(old(State()), from, to)
    {
      clock := clock + 1;
      var id := OpId(replicaId, clock);
      edgeTombstones := edgeTombstones[(from, to) := Of(edgeTombstones, (from, to)) + {id}];
    }

    method GetNeighbors(node: nat) returns (list: seq<nat>)
      ensures IsNeighborList(State(), node, list)
    {
      list := [];
      if node in edges {
        var keys := InOrder(edges[node].elements.Keys);
        for i := 0 to |keys|
          invariant Ascending(list)
          invariant forall x :: x in list ==> forall j :: i <= j < |keys| ==> x < keys[j]
          invariant forall to :: to in list <==> to in keys[..i] && IsNeighbor(State(), node, to)
        {
          assert keys[..i + 1] == keys[..i] + [keys[i]];
          if Contains(edges[node], keys[i]) && (node, keys[i]) !in edgeTombstones {
            AscendingAppend(list, keys[i]);
            list := list + [keys[i]];
          }
        }
        assert keys[..|keys|] == keys;
        forall to | IsNeighbor(State(), node, to) ensures to in keys {
          assert to in edges[node].elements;
          assert to in Elems(keys);
        }
      }
    }

    method MergeFrom(other: CRDTGraph)
      requires other != this
      modifies this
      ensures State() == MergeGraphs(old(State()), other.State())
    {
      var mergedEdges := MergeEdges(State(), other.State());
      nodes := MergeSets(nodes, other.nodes);
      edges := mergedEdges;
      edgeTombstones := MergeTags(edgeTombstones, other.edgeTombstones);
      clock := Max(clock, other.clock);
    }
  }
}
