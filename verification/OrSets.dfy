/** The observed-remove set of crates/storage/src/crdt.rs: tags, tombstones, the merge rule that
    skips locally removed elements, and what every run of replicas keeps. */
module OrSets {
  import opened Prelude

  datatype OpId = OpId(replica: nat, clock: nat)

  /** The derived order: replica id first, then clock. */
  predicate Below(a: OpId, b: OpId) {
    a.replica < b.replica || (a.replica == b.replica && a.clock < b.clock)
  }

  lemma BelowTotal(a: OpId, b: OpId)
    ensures a == b || Below(a, b) || Below(b, a)
  {
    assert a == OpId(a.replica, a.clock) && b == OpId(b.replica, b.clock);
  }

  type Tags<T> = map<T, set<OpId>>

  function Of<T>(m: Tags<T>, e: T): (ids: set<OpId>) {
    if e in m then m[e] else {}
  }

  function UnionTags<T>(a: Tags<T>, b: Tags<T>): (r: Tags<T>) {
    map e | e in a.Keys + b.Keys :: Of(a, e) + Of(b, e)
  }

  datatype OrSet<T> = OrSet(elements: Tags<T>, tombstones: Tags<T>, clock: nat, replicaId: nat)

  function Empty<T>(id: nat): (s: OrSet<T>) {
    OrSet(map[], map[], 0, id)
  }

  function NextId<T>(s: OrSet<T>): (id: OpId) {
    OpId(s.replicaId, s.clock + 1)
  }

  function Add<T>(s: OrSet<T>, e: T): (s': OrSet<T>) {
    s.(elements := s.elements[e := Of(s.elements, e) + {NextId(s)}], clock := s.clock + 1)
  }

  function Live<T>(s: OrSet<T>, e: T): (ids: set<OpId>) {
    Of(s.elements, e) - Of(s.tombstones, e)
  }

  predicate Contains<T>(s: OrSet<T>, e: T) {
    Live(s, e) != {}
  }

  ghost predicate IsLargest(m: OpId, ids: set<OpId>) {
    m in ids && forall x :: x in ids ==> x == m || Below(x, m)
  }

  lemma {:induction false} LargestExists(ids: set<OpId>)
    requires ids != {}
    ensures exists m :: IsLargest(m, ids)
    decreases |ids|
  {
    var x :| x in ids;
    if ids != {x} {
      var rest := ids - {x};
      assert ids == rest + {x};
      LargestExists(rest);
      var m :| IsLargest(m, rest);
      BelowTotal(m, x);
      assert IsLargest(if Below(m, x) then x else m, ids);
    } else {
      assert IsLargest(x, ids);
    }
  }

  ghost function Largest(ids: set<OpId>): (m: OpId)
    requires ids != {}
    ensures IsLargest(m, ids)
  {
    LargestExists(ids);
    var m :| IsLargest(m, ids);
    m
  }

  /** Removal entombs only the largest tag, and reports whether there was one. */
  ghost function Remove<T>(s: OrSet<T>, e: T): (s': OrSet<T>) {
    var ids := Of(s.elements, e);
    if ids == {} then s
    else s.(tombstones := s.tombstones[e := Of(s.tombstones, e) + {Largest(ids)}])
  }

  /** Incoming tags of an element are dropped once the element has a local tombstone. */
  function MergedElements<T>(s: OrSet<T>, o: OrSet<T>): (r: Tags<T>) {
    map e | e in s.elements.Keys + o.elements.Keys && (e in s.elements || Of(s.tombstones, e) == {}) ::
      if Of(s.tombstones, e) == {} then Of(s.elements, e) + Of(o.elements, e) else Of(s.elements, e)
  }

  function Merge<T>(s: OrSet<T>, o: OrSet<T>): (r: OrSet<T>) {
    OrSet(MergedElements(s, o), UnionTags(s.tombstones, o.tombstones), Max(s.clock, o.clock), s.replicaId)
  }

  // ---------- Where the set does and does not behave as its name promises ----------

  /** Removing hides the element exactly when no other live tag is left. */
  lemma RemoveHides<T>(s: OrSet<T>, e: T)
    requires Of(s.elements, e) != {}
    ensures !Contains(Remove(s, e), e) <==> Live(s, e) <= {Largest(Of(s.elements, e))}
  {
    assert Live(Remove(s, e), e) == Live(s, e) - {Largest(Of(s.elements, e))};
  }

  /** Which tag a removal entombs: one of the element's tags, from the highest replica id among them
      whatever the clocks, and of that replica's the one with the highest clock. */
  lemma RemoveEntombs<T>(s: OrSet<T>, e: T)
    requires Of(s.elements, e) != {}
    ensures var m := Largest(Of(s.elements, e));
            && Remove(s, e) == s.(tombstones := s.tombstones[e := Of(s.tombstones, e) + {m}])
            && m in Of(s.elements, e)
            && (forall t :: t in Of(s.elements, e) ==> t.replica <= m.replica)
            && (forall t :: t in Of(s.elements, e) && t.replica == m.replica ==> t.clock <= m.clock)
  {
  }

  /** Replica 2's first tag is entombed before replica 1's fifth. */
  lemma HigherReplicaFirst()
    ensures Largest({OpId(1, 5), OpId(2, 1)}) == OpId(2, 1)
  {
    assert OpId(1, 5) in {OpId(1, 5), OpId(2, 1)};
  }

  /** An element added twice survives one removal. */
  lemma TwiceAddedSurvives<T>(e: T, id: nat)
    ensures Contains(Remove(Add(Add(Empty(id), e), e), e), e)
  {
    var s := Add(Add(Empty<T>(id), e), e);
    assert Of(s.elements, e) == {OpId(id, 1), OpId(id, 2)};
    assert IsLargest(OpId(id, 2), Of(s.elements, e));
    assert OpId(id, 1) in Live(Remove(s, e), e);
  }

  /** The two merge orders agree on every element's tags. */
  ghost predicate MergeAgrees<T(!new)>(a: OrSet<T>, b: OrSet<T>) {
    forall e :: Of(MergedElements(a, b), e) == Of(MergedElements(b, a), e)
  }

  /** Merging commutes exactly when no side has entombed an element while lacking one of the
      other side's tags for it. */
  lemma MergeCommutesWhen<T(!new)>(a: OrSet<T>, b: OrSet<T>)
    ensures MergeAgrees(a, b) <==>
            forall e :: && (Of(a.tombstones, e) != {} ==> Of(b.elements, e) <= Of(a.elements, e))
                        && (Of(b.tombstones, e) != {} ==> Of(a.elements, e) <= Of(b.elements, e))
  {
    forall e: T ensures
        Of(MergedElements(a, b), e)
          == (if Of(a.tombstones, e) == {} then Of(a.elements, e) + Of(b.elements, e) else Of(a.elements, e))
        && Of(MergedElements(b, a), e)
          == (if Of(b.tombstones, e) == {} then Of(b.elements, e) + Of(a.elements, e) else Of(b.elements, e))
    {
    }
  }

  /** The two merge orders show the same tags of every element. */
  ghost predicate MergeShowsSame<T(!new)>(a: OrSet<T>, b: OrSet<T>) {
    forall e :: Live(Merge(a, b), e) == Live(Merge(b, a), e)
  }

  /** What merging shows commutes exactly when no side has entombed an element while lacking a tag
      that the other side shows and it has not entombed itself. */
  lemma MergeShowsSameWhen<T(!new)>(a: OrSet<T>, b: OrSet<T>)
    ensures MergeShowsSame(a, b) <==>
            forall e :: && (Of(a.tombstones, e) != {} ==> Live(b, e) - Of(a.tombstones, e) <= Of(a.elements, e))
                        && (Of(b.tombstones, e) != {} ==> Live(a, e) - Of(b.tombstones, e) <= Of(b.elements, e))
  {
    forall e: T
      ensures Live(Merge(a, b), e) == Live(Merge(b, a), e) <==>
              && (Of(a.tombstones, e) != {} ==> Live(b, e) - Of(a.tombstones, e) <= Of(a.elements, e))
              && (Of(b.tombstones, e) != {} ==> Live(a, e) - Of(b.tombstones, e) <= Of(b.elements, e))
    {
      MergedTags(a, b, e);
      MergedTags(b, a, e);
      SameShown(Of(a.elements, e), Of(a.tombstones, e), Of(b.elements, e), Of(b.tombstones, e));
    }
  }

  lemma MergedTags<T>(s: OrSet<T>, o: OrSet<T>, e: T)
    ensures Of(Merge(s, o).elements, e)
         == Of(s.elements, e) + if Of(s.tombstones, e) == {} then Of(o.elements, e) else {}
    ensures Of(Merge(s, o).tombstones, e) == Of(s.tombstones, e) + Of(o.tombstones, e)
  {
  }

  lemma SameShown(x: set<OpId>, b: set<OpId>, y: set<OpId>, c: set<OpId>)
    ensures (x + if b == {} then y else {}) - (b + c) == (y + if c == {} then x else {}) - (c + b)
       <==> (b != {} ==> (y - c) - b <= x) && (c != {} ==> (x - b) - c <= y)
  {
    var l, r := (x + if b == {} then y else {}) - (b + c), (y + if c == {} then x else {}) - (c + b);
    if l == r {
      forall t | b != {} && t in (y - c) - b ensures t in x {
        assert t in r;
      }
      forall t | c != {} && t in (x - b) - c ensures t in y {
        assert t in l;
      }
    } else if (b != {} ==> (y - c) - b <= x) && (c != {} ==> (x - b) - c <= y) {
      forall t ensures t in l <==> t in r {
        assert b != {} && t in (y - c) - b ==> t in x;
        assert c != {} && t in (x - b) - c ==> t in y;
      }
    }
  }

  // ---------- Runs ----------

  datatype Op<T> = Insert(at: nat, elem: T) | Delete(at: nat, elem: T) | Absorb(at: nat, from: nat)

  /** A step taken by replica s; incoming is the other replica of an Absorb. */
  ghost function Advance<T>(s: OrSet<T>, op: Op<T>, incoming: OrSet<T>): (s': OrSet<T>)
    ensures s'.replicaId == s.replicaId && s'.clock >= s.clock
  {
    match op
    case Insert(_, e) => Add(s, e)
    case Delete(_, e) => Remove(s, e)
    case Absorb(_, _) => Merge(s, incoming)
  }

  ghost function Replica<T>(ops: seq<Op<T>>, r: nat): (s: OrSet<T>)
    ensures s.replicaId == r
  {
    if ops == [] then Empty(r)
    else
      var prev, op := ops[..|ops| - 1], ops[|ops| - 1];
      var s := Replica(prev, r);
      if op.at != r then s
      else Advance(s, op, if op.Absorb? then Replica(prev, op.from) else s)
  }

  ghost predicate Holds<T>(s: OrSet<T>, e: T, id: OpId) {
    id in Of(s.elements, e) || id in Of(s.tombstones, e)
  }

  /** No replica holds a tag or tombstone above its own clock, nor above the clock of the replica
      that made it. */
  lemma {:induction false} TagsBelowClocks<T>(ops: seq<Op<T>>, r: nat, e: T, id: OpId)
    requires Holds(Replica(ops, r), e, id)
    ensures 1 <= id.clock <= Replica(ops, r).clock
    ensures id.clock <= Replica(ops, id.replica).clock
  {
    if ops != [] {
      var prev, op := ops[..|ops| - 1], ops[|ops| - 1];
      var s := Replica(prev, r);
      ClockGrows(prev, op, id.replica);
      if op.at != r {
        TagsBelowClocks(prev, r, e, id);
      } else if Holds(s, e, id) {
        ClockGrows(prev, op, r);
        TagsBelowClocks(prev, r, e, id);
      } else if op.Absorb? {
        assert Holds(Replica(prev, op.from), e, id);
        TagsBelowClocks(prev, op.from, e, id);
      } else {
        assert op.Insert? && id == NextId(s);
      }
    }
  }

  lemma ClockGrows<T>(prev: seq<Op<T>>, op: Op<T>, r: nat)
    ensures Replica(prev + [op], r).clock >= Replica(prev, r).clock
  {
    assert (prev + [op])[..|prev|] == prev;
  }

  /** In every reachable state the tag of the next add exists nowhere in the system. */
  lemma NextTagFresh<T>(ops: seq<Op<T>>, r: nat, q: nat, e: T)
    ensures !Holds(Replica(ops, q), e, NextId(Replica(ops, r)))
  {
    if Holds(Replica(ops, q), e, NextId(Replica(ops, r))) {
      TagsBelowClocks(ops, q, e, NextId(Replica(ops, r)));
    }
  }

  /** Adding always makes the element present, whatever removals and merges came before. */
  lemma AddAlwaysVisible<T>(ops: seq<Op<T>>, r: nat, e: T)
    ensures Contains(Replica(ops + [Insert(r, e)], r), e)
  {
    assert (ops + [Insert(r, e)])[..|ops|] == ops;
    var s := Replica(ops, r);
    NextTagFresh(ops, r, r, e);
    assert NextId(s) in Live(Add(s, e), e);
  }

  /** The tag made by the add at position i of a run. */
  ghost function TagAt<T>(ops: seq<Op<T>>, i: nat): (id: OpId)
    requires i < |ops| && ops[i].Insert?
  {
    NextId(Replica(ops[..i], ops[i].at))
  }

  lemma {:induction false} ClockMonotone<T>(ops: seq<Op<T>>, r: nat, i: nat, j: nat)
    requires i <= j <= |ops|
    ensures Replica(ops[..i], r).clock <= Replica(ops[..j], r).clock
    decreases j - i
  {
    if i < j {
      ClockMonotone(ops, r, i, j - 1);
      ClockGrows(ops[..j - 1], ops[j - 1], r);
      assert ops[..j - 1] + [ops[j - 1]] == ops[..j];
    }
  }

  /** No two adds of a run ever make the same tag. */
  lemma TagsUnique<T>(ops: seq<Op<T>>, i: nat, j: nat)
    requires i < j < |ops| && ops[i].Insert? && ops[j].Insert?
    ensures TagAt(ops, i) != TagAt(ops, j)
  {
    var r := ops[i].at;
    if ops[j].at == r {
      assert ops[..i + 1][..i] == ops[..i];
      assert Replica(ops[..i + 1], r).clock == Replica(ops[..i], r).clock + 1;
      ClockMonotone(ops, r, i + 1, j);
    }
  }

  /** Replicas that have both absorbed everything can still disagree: after a removal at one side
      and a concurrent add at the other, only the adding side shows the element. */
  lemma ReplicasDiverge<T>(e: T) returns (ops: seq<Op<T>>)
    ensures ops == [Insert(0, e), Absorb(1, 0), Delete(0, e), Insert(1, e), Absorb(0, 1), Absorb(1, 0)]
    ensures !Contains(Replica(ops, 0), e) && Contains(Replica(ops, 1), e)
  {
    var first, second := OpId(0, 1), OpId(1, 2);
    var o1 := [Insert(0, e)];
    Unfold([], Insert(0, e), 0);
    Unfold([], Insert(0, e), 1);
    assert [] + [Insert(0, e)] == o1;
    assert Of(map[], e) + {first} == {first};
    assert Replica(o1, 0) == OrSet(map[e := {first}], map[], 1, 0);
    var o2 := o1 + [Absorb(1, 0)];
    Unfold(o1, Absorb(1, 0), 0);
    Unfold(o1, Absorb(1, 0), 1);
    assert Replica(o2, 1) == OrSet(map[e := {first}], map[], 1, 1);
    var o3 := o2 + [Delete(0, e)];
    Unfold(o2, Delete(0, e), 0);
    Unfold(o2, Delete(0, e), 1);
    assert Replica(o3, 0) == OrSet(map[e := {first}], map[e := {first}], 1, 0);
    var o4 := o3 + [Insert(1, e)];
    Unfold(o3, Insert(1, e), 0);
    Unfold(o3, Insert(1, e), 1);
    assert {first} + {second} == {first, second};
    assert Replica(o4, 1) == OrSet(map[e := {first, second}], map[], 2, 1);
    var o5 := o4 + [Absorb(0, 1)];
    Unfold(o4, Absorb(0, 1), 0);
    Unfold(o4, Absorb(0, 1), 1);
    assert {first} + Of(map[], e) == {first};
    assert Replica(o5, 0) == OrSet(map[e := {first}], map[e := {first}], 2, 0);
    ops := o5 + [Absorb(1, 0)];
    Unfold(o5, Absorb(1, 0), 0);
    Unfold(o5, Absorb(1, 0), 1);
    assert second in Live(Replica(ops, 1), e);
  }

  /** One step of a run, seen from replica r. */
  lemma Unfold<T>(prev: seq<Op<T>>, op: Op<T>, r: nat)
    ensures op.at != r ==> Replica(prev + [op], r) == Replica(prev, r)
    ensures op.at == r && op.Absorb?
            ==> Replica(prev + [op], r) == Merge(Replica(prev, r), Replica(prev, op.from))
    ensures op.at == r && !op.Absorb?
            ==> Replica(prev + [op], r) == Advance(Replica(prev, r), op, Replica(prev, r))
  {
    assert (prev + [op])[..|prev|] == prev;
  }

  // ---------- The in-place set ----------

  /** The largest tag, found by scanning the set. */
  method ScanLargest(ids: set<OpId>) returns (m: OpId)
    requires ids != {}
    ensures m == Largest(ids)
  {
    m :| m in ids;
    var rest := ids - {m};
    while rest != {}
      invariant rest <= ids && m in ids && m !in rest
      invariant forall x :: x in ids && x !in rest ==> x == m || Below(x, m)
      decreases rest
    {
      var x :| x in rest;
      BelowTotal(m, x);
      if Below(m, x) {
        m := x;
      }
      rest := rest - {x};
    }
    assert IsLargest(m, ids);
    BelowTotal(m, Largest(ids));
  }

  function Only<T>(m: Tags<T>, keys: set<T>): (r: Tags<T>) {
    map e | e in m && e in keys :: m[e]
  }

  lemma UnionStart<T>(mine: Tags<T>, theirs: Tags<T>, none: set<T>)
    requires none == {}
    ensures UnionTags(mine, Only(theirs, none)) == mine
  {
    var u := UnionTags(mine, Only(theirs, none));
    assert u.Keys == mine.Keys;
    forall e | e in u ensures u[e] == mine[e] {
      assert Of(mine, e) + {} == mine[e];
    }
  }

  lemma UnionStep<T>(mine: Tags<T>, theirs: Tags<T>, done: set<T>, e: T)
    requires e in theirs && e !in done
    ensures var r := UnionTags(mine, Only(theirs, done));
            UnionTags(mine, Only(theirs, done + {e})) == r[e := Of(r, e) + theirs[e]]
  {
    var r, u := UnionTags(mine, Only(theirs, done)), UnionTags(mine, Only(theirs, done + {e}));
    var r' := r[e := Of(r, e) + theirs[e]];
    assert Of(r, e) == Of(mine, e) by {
      assert Of(mine, e) + {} == Of(mine, e);
    }
    assert u.Keys == r'.Keys;
    forall x | x in u ensures u[x] == r'[x] {
      assert x != e ==> Of(Only(theirs, done + {e}), x) == Of(Only(theirs, done), x);
    }
  }

  /** The union loop used for tombstones, over the incoming keys in any order. */
  method MergeTags<T(==)>(mine: Tags<T>, theirs: Tags<T>) returns (r: Tags<T>)
    ensures r == UnionTags(mine, theirs)
  {
    r := mine;
    var rest := theirs.Keys;
    ghost var done := {};
    UnionStart(mine, theirs, done);
    while rest != {}
      invariant rest !! done && rest + done == theirs.Keys
      invariant r == UnionTags(mine, Only(theirs, done))
      decreases rest
    {
      var e :| e in rest;
      UnionStep(mine, theirs, done, e);
      r := r[e := Of(r, e) + theirs[e]];
      rest, done := rest - {e}, done + {e};
    }
    assert Only(theirs, done) == theirs;
  }

  /** What the first loop of merge has built after the incoming keys in done. */
  function Accepted<T>(s: OrSet<T>, o: OrSet<T>, done: set<T>): (r: Tags<T>) {
    UnionTags(s.elements, Only(o.elements, set e | e in done && Of(s.tombstones, e) == {}))
  }

  lemma AcceptStep<T>(s: OrSet<T>, o: OrSet<T>, done: set<T>, e: T)
    requires e in o.elements && e !in done
    ensures var r := Accepted(s, o, done);
            Accepted(s, o, done + {e})
            == if Of(s.tombstones, e) == {} then r[e := Of(r, e) + o.elements[e]] else r
  {
    var open := set x | x in done && Of(s.tombstones, x) == {};
    var open' := set x | x in done + {e} && Of(s.tombstones, x) == {};
    if Of(s.tombstones, e) == {} {
      assert open' == open + {e};
      UnionStep(s.elements, o.elements, open, e);
    } else {
      assert open' == open;
    }
  }

  lemma AcceptedAll<T>(s: OrSet<T>, o: OrSet<T>)
    ensures Accepted(s, o, o.elements.Keys) == MergedElements(s, o)
  {
    var u, m := Accepted(s, o, o.elements.Keys), MergedElements(s, o);
    assert u.Keys == m.Keys;
    forall e | e in u ensures u[e] == m[e] {
      if Of(s.tombstones, e) != {} {
        assert Of(s.elements, e) + {} == Of(s.elements, e);
      } else {
        assert Of(Only(o.elements, set x | x in o.elements.Keys && Of(s.tombstones, x) == {}), e) == Of(o.elements, e);
      }
    }
  }

  function NotIn(ids: set<OpId>, gone: set<OpId>): (r: set<OpId>)
    ensures gone == {} ==> r == ids
  {
    set id | id in ids && id !in gone
  }

  lemma AcceptedNone<T>(s: OrSet<T>, o: OrSet<T>)
    ensures Accepted(s, o, {}) == s.elements
  {
    UnionStart(s.elements, o.elements, set e | e in {} && Of(s.tombstones, e) == {});
  }

  /** The first loop of merge: an element with a local tombstone is skipped, and of the others
      every incoming tag that is not entombed is inserted. */
  method MergeElements<T(==)>(s: OrSet<T>, o: OrSet<T>) returns (elements: Tags<T>)
    ensures elements == MergedElements(s, o)
  {
    elements := s.elements;
    var rest := o.elements.Keys;
    ghost var done := {};
    AcceptedNone(s, o);
    while rest != {}
      invariant rest !! done && rest + done == o.elements.Keys
      invariant elements == Accepted(s, o, done)
      decreases rest
    {
      var e :| e in rest;
      AcceptStep(s, o, done, e);
      if Of(s.tombstones, e) == {} {
        var incoming := NotIn(o.elements[e], Of(s.tombstones, e));
        elements := elements[e := Of(elements, e) + incoming];
      }
      rest, done := rest - {e}, done + {e};
    }
    assert done == o.elements.Keys;
    AcceptedAll(s, o);
  }

  method MergeSets<T(==)>(s: OrSet<T>, o: OrSet<T>) returns (r: OrSet<T>)
    ensures r == Merge(s, o)
  {
    var elements := MergeElements(s, o);
    var tombstones := MergeTags(s.tombstones, o.tombstones);
    r := OrSet(elements, tombstones, Max(s.clock, o.clock), s.replicaId);
  }

  class ORSet<T(==)> {
    var elements: Tags<T>
    var tombstones: Tags<T>
    var clock: nat
    const replicaId: nat

    function State(): (s: OrSet<T>)
      reads this
    {
      OrSet(elements, tombstones, clock, replicaId)
    }

    constructor (id: nat)
      ensures State() == Empty(id)
    {
      elements, tombstones, clock, replicaId := map[], map[], 0, id;
    }

    method AddElement(e: T)
      modifies this
      ensures State() == Add(old(State()), e)
    {
      clock := clock + 1;
      var id := OpId(replicaId, clock);
      elements := elements[e := Of(elements, e) + {id}];
    }

    method RemoveElement(e: T) returns (removed: bool)
      modifies this
      ensures State() == Remove(old(State()), e)
      ensures removed <==> Of(old(elements), e) != {}
    {
      removed := Of(elements, e) != {};
      if removed {
        var largest := ScanLargest(elements[e]);
        tombstones := tombstones[e := Of(tombstones, e) + {largest}];
      }
    }

    method ContainsElement(e: T) returns (r: bool)
      ensures r <==> Contains(State(), e)
    {
      if e !in elements {
        r := false;
      } else if e in tombstones {
        r := exists id :: id in elements[e] && id !in tombstones[e];
        assert Live(State(), e) == elements[e] - tombstones[e];
        assert r ==> Live(State(), e) != {} by {
          if r {
            var id :| id in elements[e] && id !in tombstones[e];
            assert id in Live(State(), e);
          }
        }
        assert Live(State(), e) != {} ==> r by {
          if Live(State(), e) != {} {
            var id :| id in Live(State(), e);
            assert id in elements[e] && id !in tombstones[e];
          }
        }
      } else {
        r := elements[e] != {};
        assert Live(State(), e) == elements[e];
      }
    }

    method MergeFrom(other: ORSet<T>)
      requires other != this
      modifies this
      ensures State() == Merge(old(State()), other.State())
    {
      var merged := MergeSets(State(), other.State());
      elements, tombstones, clock := merged.elements, merged.tombstones, merged.clock;
    }
  }
}
