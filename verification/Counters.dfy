/** The counting replicas of crates/storage/src/crdt.rs: VersionVector, GCounter and PNCounter,
    and what every run of increments and merges keeps. */
module Counters {
  import opened Prelude
  import opened MapSum

  type Counts = map<nat, nat>

  function Slot(c: Counts, r: nat): (n: nat) {
    if r in c then c[r] else 0
  }

  function Bump(c: Counts, r: nat): (c': Counts) {
    c[r := Slot(c, r) + 1]
  }

  function Join(a: Counts, b: Counts): (c: Counts) {
    map r | r in a.Keys + b.Keys :: Max(Slot(a, r), Slot(b, r))
  }

  ghost predicate Dominates(a: Counts, b: Counts) {
    forall r :: Slot(a, r) >= Slot(b, r)
  }

  // ---------- Runs ----------

  /** One step of a system in which every replica has its own id. */
  datatype Op = Increment(at: nat) | Absorb(at: nat, from: nat)

  /** The counts held by replica r after a run. */
  function Replica(ops: seq<Op>, r: nat): (c: Counts) {
    if ops == [] then map[]
    else
      var prev, op := ops[..|ops| - 1], ops[|ops| - 1];
      if op.at != r then Replica(prev, r)
      else match op
        case Increment(_) => Bump(Replica(prev, r), r)
        case Absorb(_, from) => Join(Replica(prev, r), Replica(prev, from))
  }

  /** How many increments replica r has made; a fact about the run, not about any state. */
  function Made(ops: seq<Op>, r: nat): (n: nat) {
    if ops == [] then 0
    else Made(ops[..|ops| - 1], r) + if ops[|ops| - 1] == Increment(r) then 1 else 0
  }

  function TotalMade(ops: seq<Op>): (n: nat) {
    if ops == [] then 0
    else TotalMade(ops[..|ops| - 1]) + if ops[|ops| - 1].Increment? then 1 else 0
  }

  /** The n-th increment made by a replica. */
  type Event = (nat, nat)

  /** The increments that have reached replica r, directly or through other replicas. */
  function Received(ops: seq<Op>, r: nat): (s: set<Event>) {
    if ops == [] then {}
    else
      var prev, op := ops[..|ops| - 1], ops[|ops| - 1];
      if op.at != r then Received(prev, r)
      else match op
        case Increment(_) => Received(prev, r) + {(r, Made(prev, r) + 1)}
        case Absorb(_, from) => Received(prev, r) + Received(prev, from)
  }

  function AllEvents(ops: seq<Op>): (s: set<Event>) {
    if ops == [] then {}
    else
      var prev, op := ops[..|ops| - 1], ops[|ops| - 1];
      AllEvents(prev) + if op.Increment? then {(op.at, Made(prev, op.at) + 1)} else {}
  }

  /** The events a counts map stands for. */
  ghost predicate StandsFor(c: Counts, s: set<Event>) {
    forall r: nat, n: nat :: (r, n) in s <==> 1 <= n <= Slot(c, r)
  }

  /** Every replica's counts stand for exactly what it has received, and its own slot is exact. */
  lemma {:induction false} CountsAreKnowledge(ops: seq<Op>, r: nat)
    ensures StandsFor(Replica(ops, r), Received(ops, r))
    ensures Slot(Replica(ops, r), r) == Made(ops, r)
  {
    if ops != [] {
      var prev, op := ops[..|ops| - 1], ops[|ops| - 1];
      CountsAreKnowledge(prev, r);
      if op.at == r && op.Absorb? {
        CountsAreKnowledge(prev, op.from);
        ReceivedWasMade(prev, op.from);
        var theirs := Slot(Replica(prev, op.from), r);
        EventMade(prev, r, theirs);
        assert theirs > 0 ==> (r, theirs) in Received(prev, op.from);
      }
    }
  }

  lemma {:induction false} ReceivedWasMade(ops: seq<Op>, r: nat)
    ensures Received(ops, r) <= AllEvents(ops)
  {
    if ops != [] {
      var prev, op := ops[..|ops| - 1], ops[|ops| - 1];
      ReceivedWasMade(prev, r);
      if op.Absorb? {
        ReceivedWasMade(prev, op.from);
      }
    }
  }

  lemma {:induction false} EventMade(ops: seq<Op>, r: nat, n: nat)
    ensures (r, n) in AllEvents(ops) <==> 1 <= n <= Made(ops, r)
  {
    if ops != [] {
      EventMade(ops[..|ops| - 1], r, n);
    }
  }

  lemma {:induction false} EventCount(ops: seq<Op>)
    ensures |AllEvents(ops)| == TotalMade(ops)
  {
    if ops != [] {
      var prev, op := ops[..|ops| - 1], ops[|ops| - 1];
      EventCount(prev);
      EventMade(prev, op.at, Made(prev, op.at) + 1);
    }
  }

  lemma {:induction false} Ladder(r: nat, m: nat) returns (s: set<Event>)
    ensures |s| == m && forall q: nat, n: nat :: (q, n) in s <==> q == r && 1 <= n <= m
  {
    if m == 0 {
      s := {};
    } else {
      var t := Ladder(r, m - 1);
      s := t + {(r, m)};
    }
  }

  lemma {:induction false} SumIsCardinality(c: Counts, s: set<Event>)
    requires StandsFor(c, s)
    ensures Sum(c) == |s|
    decreases |c|
  {
    if c == map[] {
      forall e | e in s ensures 1 <= e.1 <= Slot(c, e.0) {
        assert e == (e.0, e.1);
      }
      assert s == {};
    } else {
      var r := Pick(c);
      var ladder := Ladder(r, c[r]);
      forall e | e in ladder ensures e in s {
        assert (e.0, e.1) in ladder;
      }
      assert s == (s - ladder) + ladder;
      SumIsCardinality(c - {r}, s - ladder);
    }
  }

  lemma FitsU64(x: nat)
    ensures x % U64_LIMIT == x <==> x < U64_LIMIT
  {
  }

  /** A reading is the number of distinct increments that have reached the replica, exactly while
      that number fits 64 bits: it never counts one twice and never exceeds what was made. */
  lemma ReadingIsReceived(ops: seq<Op>, r: nat)
    ensures Sum(Replica(ops, r)) == |Received(ops, r)| <= TotalMade(ops)
    ensures Received(ops, r) == AllEvents(ops) <==> Sum(Replica(ops, r)) == TotalMade(ops)
    ensures Sum(Replica(ops, r)) % U64_LIMIT == |Received(ops, r)| <==> |Received(ops, r)| < U64_LIMIT
  {
    CountsAreKnowledge(ops, r);
    SumIsCardinality(Replica(ops, r), Received(ops, r));
    ReceivedWasMade(ops, r);
    EventCount(ops);
    SubsetCardinality(Received(ops, r), AllEvents(ops));
    FitsU64(|Received(ops, r)|);
  }

  /** Comparing vectors compares knowledge: one replica dominates another exactly when it has
      received everything the other has. */
  lemma DominanceIsKnowledge(ops: seq<Op>, a: nat, b: nat)
    ensures Dominates(Replica(ops, a), Replica(ops, b)) <==> Received(ops, b) <= Received(ops, a)
  {
    CountsAreKnowledge(ops, a);
    CountsAreKnowledge(ops, b);
    var ca, cb := Replica(ops, a), Replica(ops, b);
    if Dominates(ca, cb) {
      forall e | e in Received(ops, b) ensures e in Received(ops, a) {
        assert (e.0, e.1) in Received(ops, b);
        assert Slot(ca, e.0) >= Slot(cb, e.0);
      }
    }
    if Received(ops, b) <= Received(ops, a) {
      forall r: nat ensures Slot(ca, r) >= Slot(cb, r) {
        var n := Slot(cb, r);
        if n > 0 {
          assert (r, n) in Received(ops, b);
        }
      }
    }
  }

  /** Join is the least upper bound of the dominance order. */
  lemma JoinIsLeastUpperBound(a: Counts, b: Counts, c: Counts)
    ensures Dominates(Join(a, b), a) && Dominates(Join(a, b), b)
    ensures Dominates(c, Join(a, b)) <==> Dominates(c, a) && Dominates(c, b)
  {
    forall r ensures Slot(Join(a, b), r) == Max(Slot(a, r), Slot(b, r)) {
    }
  }

  class GCounter {
    var counts: Counts
    const replicaId: nat

    constructor (id: nat)
      ensures counts == map[] && replicaId == id
    {
      counts, replicaId := map[], id;
    }

    method Increment()
      modifies this
      ensures counts == Bump(old(counts), replicaId)
    {
      if replicaId !in counts {
        counts := counts[replicaId := 0];
      }
      counts := counts[replicaId := counts[replicaId] + 1];
    }

    method Get() returns (total: nat)
      ensures total == Sum(counts) % U64_LIMIT
    {
      var sum := AddUp(counts);
      total := sum % U64_LIMIT;
    }

    method Merge(other: GCounter)
      requires other != this
      modifies this
      ensures counts == Join(old(counts), other.counts)
    {
      counts := MergeInto(counts, other.counts);
    }
  }

  /** The join with only some of the other side's slots. */
  function JoinSome(mine: Counts, theirs: Counts, done: set<nat>): (c: Counts) {
    Join(mine, map r | r in theirs && r in done :: theirs[r])
  }

  lemma JoinNone(mine: Counts, theirs: Counts)
    ensures JoinSome(mine, theirs, {}) == mine
  {
  }

  lemma JoinOne(mine: Counts, theirs: Counts, done: set<nat>, r: nat)
    requires r in theirs && r !in done
    ensures var c := JoinSome(mine, theirs, done);
            JoinSome(mine, theirs, done + {r}) == c[r := Max(Slot(c, r), theirs[r])]
  {
  }

  lemma JoinAll(mine: Counts, theirs: Counts, done: set<nat>)
    requires done == theirs.Keys
    ensures JoinSome(mine, theirs, done) == Join(mine, theirs)
  {
    assert (map r | r in theirs && r in done :: theirs[r]) == theirs;
  }

  /** The merge loop: raise each slot to the other side's value, in any key order. */
  method MergeInto(mine: Counts, theirs: Counts) returns (c: Counts)
    ensures c == Join(mine, theirs)
  {
    c := mine;
    var rest := theirs.Keys;
    ghost var done := {};
    JoinNone(mine, theirs);
    while rest != {}
      invariant rest !! done && rest + done == theirs.Keys
      invariant c == JoinSome(mine, theirs, done)
      decreases rest
    {
      var r :| r in rest;
      JoinOne(mine, theirs, done, r);
      var entry := Slot(c, r);
      c := c[r := Max(entry, theirs[r])];
      rest, done := rest - {r}, done + {r};
    }
    JoinAll(mine, theirs, done);
  }

  class VersionVector {
    var clocks: Counts

    constructor ()
      ensures clocks == map[]
    {
      clocks := map[];
    }

    method Increment(id: nat)
      modifies this
      ensures clocks == Bump(old(clocks), id)
    {
      clocks := clocks[id := Slot(clocks, id) + 1];
    }

    method Merge(other: VersionVector)
      requires other != this
      modifies this
      ensures clocks == Join(old(clocks), other.clocks)
    {
      clocks := MergeInto(clocks, other.clocks);
    }

    /** The scan stops at the first slot where this vector is behind. */
    method DominatesOther(other: VersionVector) returns (r: bool)
      ensures r <==> Dominates(clocks, other.clocks)
    {
      var rest := other.clocks.Keys;
      while rest != {}
        invariant rest <= other.clocks.Keys
        invariant forall q :: q in other.clocks.Keys - rest ==> Slot(clocks, q) >= other.clocks[q]
        decreases |rest|
      {
        var q :| q in rest;
        if Slot(clocks, q) < other.clocks[q] {
          assert Slot(clocks, q) < Slot(other.clocks, q);
          return false;
        }
        rest := rest - {q};
      }
      return true;
    }
  }

  // ---------- PNCounter ----------

  datatype PN = PN(positive: Counts, negative: Counts)

  datatype PNOp = Up(at: nat) | Down(at: nat) | Sync(at: nat, from: nat)

  function PNReplica(ops: seq<PNOp>, r: nat): (s: PN) {
    if ops == [] then PN(map[], map[])
    else
      var prev, op := ops[..|ops| - 1], ops[|ops| - 1];
      var s := PNReplica(prev, r);
      if op.at != r then s
      else match op
        case Up(_) => s.(positive := Bump(s.positive, r))
        case Down(_) => s.(negative := Bump(s.negative, r))
        case Sync(_, from) =>
          var t := PNReplica(prev, from);
          PN(Join(s.positive, t.positive), Join(s.negative, t.negative))
  }

  /** The run as one of the two inner counters sees it. */
  function Project(ops: seq<PNOp>, up: bool): (r: seq<Op>)
    ensures |r| <= |ops|
  {
    if ops == [] then []
    else
      var rest := Project(ops[..|ops| - 1], up);
      match ops[|ops| - 1]
      case Up(r) => if up then rest + [Increment(r)] else rest
      case Down(r) => if up then rest else rest + [Increment(r)]
      case Sync(r, from) => rest + [Absorb(r, from)]
  }

  lemma {:induction false} InnerCountersRun(ops: seq<PNOp>, r: nat)
    ensures PNReplica(ops, r).positive == Replica(Project(ops, true), r)
    ensures PNReplica(ops, r).negative == Replica(Project(ops, false), r)
  {
    if ops != [] {
      var prev, op := ops[..|ops| - 1], ops[|ops| - 1];
      InnerCountersRun(prev, r);
      var p, n := Project(ops, true), Project(ops, false);
      assert p != Project(prev, true) ==> p[..|p| - 1] == Project(prev, true);
      assert n != Project(prev, false) ==> n[..|n| - 1] == Project(prev, false);
      if op.Sync? {
        assert p[..|p| - 1] == Project(prev, true) && n[..|n| - 1] == Project(prev, false);
        InnerCountersRun(prev, op.from);
      }
    }
  }

  /** The value an i64 holds in place of x: equal to it modulo 2^64. Both a cast from u64 and a
      wrapping subtraction end in it. */
  function AsI64(x: int): (r: int)
    ensures -(U64_LIMIT / 2) <= r < U64_LIMIT / 2
  {
    var w := x % U64_LIMIT;
    if w < U64_LIMIT / 2 then w else w - U64_LIMIT
  }

  lemma CastExact(x: int)
    ensures AsI64(x) == x <==> -(U64_LIMIT / 2) <= x < U64_LIMIT / 2
  {
    if 0 <= x < U64_LIMIT / 2 {
      ModUnique(x, U64_LIMIT, 0, x);
    } else if -(U64_LIMIT / 2) <= x < 0 {
      ModUnique(x, U64_LIMIT, -1, x + U64_LIMIT);
    }
  }

  lemma CastCongruent(x: int, k: int)
    ensures AsI64(x + U64_LIMIT * k) == AsI64(x)
  {
    ModUnique(x + U64_LIMIT * k, U64_LIMIT, x / U64_LIMIT + k, x % U64_LIMIT);
  }

  lemma CastOff(x: int) returns (k: int)
    ensures AsI64(x) == x + U64_LIMIT * k
  {
    k := -(x / U64_LIMIT) - if x % U64_LIMIT < U64_LIMIT / 2 then 0 else 1;
  }

  lemma CastModulo(x: int)
    ensures AsI64(x % U64_LIMIT) == AsI64(x)
  {
    CastCongruent(x, -(x / U64_LIMIT));
  }

  /** Casting both totals before subtracting makes no difference to the wrapped result. */
  lemma DifferenceExact(a: int, b: int)
    ensures Difference(a, b) == a - b <==> -(U64_LIMIT / 2) <= a - b < U64_LIMIT / 2
  {
    var k := CastOff(a);
    var l := CastOff(b);
    CastCongruent(a - b, k - l);
    CastExact(a - b);
  }

  function Difference(a: int, b: int): (r: int) {
    AsI64(AsI64(a) - AsI64(b))
  }

  ghost function Reading(s: PN): (r: int) {
    Difference(Sum(s.positive), Sum(s.negative))
  }

  /** In every run a replica reads received increments minus received decrements exactly while that
      balance fits an i64, whatever the casts of the totals do; a replica that received everything
      then reads the exact balance. */
  lemma BalanceIsReceived(ops: seq<PNOp>, r: nat)
    ensures var p, n := Project(ops, true), Project(ops, false);
            var balance := |Received(p, r)| - |Received(n, r)|;
            && (Reading(PNReplica(ops, r)) == balance <==> -(U64_LIMIT / 2) <= balance < U64_LIMIT / 2)
            && (Received(p, r) == AllEvents(p) && Received(n, r) == AllEvents(n)
                ==> balance == TotalMade(p) - TotalMade(n))
  {
    var p, n := Project(ops, true), Project(ops, false);
    InnerCountersRun(ops, r);
    ReadingIsReceived(p, r);
    ReadingIsReceived(n, r);
    DifferenceExact(|Received(p, r)|, |Received(n, r)|);
  }

  class PNCounter {
    const positive: GCounter
    const negative: GCounter

    ghost predicate Valid() {
      positive != negative
    }

    ghost function State(): (s: PN)
      reads positive, negative
    {
      PN(positive.counts, negative.counts)
    }

    constructor (id: nat)
      ensures Valid() && fresh(positive) && fresh(negative)
      ensures State() == PN(map[], map[])
      ensures positive.replicaId == id && negative.replicaId == id
    {
      positive := new GCounter(id);
      negative := new GCounter(id);
    }

    method Increment()
      requires Valid()
      modifies positive
      ensures State() == old(State()).(positive := Bump(old(State()).positive, positive.replicaId))
    {
      positive.Increment();
    }

    method Decrement()
      requires Valid()
      modifies negative
      ensures State() == old(State()).(negative := Bump(old(State()).negative, negative.replicaId))
    {
      negative.Increment();
    }

    method Get() returns (r: int)
      ensures r == Reading(State())
    {
      var p := positive.Get();
      var n := negative.Get();
      CastModulo(Sum(positive.counts));
      CastModulo(Sum(negative.counts));
      r := AsI64(AsI64(p) - AsI64(n));
    }

    method Merge(other: PNCounter)
      requires Valid() && other.Valid()
      requires {positive, negative} !! {other.positive, other.negative}
      modifies positive, negative
      ensures State() == PN(Join(old(State()).positive, other.State().positive),
                            Join(old(State()).negative, other.State().negative))
    {
      positive.Merge(other.positive);
      negative.Merge(other.negative);
    }
  }
}
