/** Operator routing of crates/intelligence/src/routing.rs: eligibility, scoring, the tiebreak hash and
    top-k selection by a stable descending sort. Loads and success rates are real numbers. */
module Routing {
  import opened Prelude
  import opened Codec

  type Id = seq<Byte>

  datatype QoSClass = LowLatency | Balanced | HighAssurance | DeterministicCritical
  datatype Mode = Deterministic | Adaptive
  datatype Operator = Operator(id: Id, isActive: bool, supportsKernel: bool, stake: nat, reputation: nat,
                               region: string, budget: nat, price: nat, latency: nat, maxConcurrent: nat, vramGb: nat)
  datatype Metrics = Metrics(load: real, latency: nat, successRate: real, fraudCount: nat, uptime: nat)
  datatype Constraint = Constraint(region: Option<string>, minReputation: Option<nat>, minStake: Option<nat>,
                                   maxLoad: Option<real>)
  datatype Request = Request(jobId: Id, budget: nat, constraints: seq<Constraint>, redundancy: nat, qos: QoSClass,
                             mode: Mode, blockHeight: nat)
  datatype Weights = Weights(similarity: nat, reputation: nat, latency: nat, price: nat, load: nat)
  datatype Scored = Scored(id: Id, score: nat)
  datatype Decision = Decision(selected: seq<Scored>, k: nat, seed: Option<nat>)
  datatype Thalamus = Thalamus(metrics: map<Id, Metrics>, region: string)

  // ---------- Eligibility ----------

  /** The first constraint that sets a field decides it. */
  function First<T>(cs: seq<Constraint>, field: Constraint -> Option<T>): (r: Option<T>) {
    if cs == [] then None else if field(cs[0]).Some? then field(cs[0]) else First(cs[1..], field)
  }

  predicate Eligible(th: Thalamus, op: Operator, req: Request) {
    && op.isActive && op.supportsKernel
    && (match First(req.constraints, (c: Constraint) => c.minStake)
        case None => true case Some(m) => op.stake >= m)
    && (match First(req.constraints, (c: Constraint) => c.region)
        case None => true case Some(r) => op.region == r)
    && (match First(req.constraints, (c: Constraint) => c.maxLoad)
        case None => true case Some(l) => op.id in th.metrics ==> th.metrics[op.id].load <= l)
    && (match First(req.constraints, (c: Constraint) => c.minReputation)
        case None => true case Some(m) => op.reputation >= m)
    && op.budget >= req.budget && op.maxConcurrent > 0
  }

  /** The deciding constraint is the earliest one that sets the field. */
  lemma {:induction false} FirstIsEarliest<T>(cs: seq<Constraint>, field: Constraint -> Option<T>)
    ensures First(cs, field).None? ==> forall i :: 0 <= i < |cs| ==> field(cs[i]).None?
    ensures First(cs, field).Some? ==>
              exists i :: 0 <= i < |cs| && field(cs[i]) == First(cs, field)
                        && forall j :: 0 <= j < i ==> field(cs[j]).None?
  {
    if cs != [] && field(cs[0]).None? {
      FirstIsEarliest(cs[1..], field);
      if First(cs, field).Some? {
        var i :| 0 <= i < |cs[1..]| && field(cs[1..][i]) == First(cs[1..], field)
                 && forall j :: 0 <= j < i ==> field(cs[1..][j]).None?;
        assert field(cs[i + 1]) == First(cs, field);
        assert forall j :: 0 < j < i + 1 ==> cs[j] == cs[1..][j - 1];
      }
    }
  }

  /** The source's chain of early exits. */
  method IsEligible(th: Thalamus, op: Operator, req: Request) returns (r: bool)
    ensures r <==> Eligible(th, op, req)
  {
    if !op.isActive { return false; }
    if !op.supportsKernel { return false; }
    var minStake := First(req.constraints, (c: Constraint) => c.minStake);
    if minStake.Some? && op.stake < minStake.value { return false; }
    var region := First(req.constraints, (c: Constraint) => c.region);
    if region.Some? && op.region != region.value { return false; }
    var maxLoad := First(req.constraints, (c: Constraint) => c.maxLoad);
    if maxLoad.Some? && op.id in th.metrics && th.metrics[op.id].load > maxLoad.value { return false; }
    var minRep := First(req.constraints, (c: Constraint) => c.minReputation);
    if minRep.Some? && op.reputation < minRep.value { return false; }
    if op.budget < req.budget { return false; }
    if op.maxConcurrent == 0 { return false; }
    return true;
  }

  // ---------- Scoring ----------

  /** The saturating cast of a float to u32. */
  function AsU32(x: real): (r: nat)
    ensures r < U32_LIMIT
  {
    if x < 0.0 then 0 else if x.Floor >= U32_LIMIT then U32_LIMIT - 1 else x.Floor
  }

  function UptimePoints(uptime: nat): (r: nat)
    ensures r <= 100
  {
    Min(uptime / 10000 % U32_LIMIT, 100)
  }

  function MetricReputation(m: Metrics): (r: nat)
    ensures r < U32_LIMIT
  {
    var base := SaturatingSub(AsU32(m.successRate * 1000.0), Min(m.fraudCount, 10) * 50);
    Min(base + UptimePoints(m.uptime), U32_LIMIT - 1)
  }

  function ReputationScore(th: Thalamus, op: Operator): (r: nat)
    ensures r < U32_LIMIT
  {
    if op.id in th.metrics then MetricReputation(th.metrics[op.id]) else Min(op.reputation / 10, 1000)
  }

  function LatencyPoints(latency: nat): (r: nat)
    ensures r <= 100
  {
    if latency == 0 then 100 else Min(1000 / latency, 100)
  }

  function LatencyScore(th: Thalamus, op: Operator): (r: nat)
    ensures r <= 100
  {
    LatencyPoints(if op.id in th.metrics then th.metrics[op.id].latency else op.latency)
  }

  function PricePoints(price: nat, budget: nat): (r: nat)
    ensures r <= 100
  {
    if price == 0 then 100
    else if budget > price then Min((budget - price) * 100 % U64_LIMIT / budget, 100)
    else 0
  }

  function PriceScore(op: Operator, budget: nat): (r: nat)
    ensures r <= 100
  {
    PricePoints(op.price, budget)
  }

  function LoadPoints(load: real): (r: nat)
    ensures r < U32_LIMIT
  {
    AsU32((1.0 - load) * 100.0)
  }

  function LoadScore(th: Thalamus, op: Operator): (r: nat)
    ensures r < U32_LIMIT
  {
    LoadPoints(if op.id in th.metrics then th.metrics[op.id].load else 0.0)
  }

  function MemoryPoints(vramGb: nat): (r: nat)
    ensures r <= 20
  {
    Min(vramGb / 8 * 20 % U32_LIMIT, 20)
  }

  function SimilarityScore(th: Thalamus, op: Operator): (r: nat)
    ensures r <= 100
  {
    (if op.supportsKernel then 50 else 0) + (if op.region == th.region then 30 else 0) + MemoryPoints(op.vramGb)
  }

  function WeightsOf(q: QoSClass): (w: Weights)
    ensures w.similarity + w.reputation + w.latency + w.price + w.load == 100
  {
    match q
    case LowLatency => Weights(10, 20, 50, 10, 10)
    case Balanced => Weights(20, 25, 20, 25, 10)
    case HighAssurance => Weights(20, 40, 10, 20, 10)
    case DeterministicCritical => Weights(25, 35, 10, 15, 15)
  }

  function WeightedSum(w: Weights, sim: nat, rep: nat, lat: nat, price: nat, load: nat): (r: nat) {
    w.similarity * sim + w.reputation * rep + w.latency * lat + w.price * price + w.load * load
  }

  function Total(th: Thalamus, op: Operator, req: Request): (r: nat) {
    WeightedSum(WeightsOf(req.qos), SimilarityScore(th, op), ReputationScore(th, op), LatencyScore(th, op),
                PriceScore(op, req.budget), LoadScore(th, op)) / 100
  }

  lemma TermBound(w: nat, x: nat, m: nat)
    requires x <= m
    ensures w * x <= w * m
  {
  }

  /** Weights that sum to 100 keep every score within u32. */
  lemma TotalFits(th: Thalamus, op: Operator, req: Request)
    ensures Total(th, op, req) < U32_LIMIT
  {
    var w, m := WeightsOf(req.qos), U32_LIMIT - 1;
    TermBound(w.similarity, SimilarityScore(th, op), m);
    TermBound(w.reputation, ReputationScore(th, op), m);
    TermBound(w.latency, LatencyScore(th, op), m);
    TermBound(w.price, PriceScore(op, req.budget), m);
    TermBound(w.load, LoadScore(th, op), m);
    assert w.similarity * m + w.reputation * m + w.latency * m + w.price * m + w.load * m == 100 * m;
  }

  // ---------- Tiebreak ----------

  function TiebreakHash(id: seq<Byte>, seed: nat): (h: nat) {
    if id == [] then seed
    else (TiebreakHash(id[..|id| - 1], seed) * 31 % U64_LIMIT + id[|id| - 1]) % U64_LIMIT
  }

  method Tiebreak(id: Id, seed: nat) returns (t: nat)
    ensures t == TiebreakHash(id, seed) % 1000
  {
    var hasher := seed;
    for i := 0 to |id|
      invariant hasher == TiebreakHash(id[..i], seed)
    {
      assert id[..i + 1][..i] == id[..i];
      hasher := (hasher * 31 % U64_LIMIT + id[i]) % U64_LIMIT;
    }
    assert id[..|id|] == id;
    t := hasher % 1000;
  }

  function Adjust(s: Scored, seed: nat): (r: Scored) {
    s.(score := (s.score + TiebreakHash(s.id, seed) % 1000) % U64_LIMIT)
  }

  /** The tiebreak's wrapping addition never wraps. */
  lemma AdjustNeverWraps(s: Scored, seed: nat)
    requires s.score < U32_LIMIT
    ensures Adjust(s, seed).score == s.score + TiebreakHash(s.id, seed) % 1000
  {
    var x := s.score + TiebreakHash(s.id, seed) % 1000;
    assert x < U64_LIMIT;
    assert x % U64_LIMIT == x;
  }

  // ---------- Stable descending sort ----------

  ghost predicate Descending(s: seq<Scored>) {
    forall i, j :: 0 <= i < j < |s| ==> s[i].score >= s[j].score
  }

  /** Behind everything that scores at least as much. */
  function Insert(s: seq<Scored>, x: Scored): (r: seq<Scored>)
    ensures |r| == |s| + 1
  {
    if s == [] || s[|s| - 1].score >= x.score then s + [x]
    else Insert(s[..|s| - 1], x) + [s[|s| - 1]]
  }

  function Sorted(s: seq<Scored>): (r: seq<Scored>)
    ensures |r| == |s|
  {
    if s == [] then [] else Insert(Sorted(s[..|s| - 1]), s[|s| - 1])
  }

  lemma {:induction false} InsertAbove(s: seq<Scored>, x: Scored, v: nat)
    requires x.score >= v && forall i :: 0 <= i < |s| ==> s[i].score >= v
    ensures forall i :: 0 <= i < |Insert(s, x)| ==> Insert(s, x)[i].score >= v
  {
    if s != [] && s[|s| - 1].score < x.score {
      InsertAbove(s[..|s| - 1], x, v);
    }
  }

  lemma {:induction false} InsertDescends(s: seq<Scored>, x: Scored)
    requires Descending(s)
    ensures Descending(Insert(s, x))
  {
    if s != [] && s[|s| - 1].score < x.score {
      InsertDescends(s[..|s| - 1], x);
      InsertAbove(s[..|s| - 1], x, s[|s| - 1].score);
    }
  }

  lemma {:induction false} InsertKeeps(s: seq<Scored>, x: Scored)
    ensures multiset(Insert(s, x)) == multiset(s) + multiset{x}
  {
    if s != [] && s[|s| - 1].score < x.score {
      InsertKeeps(s[..|s| - 1], x);
      assert s == s[..|s| - 1] + [s[|s| - 1]];
    }
  }

  lemma {:induction false} SortedIsSorted(s: seq<Scored>)
    ensures Descending(Sorted(s)) && multiset(Sorted(s)) == multiset(s)
  {
    if s != [] {
      var init, last := s[..|s| - 1], s[|s| - 1];
      SortedIsSorted(init);
      InsertDescends(Sorted(init), last);
      InsertKeeps(Sorted(init), last);
      assert s == init + [last];
    }
  }

  /** The entries with one score, in order. */
  function Tied(s: seq<Scored>, v: nat): (r: seq<Scored>) {
    if s == [] then [] else Tied(s[..|s| - 1], v) + if s[|s| - 1].score == v then [s[|s| - 1]] else []
  }

  lemma {:induction false} InsertStable(s: seq<Scored>, x: Scored, v: nat)
    requires Descending(s)
    ensures Tied(Insert(s, x), v) == Tied(s, v) + if x.score == v then [x] else []
  {
    var r := Insert(s, x);
    if s == [] || s[|s| - 1].score >= x.score {
      assert r[..|r| - 1] == s;
    } else {
      InsertStable(s[..|s| - 1], x, v);
      assert r[..|r| - 1] == Insert(s[..|s| - 1], x);
      var last := s[|s| - 1];
      assert last.score != x.score;
    }
  }

  /** Equal scores keep their original order: the sort is the stable one. */
  lemma {:induction false} SortedIsStable(s: seq<Scored>, v: nat)
    ensures Tied(Sorted(s), v) == Tied(s, v)
  {
    if s != [] {
      var init := s[..|s| - 1];
      SortedIsSorted(init);
      SortedIsStable(init, v);
      InsertStable(Sorted(init), s[|s| - 1], v);
    }
  }

  // ---------- Selection ----------

  /** The k best of all, in descending order, with nobody left out who scores higher. */
  ghost predicate IsTop(all: seq<Scored>, k: nat, selected: seq<Scored>) {
    && |selected| == Min(k, |all|) && Descending(selected)
    && exists rest: seq<Scored> :: IsRest(all, selected, rest)
  }

  ghost predicate IsRest(all: seq<Scored>, selected: seq<Scored>, rest: seq<Scored>) {
    && multiset(selected) + multiset(rest) == multiset(all)
    && forall s, r :: s in selected && r in rest ==> s.score >= r.score
  }

  /** The source's library sort, then the first k. */
  method TakeBest(all: seq<Scored>, k: nat) returns (selected: seq<Scored>)
    ensures selected == Sorted(all)[..Min(k, |all|)] && IsTop(all, k, selected)
  {
    var sorted := Sorted(all);
    var n := Min(k, |sorted|);
    selected := sorted[..n];
    SortedIsSorted(all);
    FrontIsTop(all, sorted, n);
  }

  lemma FrontIsTop(all: seq<Scored>, sorted: seq<Scored>, n: nat)
    requires n <= |sorted| && Descending(sorted) && multiset(sorted) == multiset(all)
    ensures Descending(sorted[..n]) && IsRest(all, sorted[..n], sorted[n..])
  {
    SplitDescends(sorted, n);
    assert sorted == sorted[..n] + sorted[n..];
  }

  lemma SplitDescends(s: seq<Scored>, n: nat)
    requires Descending(s) && n <= |s|
    ensures Descending(s[..n]) && forall x, y :: x in s[..n] && y in s[n..] ==> x.score >= y.score
  {
    forall x, y | x in s[..n] && y in s[n..] ensures x.score >= y.score {
      var i :| 0 <= i < n && s[..n][i] == x;
      var j :| 0 <= j < |s| - n && s[n..][j] == y;
      assert s[i].score >= s[n + j].score;
    }
  }

  ghost predicate DistinctScores(s: seq<Scored>) {
    forall i, j :: 0 <= i < j < |s| ==> s[i].score != s[j].score
  }

  ghost predicate StrictlyDescending(s: seq<Scored>) {
    forall i, j :: 0 <= i < j < |s| ==> s[i].score > s[j].score
  }

  lemma HeadsAgree(a: seq<Scored>, b: seq<Scored>)
    requires StrictlyDescending(a) && StrictlyDescending(b) && multiset(a) == multiset(b) && a != []
    ensures |a| == |b| && a[0] == b[0]
  {
    assert |multiset(a)| == |a| && |multiset(b)| == |b|;
    assert a[0] in multiset(b) && b[0] in multiset(a);
    var i :| 0 <= i < |b| && b[i] == a[0];
    var j :| 0 <= j < |a| && a[j] == b[0];
    assert a[0].score >= a[j].score && b[0].score >= b[i].score;
  }

  lemma TailMultiset(s: seq<Scored>)
    requires s != []
    ensures multiset(s[1..]) == multiset(s) - multiset{s[0]}
  {
    assert s == [s[0]] + s[1..];
  }

  /** A descending list without ties is determined by its entries. */
  lemma {:induction false} StrictUnique(a: seq<Scored>, b: seq<Scored>)
    requires StrictlyDescending(a) && StrictlyDescending(b) && multiset(a) == multiset(b)
    ensures a == b
    decreases |a|
  {
    if a == [] {
      assert |multiset(b)| == |b|;
    } else {
      HeadsAgree(a, b);
      TailMultiset(a);
      TailMultiset(b);
      TailDescends(a);
      TailDescends(b);
      StrictUnique(a[1..], b[1..]);
      assert a == [a[0]] + a[1..] && b == [b[0]] + b[1..];
    }
  }

  lemma TailDescends(s: seq<Scored>)
    requires StrictlyDescending(s) && s != []
    ensures StrictlyDescending(s[1..])
  {
  }

  lemma DistinctTransfers(s: seq<Scored>, t: seq<Scored>)
    requires multiset(s) == multiset(t) && DistinctScores(s)
    ensures DistinctScores(t)
  {
    forall i, j | 0 <= i < j < |t| ensures t[i].score != t[j].score {
      if t[i].score == t[j].score {
        TwoAlike(s, t, i, j);
      }
    }
  }

  lemma TwoAlike(s: seq<Scored>, t: seq<Scored>, i: nat, j: nat)
    requires multiset(s) == multiset(t) && i < j < |t| && t[i].score == t[j].score
    ensures !DistinctScores(s)
  {
    assert t[i] in multiset(s) && t[j] in multiset(s);
    var a :| 0 <= a < |s| && s[a] == t[i];
    if t[i] == t[j] {
      assert t == t[..i] + [t[i]] + t[i + 1..j] + [t[j]] + t[j + 1..];
      assert multiset(t)[t[i]] >= 2;
      assert s == s[..a] + [s[a]] + s[a + 1..];
      assert multiset(s[..a])[t[i]] > 0 || multiset(s[a + 1..])[t[i]] > 0;
      assert t[i] in s[..a] || t[i] in s[a + 1..];
    }
  }

  /** Without ties, the selection does not depend on the order in which operators are listed. */
  lemma SelectionIgnoresOrder(all: seq<Scored>, shuffled: seq<Scored>)
    requires multiset(all) == multiset(shuffled) && DistinctScores(all)
    ensures Sorted(all) == Sorted(shuffled)
  {
    SortedIsSorted(all);
    SortedIsSorted(shuffled);
    DistinctTransfers(all, Sorted(all));
    DistinctTransfers(all, Sorted(shuffled));
    StrictUnique(Sorted(all), Sorted(shuffled));
  }

  // ---------- Routing ----------

  function Admissible(th: Thalamus, ops: seq<Operator>, req: Request, excluded: set<Id>): (r: seq<Operator>) {
    if ops == [] then []
    else
      var op := ops[|ops| - 1];
      Admissible(th, ops[..|ops| - 1], req, excluded)
      + if op.id !in excluded && Eligible(th, op, req) then [op] else []
  }

  lemma {:induction false} AdmissibleExactly(th: Thalamus, ops: seq<Operator>, req: Request, excluded: set<Id>)
    ensures forall op ::
              op in Admissible(th, ops, req, excluded) <==> op in ops && op.id !in excluded && Eligible(th, op, req)
  {
    if ops != [] {
      AdmissibleExactly(th, ops[..|ops| - 1], req, excluded);
      assert ops == ops[..|ops| - 1] + [ops[|ops| - 1]];
    }
  }

  function Scores(th: Thalamus, ops: seq<Operator>, req: Request): (r: seq<Scored>)
    ensures |r| == |ops|
  {
    seq(|ops|, i requires 0 <= i < |ops| => Scored(ops[i].id, Total(th, ops[i], req)))
  }

  function Adjusted(s: seq<Scored>, seed: nat): (r: seq<Scored>)
    ensures |r| == |s|
  {
    seq(|s|, i requires 0 <= i < |s| => Adjust(s[i], seed))
  }

  function DefaultK(q: QoSClass): (k: nat) {
    match q
    case LowLatency => 1
    case Balanced => 2
    case HighAssurance => 3
    case DeterministicCritical => 3
  }

  function DetermineK(req: Request): (k: nat)
    ensures k > 0
  {
    if req.redundancy > 0 then req.redundancy else DefaultK(req.qos)
  }

  /** What the source compares: plain scores, or scores with the tiebreak added. */
  function Ranked(th: Thalamus, ops: seq<Operator>, req: Request, seed: Option<nat>): (r: seq<Scored>) {
    var scores := Scores(th, ops, req);
    match seed
    case None => scores
    case Some(s) => Adjusted(scores, s)
  }

  function SeedOf(jobId: Id, blockHeight: nat): (s: nat) {
    (SeedSum(jobId) + blockHeight * 37 % U64_LIMIT) % U64_LIMIT
  }

  function Pow31(i: nat): (r: nat) {
    if i == 0 then 1 else Pow31(i - 1) * 31 % U64_LIMIT
  }

  function SeedSum(jobId: Id): (s: nat) {
    if jobId == [] then 0
    else (SeedSum(jobId[..|jobId| - 1]) + jobId[|jobId| - 1] * Pow31(|jobId| - 1) % U64_LIMIT) % U64_LIMIT
  }

  method GenerateSeed(req: Request) returns (s: nat)
    ensures s == SeedOf(req.jobId, req.blockHeight)
  {
    s := 0;
    for i := 0 to |req.jobId|
      invariant s == SeedSum(req.jobId[..i])
    {
      assert req.jobId[..i + 1][..i] == req.jobId[..i];
      s := (s + req.jobId[i] * Pow31(i) % U64_LIMIT) % U64_LIMIT;
    }
    assert req.jobId[..|req.jobId|] == req.jobId;
    s := (s + req.blockHeight * 37 % U64_LIMIT) % U64_LIMIT;
  }

  /** What is added to an operator's score: a tiebreak below 1000 in deterministic mode. */
  function Bonus(id: Id, seed: Option<nat>): (b: nat)
    ensures b < 1000
  {
    match seed
    case None => 0
    case Some(s) => TiebreakHash(id, s) % 1000
  }

  /** Each ranked entry is its operator's id with its score plus its bonus. */
  ghost predicate RankedRight(th: Thalamus, ops: seq<Operator>, req: Request, seed: Option<nat>, ranked: seq<Scored>) {
    && |ranked| == |ops|
    && forall i :: 0 <= i < |ops| ==>
         ranked[i].id == ops[i].id && ranked[i].score == Total(th, ops[i], req) + Bonus(ops[i].id, seed)
  }

  lemma RankedIsRight(th: Thalamus, ops: seq<Operator>, req: Request, seed: Option<nat>)
    ensures RankedRight(th, ops, req, seed, Ranked(th, ops, req, seed))
  {
    var ranked := Ranked(th, ops, req, seed);
    forall i | 0 <= i < |ops|
      ensures ranked[i].id == ops[i].id && ranked[i].score == Total(th, ops[i], req) + Bonus(ops[i].id, seed)
    {
      TotalFits(th, ops[i], req);
      if seed.Some? {
        AdjustNeverWraps(Scores(th, ops, req)[i], seed.value);
      }
    }
  }

  /** Who is chosen: the first k of the stable descending sort of the ranked pool. */
  function Choice(th: Thalamus, pool: seq<Operator>, req: Request, seed: Option<nat>): (selected: seq<Scored>)
    ensures |selected| == Min(DetermineK(req), |pool|)
  {
    Sorted(Ranked(th, pool, req, seed))[..Min(DetermineK(req), |pool|)]
  }

  /** The shared tail of route and fallback_route: filter, score, adjust, sort, cut. */
  method SelectBest(th: Thalamus, ops: seq<Operator>, req: Request, excluded: set<Id>, seed: Option<nat>)
    returns (selected: seq<Scored>)
    ensures var pool := Admissible(th, ops, req, excluded);
            IsTop(Ranked(th, pool, req, seed), DetermineK(req), selected) && selected == Choice(th, pool, req, seed)
    ensures |selected| == Min(DetermineK(req), |Admissible(th, ops, req, excluded)|)
    ensures forall s :: s in selected ==>
              exists op :: op in ops && op.id == s.id && op.id !in excluded && Eligible(th, op, req)
  {
    var pool := Admissible(th, ops, req, excluded);
    var ranked := Ranked(th, pool, req, seed);
    selected := TakeBest(ranked, DetermineK(req));
    RankedIsRight(th, pool, req, seed);
    AdmissibleExactly(th, ops, req, excluded);
    forall s | s in selected
      ensures exists op :: op in ops && op.id == s.id && op.id !in excluded && Eligible(th, op, req)
    {
      assert s in multiset(ranked);
      var i :| 0 <= i < |ranked| && ranked[i] == s;
      assert pool[i] in pool;
    }
  }

  /** Routing returns min(k, eligible) eligible operators, best first, nobody better left out. */
  method Route(th: Thalamus, ops: seq<Operator>, req: Request) returns (d: Decision)
    ensures var pool := Admissible(th, ops, req, {});
            && d.seed == (if pool != [] && req.mode == Deterministic
                          then Some(SeedOf(req.jobId, req.blockHeight)) else None)
            && IsTop(Ranked(th, pool, req, d.seed), DetermineK(req), d.selected)
            && d.selected == Choice(th, pool, req, d.seed)
            && d.k == if pool == [] then 0 else DetermineK(req)
    ensures |d.selected| == Min(DetermineK(req), |Admissible(th, ops, req, {})|)
    ensures forall s :: s in d.selected ==> exists op :: op in ops && op.id == s.id && Eligible(th, op, req)
  {
    var seed := None;
    if Admissible(th, ops, req, {}) != [] && req.mode == Deterministic {
      var s := GenerateSeed(req);
      seed := Some(s);
    }
    var selected := SelectBest(th, ops, req, {}, seed);
    d := Decision(selected, if Admissible(th, ops, req, {}) == [] then 0 else DetermineK(req), seed);
  }

  /** The fallback does the same without the excluded operators, under its own seed. */
  method FallbackRoute(th: Thalamus, ops: seq<Operator>, req: Request, excluded: seq<Id>) returns (d: Decision)
    ensures var pool := Admissible(th, ops, req, Elems(excluded));
            var seed := if req.mode == Deterministic then Some(req.blockHeight * |excluded| % U64_LIMIT) else None;
            && IsTop(Ranked(th, pool, req, seed), DetermineK(req), d.selected)
            && d.selected == Choice(th, pool, req, seed)
            && d.seed == (if pool == [] && req.mode == Deterministic
                          then Some(SeedOf(req.jobId, req.blockHeight)) else None)
            && d.k == if pool == [] then 0 else DetermineK(req)
    ensures |d.selected| == Min(DetermineK(req), |Admissible(th, ops, req, Elems(excluded))|)
    ensures forall s :: s in d.selected ==>
              s.id !in excluded && exists op :: op in ops && op.id == s.id && Eligible(th, op, req)
  {
    var pool := Admissible(th, ops, req, Elems(excluded));
    var seed := if req.mode == Deterministic then Some(req.blockHeight * |excluded| % U64_LIMIT) else None;
    var selected := SelectBest(th, ops, req, Elems(excluded), seed);
    var reported := None;
    if pool == [] && req.mode == Deterministic {
      var s := GenerateSeed(req);
      reported := Some(s);
    }
    d := Decision(selected, if pool == [] then 0 else DetermineK(req), reported);
  }
}
