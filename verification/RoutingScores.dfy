/** What operator scores mean: each factor's points by their defining inequality, the order they put
    operators in, which factors weigh most in each class, and that better operators are chosen first. */
module RoutingScores {
  import opened Prelude
  import opened Codec
  import opened Routing

  // ---------- Points by their defining inequalities ----------

  lemma Times(a: nat, b: nat, y: nat)
    ensures a <= b ==> a * y <= b * y && y * a <= y * b
  {
  }

  /** q is x divided by y, rounded down. */
  ghost predicate IsQuotient(x: nat, y: nat, q: nat) {
    q * y <= x < (q + 1) * y
  }

  lemma QuotientBounds(x: nat, y: nat)
    requires y > 0
    ensures IsQuotient(x, y, x / y)
  {
    assert x == y * (x / y) + x % y;
  }

  lemma LargerDividend(x: nat, x': nat, y: nat, q: nat, q': nat)
    requires x <= x' && IsQuotient(x, y, q) && IsQuotient(x', y, q')
    ensures q <= q'
  {
    Times(q' + 1, q, y);
  }

  lemma LargerDivisor(x: nat, y: nat, y': nat, q: nat, q': nat)
    requires y <= y' && IsQuotient(x, y, q) && IsQuotient(x, y', q')
    ensures q' <= q
  {
    Times(q + 1, q', y);
    Times(y, y', q');
  }

  lemma QuotientOrder(x: nat, x': nat, y: nat)
    requires y > 0 && x <= x'
    ensures x / y <= x' / y
  {
    QuotientBounds(x, y);
    QuotientBounds(x', y);
    LargerDividend(x, x', y, x / y, x' / y);
  }

  /** Latency points: the full hundred up to 10 ms, and beyond that 1000 over the latency, rounded down. */
  lemma LatencyPointsAre(latency: nat)
    ensures LatencyPoints(latency) == 100 <==> latency <= 10
    ensures latency > 10 ==> var p := LatencyPoints(latency); p * latency <= 1000 < (p + 1) * latency
  {
    if latency > 0 {
      QuotientBounds(1000, latency);
      var q := 1000 / latency;
      Times(100, q, latency);
      Times(q + 1, 100, latency);
    }
  }

  lemma FasterHasMorePoints(fast: nat, slow: nat)
    requires fast <= slow
    ensures LatencyPoints(fast) >= LatencyPoints(slow)
  {
    if fast > 0 {
      QuotientBounds(1000, fast);
      QuotientBounds(1000, slow);
      LargerDivisor(1000, fast, slow, 1000 / fast, 1000 / slow);
    }
  }

  /** Load points: the idle share in hundredths, rounded down, none when overloaded. */
  lemma LoadPointsAre(load: real)
    ensures load > 1.0 ==> LoadPoints(load) == 0
    ensures 0.0 <= load <= 1.0 ==> var p := LoadPoints(load) as real; p <= (1.0 - load) * 100.0 < p + 1.0
  {
  }

  lemma IdlerHasMorePoints(idle: real, busy: real)
    requires idle <= busy
    ensures LoadPoints(idle) >= LoadPoints(busy)
  {
    CastOrder((1.0 - busy) * 100.0, (1.0 - idle) * 100.0);
  }

  lemma CastOrder(x: real, y: real)
    requires x <= y
    ensures AsU32(x) <= AsU32(y)
  {
  }

  // ---------- Uptime and memory, whose casts wrap ----------

  /** Uptime points: one per 10000 blocks, at most a hundred, until the count outgrows 32 bits. */
  lemma UptimePointsAre(uptime: nat)
    requires uptime / 10000 < U32_LIMIT
    ensures UptimePoints(uptime) == 100 <==> uptime >= 1000000
    ensures uptime < 1000000 ==> 10000 * UptimePoints(uptime) <= uptime < 10000 * (UptimePoints(uptime) + 1)
  {
  }

  /** Longer uptime never has fewer points exactly while the count fits 32 bits or has wrapped all the way
      back to the maximum. */
  lemma UptimeOrderExactlyWhen(uptime: nat)
    ensures (forall less: nat :: less <= uptime ==> UptimePoints(less) <= UptimePoints(uptime))
       <==> uptime / 10000 < U32_LIMIT || UptimePoints(uptime) == 100
  {
    if uptime / 10000 < U32_LIMIT {
      forall less: nat | less <= uptime ensures UptimePoints(less) <= UptimePoints(uptime) {
        assert less / 10000 <= uptime / 10000;
      }
    } else if UptimePoints(uptime) != 100 {
      assert UptimePoints(1000000) == 100;
    }
  }

  /** Memory points: twenty from 8 GB up, until the product outgrows 32 bits. */
  lemma MemoryPointsAre(vramGb: nat)
    requires vramGb / 8 * 20 < U32_LIMIT
    ensures MemoryPoints(vramGb) == if vramGb >= 8 then 20 else 0
  {
  }

  lemma MemoryOrderExactlyWhen(vramGb: nat)
    ensures (forall less: nat :: less <= vramGb ==> MemoryPoints(less) <= MemoryPoints(vramGb))
       <==> vramGb / 8 * 20 < U32_LIMIT || MemoryPoints(vramGb) == 20
  {
    if vramGb / 8 * 20 < U32_LIMIT {
      MemoryPointsAre(vramGb);
      forall less: nat | less <= vramGb ensures MemoryPoints(less) <= MemoryPoints(vramGb) {
        assert less / 8 * 20 <= vramGb / 8 * 20;
        MemoryPointsAre(less);
      }
    } else if MemoryPoints(vramGb) != 20 {
      MemoryPointsAre(8);
    }
  }

  // ---------- Price, whose product wraps ----------

  /** Price points: a hundred for free, none at or above the budget, and in between the saved share of the
      budget in hundredths, rounded down. */
  lemma PricePointsAre(price: nat, budget: nat)
    requires 0 < price < budget && (budget - price) * 100 < U64_LIMIT
    ensures var p := PricePoints(price, budget); p * budget <= (budget - price) * 100 < (p + 1) * budget
    ensures PricePoints(0, budget) == 100 && PricePoints(budget, budget) == 0
  {
    var x := (budget - price) * 100;
    assert x % U64_LIMIT == x;
    QuotientBounds(x, budget);
    Times(100, x / budget, budget);
  }

  ghost predicate PriceOrdered(budget: nat) {
    forall p: nat, q: nat :: p <= q ==> PricePoints(p, budget) >= PricePoints(q, budget)
  }

  lemma CheaperHasMorePoints(cheap: nat, dear: nat, budget: nat)
    requires cheap <= dear && (budget - 1) * 100 < U64_LIMIT
    ensures PricePoints(cheap, budget) >= PricePoints(dear, budget)
  {
    if 0 < cheap && dear < budget {
      var x, y := (budget - cheap) * 100, (budget - dear) * 100;
      assert x % U64_LIMIT == x && y % U64_LIMIT == y;
      QuotientOrder(y, x, budget);
    }
  }

  lemma Fourfold(x: nat, k: int, r: nat)
    requires x * 100 == U64_LIMIT * k + r && r < U64_LIMIT
    ensures r <= U64_LIMIT - 4
  {
    var t := 25 * x - 4611686018427387904 * k;
    assert r == 4 * t;
  }

  lemma WrappedIsFourfold(x: nat)
    ensures x * 100 % U64_LIMIT <= U64_LIMIT - 4
  {
    Fourfold(x, x * 100 / U64_LIMIT, x * 100 % U64_LIMIT);
  }

  lemma HugeBudget(budget: nat)
    requires U64_LIMIT - 4 < budget
    ensures PriceOrdered(budget)
  {
    forall p: nat, q: nat | p <= q ensures PricePoints(p, budget) >= PricePoints(q, budget) {
      if 0 < q < budget {
        WrappedIsFourfold(budget - q);
        var w := (budget - q) * 100 % U64_LIMIT;
        ModUnique(w, budget, 0, w);
      }
    }
  }

  /** Where a hundredfold saving first outgrows 64 bits, and where it wraps to the largest multiple of 4. */
  const FIRST_WRAP: nat := 184467440737095517
  const LAST_WRAP: nat := 3504881374004814807

  lemma LargeBudget(budget: nat)
    requires (budget - 1) * 100 >= U64_LIMIT && budget <= U64_LIMIT - 4
    ensures !PriceOrdered(budget)
  {
    var x := if budget <= U64_LIMIT - 16 then FIRST_WRAP - 1 else LAST_WRAP;
    assert FIRST_WRAP * 100 == U64_LIMIT + 84;
    assert LAST_WRAP * 100 == 18 * U64_LIMIT + 18446744073709551612;
    var p, q := budget - (x + 1), budget - x;
    Wraps(x, budget);
    assert PricePoints(p, budget) == 0 && PricePoints(q, budget) >= 1;
  }

  lemma Wraps(x: nat, budget: nat)
    requires U64_LIMIT / 100 < budget <= U64_LIMIT - 4
    requires x == if budget <= U64_LIMIT - 16 then FIRST_WRAP - 1 else LAST_WRAP
    ensures (x + 1) * 100 % U64_LIMIT / budget == 0 && x * 100 % U64_LIMIT / budget >= 1
  {
    var low := (x + 1) * 100 % U64_LIMIT;
    assert low <= 96;
    ModUnique(low, budget, 0, low);
    var high := x * 100 % U64_LIMIT;
    assert high >= budget;
    QuotientOrder(budget, high, budget);
    ModUnique(budget, budget, 1, 0);
  }

  /** Cheaper operators never have fewer price points exactly while a hundred times the largest saving
      fits 64 bits, or the budget is so large that nothing scores at all. */
  lemma PriceOrderExactlyWhen(budget: nat)
    requires budget < U64_LIMIT
    ensures PriceOrdered(budget) <==> (budget - 1) * 100 < U64_LIMIT || budget > U64_LIMIT - 4
  {
    if (budget - 1) * 100 < U64_LIMIT {
      forall p: nat, q: nat | p <= q ensures PricePoints(p, budget) >= PricePoints(q, budget) {
        CheaperHasMorePoints(p, q, budget);
      }
    } else if budget > U64_LIMIT - 4 {
      HugeBudget(budget);
    } else {
      LargeBudget(budget);
    }
  }

  /** Failing inputs: at a budget of 2^64 / 100 a price of 1 has no points and a price of 2 has ninety-nine;
      2^32 times 10000 blocks of uptime have none, and 1717986920 GB of memory have four. */
  lemma PointsWrap()
    ensures PricePoints(1, FIRST_WRAP + 1) == 0 && PricePoints(2, FIRST_WRAP + 1) == 99
    ensures UptimePoints(U32_LIMIT * 10000) == 0 && UptimePoints(1000000) == 100
    ensures MemoryPoints(1717986920) == 4 && MemoryPoints(8) == 20
  {
    assert FIRST_WRAP * 100 % U64_LIMIT == 84 && (FIRST_WRAP - 1) * 100 % U64_LIMIT == 18446744073709551600;
  }

  // ---------- Reputation and similarity ----------

  /** Without metrics: a tenth of the reputation, rounded down, at most 1000. */
  lemma PlainReputationIs(th: Thalamus, op: Operator)
    requires op.id !in th.metrics
    ensures var s := ReputationScore(th, op);
            (s == 1000 <==> op.reputation >= 10000) && (s < 1000 ==> 10 * s <= op.reputation < 10 * (s + 1))
  {
  }

  /** With metrics and a success rate up to one: a thousandth part per point, less fifty for each of the
      first ten frauds but not below zero, plus the uptime points. */
  lemma MeasuredReputationIs(m: Metrics)
    requires 0.0 <= m.successRate <= 1.0
    ensures var s, rate := MetricReputation(m) - UptimePoints(m.uptime), m.successRate * 1000.0;
            var less := 50 * if m.fraudCount < 10 then m.fraudCount else 10;
            && s >= 0
            && (rate < (less + 1) as real ==> s == 0)
            && (rate >= less as real ==> (s + less) as real <= rate < (s + less + 1) as real)
  {
  }

  lemma TrustOrder(m: Metrics, n: Metrics)
    requires m.successRate >= n.successRate && m.fraudCount <= n.fraudCount
    requires UptimePoints(m.uptime) >= UptimePoints(n.uptime)
    ensures MetricReputation(m) >= MetricReputation(n)
  {
    CastOrder(n.successRate * 1000.0, m.successRate * 1000.0);
  }

  /** Kernel support is worth 50, the preferred region 30, and memory up to 20. */
  lemma SimilarityIs(th: Thalamus, op: Operator)
    requires op.vramGb / 8 * 20 < U32_LIMIT
    ensures SimilarityScore(th, op.(supportsKernel := true)) == SimilarityScore(th, op.(supportsKernel := false)) + 50
    ensures op.region == th.region ==>
              SimilarityScore(th, op) == 30 + (if op.supportsKernel then 50 else 0) + if op.vramGb >= 8 then 20 else 0
    ensures op.region != th.region ==>
              SimilarityScore(th, op) == (if op.supportsKernel then 50 else 0) + if op.vramGb >= 8 then 20 else 0
  {
    MemoryPointsAre(op.vramGb);
  }

  // ---------- The total ----------

  /** What each class cares about, from most to least: low latency for latency above all, twice the weight
      of everything else it names; high assurance and deterministic work for reputation; balanced work for
      reputation and price alike. */
  lemma Priorities()
    ensures var w := WeightsOf(LowLatency);
            w.latency > 2 * w.reputation > 2 * w.similarity == 2 * w.price == 2 * w.load
            && w.latency == w.similarity + w.reputation + w.price + w.load
    ensures var w := WeightsOf(Balanced);
            w.reputation == w.price > w.similarity == w.latency == 2 * w.load
    ensures var w := WeightsOf(HighAssurance);
            w.reputation == 2 * w.similarity == 2 * w.price == 4 * w.latency == 4 * w.load
    ensures var w := WeightsOf(DeterministicCritical);
            w.reputation > w.similarity > w.price == w.load > w.latency && w.similarity == w.price + w.latency
  {
  }

  /** How an operator stands in the five respects. */
  datatype Standing = Standing(similarity: nat, reputation: nat, latency: nat, price: nat, load: nat)

  function StandingOf(th: Thalamus, op: Operator, budget: nat): (s: Standing) {
    Standing(SimilarityScore(th, op), ReputationScore(th, op), LatencyScore(th, op), PriceScore(op, budget),
             LoadScore(th, op))
  }

  ghost predicate AtLeast(a: Standing, b: Standing) {
    && a.similarity >= b.similarity && a.reputation >= b.reputation && a.latency >= b.latency
    && a.price >= b.price && a.load >= b.load
  }

  lemma WeighMore(w: nat, x: nat, y: nat)
    requires x >= y
    ensures w * x >= w * y
  {
  }

  /** More points in every respect never lower the total, and a lead that outweighs a hundred in one
      respect raises it. */
  lemma TotalFollowsStanding(th: Thalamus, a: Operator, b: Operator, req: Request)
    requires AtLeast(StandingOf(th, a, req.budget), StandingOf(th, b, req.budget))
    ensures Total(th, a, req) >= Total(th, b, req)
    ensures var w, x, y := WeightsOf(req.qos), StandingOf(th, a, req.budget), StandingOf(th, b, req.budget);
            (|| w.latency * x.latency >= w.latency * y.latency + 100
             || w.reputation * x.reputation >= w.reputation * y.reputation + 100
             || w.price * x.price >= w.price * y.price + 100)
            ==> Total(th, a, req) > Total(th, b, req)
  {
    var w, x, y := WeightsOf(req.qos), StandingOf(th, a, req.budget), StandingOf(th, b, req.budget);
    WeighMore(w.similarity, x.similarity, y.similarity);
    WeighMore(w.reputation, x.reputation, y.reputation);
    WeighMore(w.latency, x.latency, y.latency);
    WeighMore(w.price, x.price, y.price);
    WeighMore(w.load, x.load, y.load);
  }

  function LatencyOf(th: Thalamus, op: Operator): (ms: nat) {
    if op.id in th.metrics then th.metrics[op.id].latency else op.latency
  }

  function LoadOf(th: Thalamus, op: Operator): (load: real) {
    if op.id in th.metrics then th.metrics[op.id].load else 0.0
  }

  /** At least as trusted: by measurements when both have them, by reputation when neither has. */
  ghost predicate AsTrusted(th: Thalamus, a: Operator, b: Operator) {
    if a.id in th.metrics && b.id in th.metrics then
      var m, n := th.metrics[a.id], th.metrics[b.id];
      m.successRate >= n.successRate && m.fraudCount <= n.fraudCount && m.uptime >= n.uptime
    else a.id !in th.metrics && b.id !in th.metrics && a.reputation >= b.reputation
  }

  /** At least as good in every respect a score looks at. */
  ghost predicate AsGood(th: Thalamus, a: Operator, b: Operator) {
    && LatencyOf(th, a) <= LatencyOf(th, b) && a.price <= b.price && LoadOf(th, a) <= LoadOf(th, b)
    && AsTrusted(th, a, b)
    && (b.supportsKernel ==> a.supportsKernel) && (b.region == th.region ==> a.region == th.region)
    && a.vramGb >= b.vramGb
  }

  /** The numbers of an operator and a budget whose points do not wrap. */
  ghost predicate Moderate(th: Thalamus, op: Operator, budget: nat) {
    && (budget - 1) * 100 < U64_LIMIT && op.vramGb / 8 * 20 < U32_LIMIT
    && (op.id in th.metrics ==> th.metrics[op.id].uptime / 10000 < U32_LIMIT)
  }

  lemma GoodStanding(th: Thalamus, a: Operator, b: Operator, budget: nat)
    requires AsGood(th, a, b) && Moderate(th, a, budget)
    ensures AtLeast(StandingOf(th, a, budget), StandingOf(th, b, budget))
  {
    FasterHasMorePoints(LatencyOf(th, a), LatencyOf(th, b));
    CheaperHasMorePoints(a.price, b.price, budget);
    IdlerHasMorePoints(LoadOf(th, a), LoadOf(th, b));
    MemoryOrderExactlyWhen(a.vramGb);
    if a.id in th.metrics {
      UptimeOrderExactlyWhen(th.metrics[a.id].uptime);
      TrustOrder(th.metrics[a.id], th.metrics[b.id]);
    }
  }

  /** Lower latency, price and load, higher reputation and success, fewer frauds, longer uptime and more
      memory never lower an operator's total. */
  lemma BetterNeverScoresLower(th: Thalamus, a: Operator, b: Operator, req: Request)
    requires AsGood(th, a, b) && Moderate(th, a, req.budget)
    ensures Total(th, a, req) >= Total(th, b, req)
  {
    GoodStanding(th, a, b, req.budget);
    TotalFollowsStanding(th, a, b, req);
  }

  // ---------- Who is chosen ----------

  /** x stands before y. */
  ghost predicate Before(s: seq<Scored>, x: Scored, y: Scored) {
    exists i, j :: 0 <= i < j < |s| && s[i] == x && s[j] == y
  }

  lemma BeforeShifted(s: seq<Scored>, t: seq<Scored>, x: Scored, y: Scored)
    requires Before(s, x, y)
    ensures Before(s + t, x, y)
  {
    var i, j :| 0 <= i < j < |s| && s[i] == x && s[j] == y;
    assert (s + t)[i] == x && (s + t)[j] == y;
  }

  lemma LastBehind(s: seq<Scored>, x: Scored, y: Scored)
    requires x in s
    ensures Before(s + [y], x, y)
  {
    var i :| 0 <= i < |s| && s[i] == x;
    assert (s + [y])[i] == x && (s + [y])[|s|] == y;
  }

  lemma {:induction false} InsertHolds(s: seq<Scored>, z: Scored, x: Scored)
    ensures x in Insert(s, z) <==> x in s || x == z
  {
    InsertKeeps(s, z);
    assert x in multiset(Insert(s, z)) <==> x in multiset(s) || x == z;
  }

  lemma {:induction false} InsertKeepsBefore(s: seq<Scored>, z: Scored, x: Scored, y: Scored)
    requires Before(s, x, y)
    ensures Before(Insert(s, z), x, y)
  {
    var init, last := s[..|s| - 1], s[|s| - 1];
    if last.score >= z.score {
      BeforeShifted(s, [z], x, y);
    } else {
      var i, j :| 0 <= i < j < |s| && s[i] == x && s[j] == y;
      assert init[i] == x;
      if j == |s| - 1 {
        InsertHolds(init, z, x);
        LastBehind(Insert(init, z), x, last);
      } else {
        assert init[j] == y;
        InsertKeepsBefore(init, z, x, y);
        BeforeShifted(Insert(init, z), [last], x, y);
      }
    }
  }

  lemma {:induction false} InsertBehind(s: seq<Scored>, z: Scored, x: Scored)
    requires Descending(s) && x in s && x.score >= z.score
    ensures Before(Insert(s, z), x, z)
  {
    var init, last := s[..|s| - 1], s[|s| - 1];
    if last.score >= z.score {
      LastBehind(s, x, z);
    } else {
      assert s == init + [last];
      InsertBehind(init, z, x);
      BeforeShifted(Insert(init, z), [last], x, z);
    }
  }

  /** The sort puts an entry behind everything listed before it that scores at least as much. */
  lemma {:induction false} SortKeepsBefore(s: seq<Scored>, i: nat, j: nat)
    requires i < j < |s| && s[i].score >= s[j].score
    ensures Before(Sorted(s), s[i], s[j])
  {
    var n := |s| - 1;
    var init, last := s[..n], s[n];
    SortedIsSorted(init);
    if j < n {
      SortKeepsBefore(init, i, j);
      InsertKeepsBefore(Sorted(init), last, s[i], s[j]);
    } else {
      assert init[i] == s[i];
      assert s[i] in multiset(init);
      InsertBehind(Sorted(init), last, s[i]);
    }
  }

  ghost predicate DistinctEntries(s: seq<Scored>) {
    forall i, j :: 0 <= i < j < |s| ==> s[i] != s[j]
  }

  lemma SortKeepsDistinct(s: seq<Scored>)
    requires DistinctEntries(s)
    ensures DistinctEntries(Sorted(s))
  {
    SortedIsSorted(s);
    ElemsCardinality(s);
    ElemsCardinality(Sorted(s));
    assert Elems(Sorted(s)) == Elems(s) by {
      forall x ensures x in Sorted(s) <==> x in s {
        assert x in multiset(Sorted(s)) <==> x in multiset(s);
      }
    }
  }

  /** An entry in front is cut off only if what stands behind it is too. */
  lemma FrontIsKept(s: seq<Scored>, n: nat, x: Scored, y: Scored)
    requires DistinctEntries(s) && n <= |s| && Before(s, x, y) && y in s[..n]
    ensures x in s[..n]
  {
    var i, j :| 0 <= i < j < |s| && s[i] == x && s[j] == y;
    var k :| 0 <= k < n && s[..n][k] == y;
    assert s[k] == s[j];
    assert s[..n][i] == x;
  }

  /** An entry is never chosen over one with a higher score, nor over one with the same score that is
      listed before it. */
  lemma ChosenByScore(all: seq<Scored>, n: nat, i: nat, j: nat)
    requires DistinctEntries(all) && n <= |all| && i < |all| && j < |all| && i != j
    requires all[i].score > all[j].score || (all[i].score == all[j].score && i < j)
    requires all[j] in Sorted(all)[..n]
    ensures all[i] in Sorted(all)[..n]
  {
    SortedIsSorted(all);
    SortKeepsDistinct(all);
    var sorted := Sorted(all);
    if i < j {
      SortKeepsBefore(all, i, j);
    } else {
      assert all[i] in multiset(sorted) && all[j] in multiset(sorted);
      var p :| 0 <= p < |sorted| && sorted[p] == all[i];
      var q :| 0 <= q < |sorted| && sorted[q] == all[j];
      assert p < q;
      assert Before(sorted, all[i], all[j]);
    }
    FrontIsKept(sorted, n, all[i], all[j]);
  }

  ghost predicate DistinctIds(ops: seq<Operator>) {
    forall i, j :: 0 <= i < j < |ops| ==> ops[i].id != ops[j].id
  }

  ghost predicate Chosen(th: Thalamus, pool: seq<Operator>, req: Request, seed: Option<nat>, i: nat)
    requires i < |pool|
  {
    exists s :: s in Choice(th, pool, req, seed) && s.id == pool[i].id
  }

  lemma ChosenWasRanked(ranked: seq<Scored>, n: nat, x: Scored)
    requires n <= |ranked| && x in Sorted(ranked)[..n]
    ensures x in ranked
  {
    SortedIsSorted(ranked);
    assert x in multiset(Sorted(ranked));
    assert x in multiset(ranked);
  }

  lemma RankedDistinct(th: Thalamus, pool: seq<Operator>, req: Request, seed: Option<nat>)
    requires DistinctIds(pool)
    ensures |Ranked(th, pool, req, seed)| == |pool| && DistinctEntries(Ranked(th, pool, req, seed))
    ensures forall i :: 0 <= i < |pool| ==> Ranked(th, pool, req, seed)[i].id == pool[i].id
  {
    RankedIsRight(th, pool, req, seed);
  }

  lemma EntryById(ranked: seq<Scored>, selected: seq<Scored>, i: nat)
    requires i < |ranked| && forall s :: s in selected ==> s in ranked
    requires forall a, b :: 0 <= a < b < |ranked| ==> ranked[a].id != ranked[b].id
    ensures (exists s :: s in selected && s.id == ranked[i].id) <==> ranked[i] in selected
  {
    if s :| s in selected && s.id == ranked[i].id {
      var j :| 0 <= j < |ranked| && ranked[j] == s;
      assert j == i;
    }
  }

  lemma ChosenIsEntry(th: Thalamus, pool: seq<Operator>, req: Request, seed: Option<nat>, i: nat)
    requires DistinctIds(pool) && i < |pool| == |Ranked(th, pool, req, seed)|
    ensures Chosen(th, pool, req, seed, i) <==> Ranked(th, pool, req, seed)[i] in Choice(th, pool, req, seed)
  {
    var ranked, selected := Ranked(th, pool, req, seed), Choice(th, pool, req, seed);
    RankedDistinct(th, pool, req, seed);
    forall s | s in selected ensures s in ranked {
      ChosenWasRanked(ranked, Min(DetermineK(req), |pool|), s);
    }
    forall a, b | 0 <= a < b < |ranked| ensures ranked[a].id != ranked[b].id {
      assert pool[a].id != pool[b].id;
    }
    EntryById(ranked, selected, i);
  }

  /** Of two candidates, one with the lower total plus bonus is never chosen without the other, and at a
      tie neither is the later listed without the earlier. */
  lemma NeverWithoutHigher(th: Thalamus, pool: seq<Operator>, req: Request, seed: Option<nat>, i: nat, j: nat)
    requires DistinctIds(pool) && i < |pool| && j < |pool| && i != j && Chosen(th, pool, req, seed, j)
    requires var x := Total(th, pool[i], req) + Bonus(pool[i].id, seed);
             var y := Total(th, pool[j], req) + Bonus(pool[j].id, seed);
             x > y || (x == y && i < j)
    ensures Chosen(th, pool, req, seed, i)
  {
    RankedIsRight(th, pool, req, seed);
    RankedDistinct(th, pool, req, seed);
    ChosenIsEntry(th, pool, req, seed, i);
    ChosenIsEntry(th, pool, req, seed, j);
    ChosenByScore(Ranked(th, pool, req, seed), Min(DetermineK(req), |pool|), i, j);
  }

  /** In adaptive mode an operator that is at least as good in every respect is chosen whenever the other
      is, unless they tie and the other is listed first. */
  lemma BetterIsChosen(th: Thalamus, pool: seq<Operator>, req: Request, i: nat, j: nat)
    requires DistinctIds(pool) && i < |pool| && j < |pool| && i != j && Chosen(th, pool, req, None, j)
    requires AsGood(th, pool[i], pool[j]) && Moderate(th, pool[i], req.budget)
    ensures Chosen(th, pool, req, None, i) || (j < i && Total(th, pool[i], req) == Total(th, pool[j], req))
  {
    BetterNeverScoresLower(th, pool[i], pool[j], req);
    if Total(th, pool[i], req) > Total(th, pool[j], req) || i < j {
      NeverWithoutHigher(th, pool, req, None, i, j);
    }
  }

  /** In adaptive mode, of two operators alike in every other respect the slower is never chosen without
      the faster, wherever they are listed, once the latency weighs a point: in the low-latency class two
      latency points suffice. */
  lemma FasterIsChosen(th: Thalamus, pool: seq<Operator>, req: Request, i: nat, j: nat)
    requires DistinctIds(pool) && i < |pool| && j < |pool| && i != j && Chosen(th, pool, req, None, j)
    requires AsGood(th, pool[i], pool[j]) && Moderate(th, pool[i], req.budget)
    requires var lead := LatencyPoints(LatencyOf(th, pool[i])) - LatencyPoints(LatencyOf(th, pool[j]));
             if req.qos == LowLatency then lead >= 2 else if req.qos == Balanced then lead >= 5 else lead >= 10
    ensures Chosen(th, pool, req, None, i)
  {
    var a, b := pool[i], pool[j];
    GoodStanding(th, a, b, req.budget);
    TotalFollowsStanding(th, a, b, req);
    NeverWithoutHigher(th, pool, req, None, i, j);
  }

  lemma {:induction false} AdmissibleDistinct(th: Thalamus, ops: seq<Operator>, req: Request, excluded: set<Id>)
    requires DistinctIds(ops)
    ensures DistinctIds(Admissible(th, ops, req, excluded))
  {
    if ops != [] {
      var init := ops[..|ops| - 1];
      AdmissibleDistinct(th, init, req, excluded);
      AdmissibleExactly(th, init, req, excluded);
      var pool := Admissible(th, init, req, excluded);
      forall i | 0 <= i < |pool| ensures pool[i].id != ops[|ops| - 1].id {
        assert pool[i] in pool;
        var j :| 0 <= j < |init| && init[j] == pool[i];
      }
    }
  }

  ghost predicate Routed(th: Thalamus, ops: seq<Operator>, req: Request, excluded: set<Id>, op: Operator) {
    exists s :: s in Choice(th, Admissible(th, ops, req, excluded), req, None) && s.id == op.id
  }

  /** What route and fallback_route guarantee in adaptive mode: of two eligible operators alike in every
      other respect, the slower is never selected without the faster. */
  lemma FasterIsRouted(th: Thalamus, ops: seq<Operator>, req: Request, excluded: set<Id>, a: Operator, b: Operator)
    requires DistinctIds(ops) && a in ops && b in ops && a != b && a.id !in excluded && b.id !in excluded
    requires Eligible(th, a, req) && Eligible(th, b, req) && Routed(th, ops, req, excluded, b)
    requires AsGood(th, a, b) && Moderate(th, a, req.budget)
    requires var lead := LatencyPoints(LatencyOf(th, a)) - LatencyPoints(LatencyOf(th, b));
             if req.qos == LowLatency then lead >= 2 else if req.qos == Balanced then lead >= 5 else lead >= 10
    ensures Routed(th, ops, req, excluded, a)
  {
    var pool := Admissible(th, ops, req, excluded);
    AdmissibleExactly(th, ops, req, excluded);
    AdmissibleDistinct(th, ops, req, excluded);
    var i :| 0 <= i < |pool| && pool[i] == a;
    var j :| 0 <= j < |pool| && pool[j] == b;
    FasterIsChosen(th, pool, req, i, j);
  }

  /** The example the weights are made for: 10 ms beat 1000 ms in the low-latency class. */
  lemma TenBeatsAThousand(th: Thalamus, a: Operator, req: Request)
    requires a.id !in th.metrics && a.latency == 10 && req.qos == LowLatency
    ensures Total(th, a, req) > Total(th, a.(latency := 1000), req)
  {
    TotalFollowsStanding(th, a, a.(latency := 1000), req);
  }

  // ---------- Eligibility and numbers asked ----------

  /** Constraint i is the first to set a field. */
  ghost predicate Decides<T>(cs: seq<Constraint>, field: Constraint -> Option<T>, i: nat) {
    i < |cs| && field(cs[i]).Some? && forall j :: 0 <= j < i ==> field(cs[j]).None?
  }

  /** The bound that decides a field, if any does. */
  lemma FirstDecides<T>(cs: seq<Constraint>, field: Constraint -> Option<T>)
    ensures forall i: nat :: Decides(cs, field, i) ==> First(cs, field) == field(cs[i])
    ensures First(cs, field).Some? ==> exists i: nat :: Decides(cs, field, i)
  {
    FirstIsEarliest(cs, field);
    if First(cs, field).Some? {
      var i :| 0 <= i < |cs| && field(cs[i]) == First(cs, field) && forall j :: 0 <= j < i ==> field(cs[j]).None?;
      assert Decides(cs, field, i);
    }
  }

  const STAKE: Constraint -> Option<nat> := (c: Constraint) => c.minStake
  const REPUTATION: Constraint -> Option<nat> := (c: Constraint) => c.minReputation
  const REGION: Constraint -> Option<string> := (c: Constraint) => c.region
  const LOAD: Constraint -> Option<real> := (c: Constraint) => c.maxLoad

  /** Every bound that the first constraint naming it sets is met; an unmeasured load meets any. */
  ghost predicate MeetsBounds(th: Thalamus, op: Operator, cs: seq<Constraint>) {
    && (forall i: nat :: Decides(cs, STAKE, i) ==> op.stake >= cs[i].minStake.value)
    && (forall i: nat :: Decides(cs, REPUTATION, i) ==> op.reputation >= cs[i].minReputation.value)
    && (forall i: nat :: Decides(cs, REGION, i) ==> op.region == cs[i].region.value)
    && (forall i: nat :: Decides(cs, LOAD, i) && op.id in th.metrics ==>
          th.metrics[op.id].load <= cs[i].maxLoad.value)
  }

  /** An operator is eligible exactly when it is active, supports the kernel, has capacity, covers the
      budget and meets the deciding bounds. */
  lemma EligibleExactlyWhen(th: Thalamus, op: Operator, req: Request)
    ensures Eligible(th, op, req) <==>
            && op.isActive && op.supportsKernel && op.maxConcurrent > 0 && op.budget >= req.budget
            && MeetsBounds(th, op, req.constraints)
  {
    var cs := req.constraints;
    FirstDecides(cs, STAKE);
    FirstDecides(cs, REPUTATION);
    FirstDecides(cs, REGION);
    FirstDecides(cs, LOAD);
    assert First(cs, (c: Constraint) => c.minStake) == First(cs, STAKE);
    assert First(cs, (c: Constraint) => c.minReputation) == First(cs, REPUTATION);
    assert First(cs, (c: Constraint) => c.region) == First(cs, REGION);
    assert First(cs, (c: Constraint) => c.maxLoad) == First(cs, LOAD);
  }

  /** An explicit redundancy is the number asked; without one the class decides. */
  lemma NumberAsked(req: Request)
    ensures req.redundancy > 0 ==> DetermineK(req) == req.redundancy
    ensures req.redundancy == 0 ==>
              && (req.qos == LowLatency <==> DetermineK(req) == 1) && (req.qos == Balanced <==> DetermineK(req) == 2)
              && (req.qos in {HighAssurance, DeterministicCritical} <==> DetermineK(req) == 3)
  {
  }

  // ---------- The hashes, without wrapping on the way ----------

  /** The tiebreak polynomial: the seed and then the bytes, base 31. */
  function Polynomial(id: seq<Byte>, seed: nat): (v: nat) {
    if id == [] then seed else Polynomial(id[..|id| - 1], seed) * 31 + id[|id| - 1]
  }

  lemma WrapStep(x: nat, b: nat, m: nat)
    requires m > 0
    ensures (x % m * 31 % m + b) % m == (x * 31 + b) % m
  {
    var q, r := x / m, x % m;
    var q', r' := r * 31 / m, r * 31 % m;
    var q'', r'' := (r' + b) / m, (r' + b) % m;
    assert x * 31 + b == m * (31 * q + q' + q'') + r'' by {
      assert x == m * q + r && r * 31 == m * q' + r' && r' + b == m * q'' + r'';
      assert m * (31 * q + q' + q'') == 31 * (m * q) + m * q' + m * q'';
    }
    ModUnique(x * 31 + b, m, 31 * q + q' + q'', r'');
  }

  function Exp31(i: nat): (v: nat) {
    if i == 0 then 1 else Exp31(i - 1) * 31
  }

  /** The job's bytes times rising powers of 31. */
  function ByteSum(id: seq<Byte>): (v: nat) {
    if id == [] then 0 else ByteSum(id[..|id| - 1]) + id[|id| - 1] * Exp31(|id| - 1)
  }

  lemma ModMul(a: nat, b: nat, m: nat)
    requires m > 0
    ensures b * (a % m) % m == b * a % m
  {
    var q, r := a / m, a % m;
    var q', r' := b * r / m, b * r % m;
    assert b * a == m * (b * q + q') + r' by {
      assert a == m * q + r && b * r == m * q' + r';
      assert b * (m * q + r) == m * (b * q) + b * r;
    }
    ModUnique(b * a, m, b * q + q', r');
  }

  lemma ModAdd(a: nat, b: nat, m: nat)
    requires m > 0
    ensures (a % m + b % m) % m == (a + b) % m
  {
    var q, r := (a % m + b % m) / m, (a % m + b % m) % m;
    assert a + b == m * (a / m + b / m + q) + r by {
      assert a == m * (a / m) + a % m && b == m * (b / m) + b % m;
    }
    ModUnique(a + b, m, a / m + b / m + q, r);
  }

  lemma {:induction false} PowerWraps(i: nat)
    ensures Pow31(i) == Exp31(i) % U64_LIMIT
  {
    if i > 0 {
      PowerWraps(i - 1);
      ModMul(Exp31(i - 1), 31, U64_LIMIT);
    }
  }

  lemma {:induction false} SumWraps(id: seq<Byte>)
    ensures SeedSum(id) == ByteSum(id) % U64_LIMIT
  {
    if id != [] {
      var n := |id| - 1;
      SumWraps(id[..n]);
      PowerWraps(n);
      ModMul(Exp31(n), id[n], U64_LIMIT);
      ModAdd(ByteSum(id[..n]), id[n] * Exp31(n), U64_LIMIT);
    }
  }

  /** The seed is the byte sum plus 37 times the height, wrapped once. */
  lemma SeedIsSum(jobId: Id, height: nat)
    ensures SeedOf(jobId, height) == (ByteSum(jobId) + height * 37) % U64_LIMIT
  {
    SumWraps(jobId);
    ModAdd(ByteSum(jobId), height * 37, U64_LIMIT);
  }

  /** Wrapping at every step or once at the end is the same. */
  lemma {:induction false} TiebreakIsPolynomial(id: seq<Byte>, seed: nat)
    requires seed < U64_LIMIT
    ensures TiebreakHash(id, seed) == Polynomial(id, seed) % U64_LIMIT
  {
    if id == [] {
      ModUnique(seed, U64_LIMIT, 0, seed);
    } else {
      TiebreakIsPolynomial(id[..|id| - 1], seed);
      WrapStep(Polynomial(id[..|id| - 1], seed), id[|id| - 1], U64_LIMIT);
    }
  }
}
