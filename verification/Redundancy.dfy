/** Redundant execution results of crates/intelligence/src/verification.rs: the verdict over their
    hashes, and the counter of failed challenges that escalates a job. */
module Redundancy {
  import opened Prelude

  type Hash = nat

  datatype Policy = Parallel | Sequential | Majority | FirstValid

  datatype Verdict =
    | SingleResult(hash: Hash)
    | MajorityOf(hash: Hash, count: nat)
    | AllResults(hashes: seq<Hash>)
    | Split(n: nat)
    | Inconclusive

  /** A result is an operator index with the hash it reported. */
  type Result = (nat, Hash)

  function Hashes(results: seq<Result>): (hs: seq<Hash>)
    ensures |hs| == |results|
  {
    seq(|results|, i requires 0 <= i < |results| => results[i].1)
  }

  function Count(hs: seq<Hash>, h: Hash): (n: nat) {
    if hs == [] then 0 else Count(hs[..|hs| - 1], h) + if hs[|hs| - 1] == h then 1 else 0
  }

  /** Two different hashes cannot both hold more than half of the results. */
  lemma {:induction false} CountsAddUp(hs: seq<Hash>, a: Hash, b: Hash)
    requires a != b
    ensures Count(hs, a) + Count(hs, b) <= |hs|
  {
    if hs != [] {
      CountsAddUp(hs[..|hs| - 1], a, b);
    }
  }

  lemma {:induction false} CountedOccurs(hs: seq<Hash>, h: Hash)
    ensures Count(hs, h) > 0 <==> h in hs
  {
    if hs != [] {
      CountedOccurs(hs[..|hs| - 1], h);
      assert hs == hs[..|hs| - 1] + [hs[|hs| - 1]];
    }
  }

  method CountHashes(results: seq<Result>) returns (counts: map<Hash, nat>)
    ensures forall h :: h in counts <==> h in Hashes(results)
    ensures forall h :: h in counts ==> counts[h] == Count(Hashes(results), h)
  {
    counts := map[];
    ghost var hs := Hashes(results);
    for i := 0 to |results|
      invariant forall h :: h in counts <==> h in hs[..i]
      invariant forall h :: h in counts ==> counts[h] == Count(hs[..i], h)
    {
      var h := results[i].1;
      assert hs[..i + 1] == hs[..i] + [h] && hs[..i + 1][..i] == hs[..i];
      if h !in counts {
        CountedOccurs(hs[..i], h);
        counts := counts[h := 0];
      }
      counts := counts[h := counts[h] + 1];
    }
    assert hs[..|results|] == hs;
  }

  /** The verdict names the hash with more than half of the results, with its count, or a split. */
  ghost predicate IsMajorityVerdict(results: seq<Result>, v: Verdict) {
    && (v.MajorityOf? || v == Split(|results|))
    && forall h: nat, c: nat :: v == MajorityOf(h, c) <==> c == Count(Hashes(results), h) && 2 * c > |results|
  }

  /** The counted hashes are scanned in whatever order the hash map yields them, yet the verdict is
      determined: the hash with more than half of the results, or a split. */
  method Decide(results: seq<Result>) returns (v: Verdict)
    ensures IsMajorityVerdict(results, v)
  {
    var counts := CountHashes(results);
    ghost var hs := Hashes(results);
    var majority := |results| / 2 + 1;
    var rest := counts.Keys;
    while rest != {}
      invariant rest <= counts.Keys
      invariant forall h :: h in counts && h !in rest ==> counts[h] < majority
      decreases rest
    {
      var h :| h in rest;
      if counts[h] >= majority {
        forall g, c: nat
          ensures MajorityOf(h, counts[h]) == MajorityOf(g, c) <==> c == Count(hs, g) && 2 * c > |results|
        {
          if g != h {
            CountsAddUp(hs, g, h);
          }
        }
        return MajorityOf(h, counts[h]);
      }
      rest := rest - {h};
    }
    forall h ensures 2 * Count(hs, h) <= |results| {
      CountedOccurs(hs, h);
    }
    v := Split(|results|);
  }

  method EvaluateRedundancy(policy: Policy, results: seq<Result>) returns (v: Verdict)
    ensures v == Inconclusive <==> results == []
    ensures results != [] && policy == Majority ==> IsMajorityVerdict(results, v)
    ensures results != [] && (policy == Sequential || policy == FirstValid) ==> v == SingleResult(results[0].1)
    ensures results != [] && policy == Parallel ==>
              v == if |results| == 1 then SingleResult(results[0].1) else AllResults(Hashes(results))
  {
    if results == [] {
      return Inconclusive;
    }
    match policy
    case Parallel =>
      v := if |results| == 1 then SingleResult(results[0].1) else AllResults(Hashes(results));
    case Sequential => v := SingleResult(results[0].1);
    case Majority => v := Decide(results);
    case FirstValid => v := SingleResult(results[0].1);
  }

  /** Any two verdicts meeting the majority contract are equal: map order cannot matter. */
  lemma VerdictDetermined(results: seq<Result>, v: Verdict, w: Verdict)
    requires IsMajorityVerdict(results, v) && IsMajorityVerdict(results, w)
    ensures v == w
  {
    if v.MajorityOf? {
      assert v == MajorityOf(v.hash, v.count);
    } else if w.MajorityOf? {
      assert w == MajorityOf(w.hash, w.count);
    }
  }

  // ---------- Challenge counting ----------

  /** The verification engine's challenge counter over a run of verification results: a job escalates
      on exactly its threshold-th mismatch and every later one. */
  function Mismatches(results: seq<(nat, bool)>, job: nat): (n: nat) {
    if results == [] then 0
    else Mismatches(results[..|results| - 1], job)
         + if results[|results| - 1] == (job, false) then 1 else 0
  }

  datatype JobStatus = Pending | Challenged | Escalated | Completed | NotFound

  class VerificationEngine {
    var jobs: map<nat, JobStatus>
    var challengeCounter: map<nat, nat>
    const threshold: nat
    ghost var history: seq<(nat, bool)>

    /** The counter of a job is the number of mismatches recorded for it, known job or not. */
    ghost predicate Valid()
      reads this
    {
      forall job :: (if job in challengeCounter then challengeCounter[job] else 0) == Mismatches(history, job)
    }

    constructor (threshold: nat)
      ensures Valid() && history == [] && jobs == map[] && this.threshold == threshold
    {
      jobs, challengeCounter, this.threshold, history := map[], map[], threshold, [];
    }

    method Schedule(job: nat)
      requires Valid()
      modifies this`jobs
      ensures Valid() && jobs == old(jobs)[job := Pending]
    {
      jobs := jobs[job := Pending];
    }

    method CompleteVerification(job: nat, matches: bool) returns (status: JobStatus)
      requires Valid()
      modifies this
      ensures Valid() && history == old(history) + [(job, matches)]
      ensures job !in old(jobs) ==> status == NotFound && jobs == old(jobs)
      ensures job in old(jobs) ==> jobs == old(jobs)[job := status] && status != NotFound
      ensures job in old(jobs) ==>
                (status == Completed <==> matches)
                && (status == Escalated <==> !matches && Mismatches(history, job) >= threshold)
    {
      history := history + [(job, matches)];
      assert history[..|history| - 1] == old(history);
      var escalate := false;
      if !matches {
        var n := if job in challengeCounter then challengeCounter[job] else 0;
        challengeCounter := challengeCounter[job := n + 1];
        escalate := n + 1 >= threshold;
      }
      if job !in jobs {
        return NotFound;
      }
      status := if escalate then Escalated else if !matches then Challenged else Completed;
      jobs := jobs[job := status];
    }
  }
}
