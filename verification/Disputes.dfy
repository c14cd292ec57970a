/** The dispute engine of crates/intelligence/src/dispute.rs: one dispute per job, a one-way status
    machine, escrows frozen while a dispute is open, and the split of slashed amounts. Dispute ids
    are an arbitrary hash; u64 arithmetic wraps as in a release build. */
module Disputes {
  import opened Prelude

  type Id = nat

  datatype Status = Pending | ValidationPhase | VerificationEscalation | Adjudicating | Resolved | Appealed | Canceled

  datatype EscrowStatus = Active | Frozen | Released | Refunded | PartiallyRefunded

  datatype Escrow = Escrow(amount: nat, status: EscrowStatus, recipient: Id)

  datatype Resolution = Resolution(fraud: bool, slashed: nat, challengerShare: nat, verifierShare: nat,
                                   treasuryShare: nat, penalty: nat, block: nat)

  datatype Appeal = Appeal(bond: nat, block: nat)

  datatype Claim = Claim(job: Id, receipt: Id, challenger: Id, bond: nat, recomputed: Id, original: Id, block: nat)

  datatype Dispute = Dispute(claim: Claim, status: Status, level: nat,
                             resolution: Option<Resolution>, appeal: Option<Appeal>)

  datatype Config = Config(minBond: nat, minSlash: nat, alpha: nat, beta: nat, idOf: (Id, Id, Id, nat) -> Id)

  datatype Engine = Engine(disputes: map<Id, Dispute>, escrows: map<Id, Escrow>,
                           bonds: map<Id, nat>, byJob: map<Id, seq<Id>>)

  datatype Error = InsufficientBond | OutsideDisputeWindow | DisputeAlreadyExists | DisputeNotFound
                 | InvalidDisputeState | OutsideAppealWindow

  const EMPTY: Engine := Engine(map[], map[], map[], map[])

  function Mul64(a: nat, b: nat): (r: nat)
    ensures r < U64_LIMIT
  {
    a * b % U64_LIMIT
  }

  function Add64(a: nat, b: nat): (r: nat)
    ensures r < U64_LIMIT
  {
    (a + b) % U64_LIMIT
  }

  // ---------- Slashing ----------

  const CHALLENGER_RATIO := 3000
  const VERIFIER_RATIO := 3000
  const TREASURY_RATIO := 4000

  function Share(slashed: nat, ratio: nat): (r: nat) {
    Mul64(slashed, ratio) / 10000
  }

  function ShareTotal(slashed: nat): (r: nat) {
    Share(slashed, CHALLENGER_RATIO) + Share(slashed, VERIFIER_RATIO) + Share(slashed, TREASURY_RATIO)
  }

  lemma ShareBound(slashed: nat, ratio: nat)
    ensures 10000 * Share(slashed, ratio) <= slashed * ratio
    ensures slashed * ratio < U64_LIMIT ==> 10000 * Share(slashed, ratio) > slashed * ratio - 10000
    ensures slashed * ratio >= U64_LIMIT ==> 10000 * Share(slashed, ratio) <= slashed * ratio - U64_LIMIT
  {
    var x := slashed * ratio;
    if x < U64_LIMIT {
      assert x % U64_LIMIT == x;
    } else {
      WrapLoses(x);
    }
  }

  lemma WrapLoses(x: nat)
    requires x >= U64_LIMIT
    ensures x % U64_LIMIT <= x - U64_LIMIT
  {
    assert x % U64_LIMIT == (x - U64_LIMIT) % U64_LIMIT;
  }

  /** The three shares never exceed the slashed amount, and fall short of it by at most 2 exactly
      when the largest product fits into 64 bits. */
  lemma SharesConserve(slashed: nat)
    ensures ShareTotal(slashed) <= slashed
    ensures ShareTotal(slashed) + 2 >= slashed <==> slashed * TREASURY_RATIO < U64_LIMIT
  {
    ShareBound(slashed, CHALLENGER_RATIO);
    ShareBound(slashed, VERIFIER_RATIO);
    ShareBound(slashed, TREASURY_RATIO);
  }

  /** The smallest amount whose shares wrap around and lose more than rounding. */
  lemma SharesLost()
    ensures var slashed := U64_LIMIT / TREASURY_RATIO + 1;
            ShareTotal(slashed) + 2 < slashed && ShareTotal(slashed - 1) + 2 >= slashed - 1
  {
    SharesConserve(U64_LIMIT / TREASURY_RATIO + 1);
    SharesConserve(U64_LIMIT / TREASURY_RATIO);
  }

  function SlashAmount(cfg: Config, budget: nat, cost: nat): (r: nat) {
    Max(Max(cfg.minSlash, Mul64(budget, cfg.alpha) / 10000), Mul64(cost, cfg.beta) / 10000)
  }

  // ---------- Steps ----------

  datatype Op =
    | InitEscrow(job: Id, amount: nat, recipient: Id)
    | Initiate(claim: Claim, receiptBlock: nat, window: nat)
    | Escalate(id: Id, level: nat)
    | Submit(id: Id)
    | Resolve(id: Id, budget: nat, cost: nat, block: nat)
    | LodgeAppeal(id: Id, bond: nat, block: nat)

  function Needs(e: Engine, id: Id, status: Status): (r: Option<Error>) {
    if id !in e.disputes then Some(DisputeNotFound)
    else if e.disputes[id].status != status then Some(InvalidDisputeState)
    else None
  }

  /** Why a step is refused, if it is; the checks in the order the source makes them. */
  function Refusal(cfg: Config, e: Engine, op: Op): (r: Option<Error>) {
    match op
    case InitEscrow(_, _, _) => None
    case Initiate(c, receiptBlock, window) =>
      if c.bond < cfg.minBond then Some(InsufficientBond)
      else if c.block > Add64(receiptBlock, window) then Some(OutsideDisputeWindow)
      else if c.job in e.byJob && e.byJob[c.job] != [] then Some(DisputeAlreadyExists)
      else None
    case Escalate(id, _) => Needs(e, id, ValidationPhase)
    case Submit(id) => Needs(e, id, VerificationEscalation)
    case Resolve(id, _, _, _) => Needs(e, id, Adjudicating)
    case LodgeAppeal(id, _, block) =>
      var bad := Needs(e, id, Resolved);
      if bad.Some? then bad
      else
        var r := e.disputes[id].resolution;
        if r.Some? && block > Add64(r.value.block, 50) then Some(OutsideAppealWindow) else None
  }

  function Ruling(cfg: Config, c: Claim, budget: nat, cost: nat, block: nat): (r: Resolution) {
    var fraud := c.recomputed != c.original;
    var slashed := if fraud then SlashAmount(cfg, budget, cost) else c.bond;
    Resolution(fraud, slashed, Share(slashed, CHALLENGER_RATIO), Share(slashed, VERIFIER_RATIO),
               Share(slashed, TREASURY_RATIO), if fraud then slashed else 0, block)
  }

  function SetEscrow(escrows: map<Id, Escrow>, job: Id, status: EscrowStatus): (r: map<Id, Escrow>) {
    if job in escrows then escrows[job := escrows[job].(status := status)] else escrows
  }

  function DisputeId(cfg: Config, c: Claim): (id: Id) {
    cfg.idOf(c.job, c.receipt, c.challenger, c.block)
  }

  function Open(cfg: Config, e: Engine, c: Claim): (e': Engine) {
    var id := DisputeId(cfg, c);
    Engine(e.disputes[id := Dispute(c, ValidationPhase, 0, None, None)],
           SetEscrow(e.escrows, c.job, Frozen),
           e.bonds[c.challenger := c.bond],
           e.byJob[c.job := (if c.job in e.byJob then e.byJob[c.job] else []) + [id]])
  }

  function Close(cfg: Config, e: Engine, id: Id, budget: nat, cost: nat, block: nat): (e': Engine)
    requires id in e.disputes
  {
    var d := e.disputes[id];
    var c := d.claim;
    var r := Ruling(cfg, c, budget, cost, block);
    Engine(e.disputes[id := d.(status := Resolved, resolution := Some(r))],
           SetEscrow(e.escrows, c.job, if r.fraud then Refunded else Released),
           if r.fraud then e.bonds - {c.challenger}
           else if c.challenger in e.bonds then e.bonds[c.challenger := SaturatingSub(e.bonds[c.challenger], r.slashed)]
           else e.bonds,
           e.byJob)
  }

  function Perform(cfg: Config, e: Engine, op: Op): (e': Engine)
    requires Refusal(cfg, e, op).None?
  {
    match op
    case InitEscrow(job, amount, recipient) => e.(escrows := e.escrows[job := Escrow(amount, Active, recipient)])
    case Initiate(c, _, _) => Open(cfg, e, c)
    case Escalate(id, level) =>
      e.(disputes := e.disputes[id := e.disputes[id].(status := VerificationEscalation, level := level)])
    case Submit(id) => e.(disputes := e.disputes[id := e.disputes[id].(status := Adjudicating)])
    case Resolve(id, budget, cost, block) => Close(cfg, e, id, budget, cost, block)
    case LodgeAppeal(id, bond, block) =>
      e.(disputes := e.disputes[id := e.disputes[id].(status := Appealed, appeal := Some(Appeal(bond, block)))])
  }

  function Step(cfg: Config, e: Engine, op: Op): (e': Engine) {
    if Refusal(cfg, e, op).Some? then e else Perform(cfg, e, op)
  }

  // ---------- What every run keeps ----------

  /** Dispute ids of different jobs never collide. */
  ghost predicate IdsSeparateJobs(cfg: Config) {
    forall a, b :: IdsSeparate(cfg, a, b)
  }

  ghost predicate IdsSeparate(cfg: Config, a: Claim, b: Claim) {
    DisputeId(cfg, a) == DisputeId(cfg, b) ==> a.job == b.job
  }

  predicate IsOpen(s: Status) {
    s == ValidationPhase || s == VerificationEscalation || s == Adjudicating
  }

  predicate IsSettled(s: Status) {
    s == Resolved || s == Appealed
  }

  /** Jobs and disputes match one to one. */
  ghost predicate OnePerJob(cfg: Config, e: Engine) {
    && (forall job :: job in e.byJob ==>
          |e.byJob[job]| == 1 && e.byJob[job][0] in e.disputes && e.disputes[e.byJob[job][0]].claim.job == job)
    && (forall id :: id in e.disputes ==>
          id == DisputeId(cfg, e.disputes[id].claim)
          && e.disputes[id].claim.job in e.byJob && e.byJob[e.disputes[id].claim.job] == [id])
  }

  /** A dispute is open or settled, and has a resolution exactly when it is settled. */
  ghost predicate ResolvedRight(e: Engine) {
    forall id :: id in e.disputes ==>
      && (IsOpen(e.disputes[id].status) || IsSettled(e.disputes[id].status))
      && (e.disputes[id].resolution.Some? <==> IsSettled(e.disputes[id].status))
  }

  ghost predicate FrozenFor(e: Engine, id: Id)
    requires id in e.disputes
  {
    var d := e.disputes[id];
    IsOpen(d.status) && d.claim.job in e.escrows ==> e.escrows[d.claim.job].status == Frozen
  }

  ghost predicate FrozenWhileOpen(e: Engine) {
    forall id :: id in e.disputes ==> FrozenFor(e, id)
  }

  ghost predicate JobsOk(cfg: Config, e: Engine) {
    OnePerJob(cfg, e) && ResolvedRight(e)
  }

  /** Some dispute of the job is open. */
  ghost predicate Contested(e: Engine, job: Id) {
    exists id :: id in e.disputes && e.disputes[id].claim.job == job && IsOpen(e.disputes[id].status)
  }

  lemma NewIdIsFresh(cfg: Config, e: Engine, c: Claim)
    requires IdsSeparateJobs(cfg) && OnePerJob(cfg, e) && c.job !in e.byJob
    ensures DisputeId(cfg, c) !in e.disputes
  {
    var id := DisputeId(cfg, c);
    assert id in e.disputes ==> IdsSeparate(cfg, e.disputes[id].claim, c);
  }

  lemma OpenKeepsJobs(cfg: Config, e: Engine, c: Claim)
    requires OnePerJob(cfg, e) && c.job !in e.byJob && DisputeId(cfg, c) !in e.disputes
    ensures OnePerJob(cfg, Open(cfg, e, c))
  {
    var id := DisputeId(cfg, c);
    assert [] + [id] == [id];
  }

  lemma ReplaceKeepsJobs(cfg: Config, e: Engine, e': Engine)
    requires OnePerJob(cfg, e) && e'.disputes.Keys == e.disputes.Keys && e'.byJob == e.byJob
    requires forall k :: k in e.disputes ==> e'.disputes[k].claim == e.disputes[k].claim
    ensures OnePerJob(cfg, e')
  {
  }

  /** Apart from opening, no step adds, drops or reassigns a dispute. */
  lemma ClaimsStand(cfg: Config, e: Engine, op: Op)
    requires !op.Initiate?
    ensures var e' := Step(cfg, e, op);
            && e'.disputes.Keys == e.disputes.Keys && e'.byJob == e.byJob
            && forall k :: k in e.disputes ==> e'.disputes[k].claim == e.disputes[k].claim
  {
  }

  lemma StepKeepsResolutions(cfg: Config, e: Engine, op: Op)
    requires ResolvedRight(e)
    ensures ResolvedRight(Step(cfg, e, op))
  {
  }

  /** Every step keeps one dispute per job and a resolution exactly on the settled ones, whatever
      happens to the escrows. */
  lemma StepKeepsJobs(cfg: Config, e: Engine, op: Op)
    requires IdsSeparateJobs(cfg) && JobsOk(cfg, e)
    ensures JobsOk(cfg, Step(cfg, e, op))
  {
    StepKeepsResolutions(cfg, e, op);
    if !op.Initiate? {
      ClaimsStand(cfg, e, op);
      ReplaceKeepsJobs(cfg, e, Step(cfg, e, op));
    } else if Refusal(cfg, e, op).None? {
      NewIdIsFresh(cfg, e, op.claim);
      OpenKeepsJobs(cfg, e, op.claim);
    }
  }

  // ---------- The freeze ----------

  lemma OpenKeepsFreeze(cfg: Config, e: Engine, c: Claim)
    requires FrozenWhileOpen(e)
    ensures FrozenWhileOpen(Open(cfg, e, c))
  {
    var e' := Open(cfg, e, c);
    forall id | id in e'.disputes ensures FrozenFor(e', id) {
      if id != DisputeId(cfg, c) {
        assert FrozenFor(e, id);
      }
    }
  }

  lemma TouchKeepsFreeze(e: Engine, id: Id, d: Dispute)
    requires FrozenWhileOpen(e) && id in e.disputes && d.claim == e.disputes[id].claim
    requires IsOpen(d.status) ==> IsOpen(e.disputes[id].status)
    ensures FrozenWhileOpen(e.(disputes := e.disputes[id := d]))
  {
    var e' := e.(disputes := e.disputes[id := d]);
    forall k | k in e'.disputes ensures FrozenFor(e', k) {
      assert FrozenFor(e, k);
    }
  }

  lemma CloseKeepsFreeze(cfg: Config, e: Engine, id: Id, budget: nat, cost: nat, block: nat)
    requires OnePerJob(cfg, e) && FrozenWhileOpen(e) && id in e.disputes
    ensures FrozenWhileOpen(Close(cfg, e, id, budget, cost, block))
  {
    var e' := Close(cfg, e, id, budget, cost, block);
    forall k | k in e'.disputes ensures FrozenFor(e', k) {
      assert FrozenFor(e, k);
      if k != id {
        assert e.byJob[e.disputes[k].claim.job] == [k] && e.byJob[e.disputes[id].claim.job] == [id];
      }
    }
  }

  /** Exactly when setting up an escrow keeps the freeze: when the job has no open dispute. */
  lemma InitKeepsFreezeWhen(cfg: Config, e: Engine, job: Id, amount: nat, recipient: Id)
    requires FrozenWhileOpen(e)
    ensures FrozenWhileOpen(Step(cfg, e, InitEscrow(job, amount, recipient))) <==> !Contested(e, job)
  {
    var e' := Step(cfg, e, InitEscrow(job, amount, recipient));
    forall id | id in e'.disputes
      ensures FrozenFor(e', id) <==> (e.disputes[id].claim.job == job ==> !IsOpen(e.disputes[id].status))
    {
      assert FrozenFor(e, id);
    }
  }

  /** A step loses the freeze exactly when it sets up an escrow of a job whose dispute is open. */
  lemma StepKeepsFreezeWhen(cfg: Config, e: Engine, op: Op)
    requires OnePerJob(cfg, e) && FrozenWhileOpen(e)
    ensures FrozenWhileOpen(Step(cfg, e, op)) <==> !(op.InitEscrow? && Contested(e, op.job))
  {
    if Refusal(cfg, e, op).None? {
      match op
      case InitEscrow(job, amount, recipient) => InitKeepsFreezeWhen(cfg, e, job, amount, recipient);
      case Initiate(c, _, _) => OpenKeepsFreeze(cfg, e, c);
      case Resolve(id, budget, cost, block) => CloseKeepsFreeze(cfg, e, id, budget, cost, block);
      case Escalate(id, level) =>
        TouchKeepsFreeze(e, id, e.disputes[id].(status := VerificationEscalation, level := level));
      case Submit(id) => TouchKeepsFreeze(e, id, e.disputes[id].(status := Adjudicating));
      case LodgeAppeal(id, bond, block) =>
        TouchKeepsFreeze(e, id, e.disputes[id].(status := Appealed, appeal := Some(Appeal(bond, block))));
    }
  }

  // ---------- Runs ----------

  function Run(cfg: Config, ops: seq<Op>): (e: Engine) {
    if ops == [] then EMPTY else Step(cfg, Run(cfg, ops[..|ops| - 1]), ops[|ops| - 1])
  }

  /** In every run each job has at most one dispute, and a dispute has a resolution exactly when it
      is resolved or appealed. */
  lemma {:induction false} RunKeepsJobs(cfg: Config, ops: seq<Op>)
    requires IdsSeparateJobs(cfg)
    ensures JobsOk(cfg, Run(cfg, ops))
  {
    if ops != [] {
      RunKeepsJobs(cfg, ops[..|ops| - 1]);
      StepKeepsJobs(cfg, Run(cfg, ops[..|ops| - 1]), ops[|ops| - 1]);
    }
  }

  /** No escrow is set up while its job has an open dispute. */
  ghost predicate Orderly(cfg: Config, ops: seq<Op>) {
    forall i :: 0 <= i < |ops| && ops[i].InitEscrow? ==> !Contested(Run(cfg, ops[..i]), ops[i].job)
  }

  ghost predicate AlwaysFrozen(cfg: Config, ops: seq<Op>) {
    forall i :: 0 <= i <= |ops| ==> FrozenWhileOpen(Run(cfg, ops[..i]))
  }

  /** Both conditions hold of a run exactly when they hold of its beginning and at its end. */
  lemma ConditionsSplit(cfg: Config, ops: seq<Op>)
    requires ops != []
    ensures var prev, op := ops[..|ops| - 1], ops[|ops| - 1];
            && (AlwaysFrozen(cfg, ops) <==> AlwaysFrozen(cfg, prev) && FrozenWhileOpen(Run(cfg, ops)))
            && (Orderly(cfg, ops) <==>
                  Orderly(cfg, prev) && !(op.InitEscrow? && Contested(Run(cfg, prev), op.job)))
            && (AlwaysFrozen(cfg, prev) ==> FrozenWhileOpen(Run(cfg, prev)))
  {
    var prev := ops[..|ops| - 1];
    assert forall i :: 0 <= i <= |prev| ==> prev[..i] == ops[..i];
    assert ops[..|ops|] == ops && prev[..|prev|] == prev;
  }

  /** Escrows stay frozen under open disputes at every point of a run exactly when the run never
      sets up an escrow of a job whose dispute is open. */
  lemma {:induction false} FrozenThroughout(cfg: Config, ops: seq<Op>)
    requires IdsSeparateJobs(cfg)
    ensures AlwaysFrozen(cfg, ops) <==> Orderly(cfg, ops)
  {
    if ops != [] {
      var prev := ops[..|ops| - 1];
      ConditionsSplit(cfg, ops);
      FrozenThroughout(cfg, prev);
      if Orderly(cfg, prev) {
        RunKeepsJobs(cfg, prev);
        StepKeepsFreezeWhen(cfg, Run(cfg, prev), ops[|ops| - 1]);
      }
    }
  }

  lemma RunStep(cfg: Config, ops: seq<Op>, op: Op)
    ensures Run(cfg, ops + [op]) == Step(cfg, Run(cfg, ops), op)
  {
    assert (ops + [op])[..|ops|] == ops;
  }

  /** An escrow set up again after its job's dispute was opened comes back active. */
  lemma FreezeLost(cfg: Config) returns (setUp: Op, open: Op)
    ensures setUp == InitEscrow(1, 5, 0) && open == Initiate(Claim(1, 2, 3, cfg.minBond, 4, 5, 0), 0, 0)
    ensures FrozenWhileOpen(Run(cfg, [setUp] + [open]))
    ensures !FrozenWhileOpen(Run(cfg, [setUp] + [open] + [setUp]))
  {
    var c := Claim(1, 2, 3, cfg.minBond, 4, 5, 0);
    setUp, open := InitEscrow(1, 5, 0), Initiate(c, 0, 0);
    var id := DisputeId(cfg, c);
    RunStep(cfg, [], setUp);
    RunStep(cfg, [setUp], open);
    RunStep(cfg, [setUp] + [open], setUp);
    assert [] + [setUp] == [setUp];
    var before, after := Run(cfg, [setUp] + [open]), Run(cfg, [setUp] + [open] + [setUp]);
    assert before.disputes == map[id := Dispute(c, ValidationPhase, 0, None, None)];
    assert FrozenFor(before, id);
    assert !FrozenFor(after, id);
  }

  /** How many times the run has resolved a dispute. */
  function TimesResolved(cfg: Config, ops: seq<Op>, id: Id): (n: nat) {
    if ops == [] then 0
    else
      var prev, op := ops[..|ops| - 1], ops[|ops| - 1];
      TimesResolved(cfg, prev, id)
      + if op.Resolve? && op.id == id && Refusal(cfg, Run(cfg, prev), op).None? then 1 else 0
  }

  predicate Settled(e: Engine, id: Id) {
    id in e.disputes && IsSettled(e.disputes[id].status)
  }

  /** A dispute becomes settled only by a successful resolve, which finds it unsettled, and it then
      keeps its resolution. */
  lemma SettledStep(cfg: Config, e: Engine, op: Op, id: Id)
    requires IdsSeparateJobs(cfg) && JobsOk(cfg, e)
    ensures var resolves := op.Resolve? && op.id == id && Refusal(cfg, e, op).None?;
            && (Settled(Step(cfg, e, op), id) <==> Settled(e, id) || resolves)
            && !(resolves && Settled(e, id))
    ensures Settled(e, id) ==> Step(cfg, e, op).disputes[id].resolution == e.disputes[id].resolution
  {
    if op.Initiate? && Refusal(cfg, e, op).None? {
      assert op.claim.job !in e.byJob;
      NewIdIsFresh(cfg, e, op.claim);
    }
  }

  /** A dispute is resolved at most once, and has been exactly when it is settled. */
  lemma {:induction false} ResolvedAtMostOnce(cfg: Config, ops: seq<Op>, id: Id)
    requires IdsSeparateJobs(cfg)
    ensures TimesResolved(cfg, ops, id) == if Settled(Run(cfg, ops), id) then 1 else 0
  {
    if ops != [] {
      var prev, op := ops[..|ops| - 1], ops[|ops| - 1];
      ResolvedAtMostOnce(cfg, prev, id);
      RunKeepsJobs(cfg, prev);
      SettledStep(cfg, Run(cfg, prev), op, id);
    }
  }

  // ---------- What a resolution says ----------

  /** Fraud was committed exactly when recomputing gave another hash than the receipt claims. */
  predicate HashesDiffer(c: Claim) {
    c.recomputed != c.original
  }

  /** One share of a slashed amount, rounded down, by its defining inequality. */
  ghost predicate IsShare(share: nat, slashed: nat, ratio: nat) {
    slashed * ratio < U64_LIMIT ==> 10000 * share <= slashed * ratio < 10000 * (share + 1)
  }

  /** A resolution judges the claim's own hashes: fraud charges the operator a penalty of at least the
      minimum, no fraud costs the challenger its bond and the operator nothing. Three tenths of the
      slashed amount go to the challenger, three to the verifiers and four to the treasury. */
  ghost predicate Just(cfg: Config, c: Claim, r: Resolution) {
    && (r.fraud <==> HashesDiffer(c))
    && (HashesDiffer(c) ==> r.penalty == r.slashed >= cfg.minSlash)
    && (!HashesDiffer(c) ==> r.penalty == 0 && r.slashed == c.bond)
    && IsShare(r.challengerShare, r.slashed, 3000) && IsShare(r.verifierShare, r.slashed, 3000)
    && IsShare(r.treasuryShare, r.slashed, 4000)
  }

  /** The slashed amount is the largest of the minimum and the two parts, each rounded down. */
  lemma SlashIsLargest(cfg: Config, budget: nat, cost: nat)
    ensures var x, a, b := SlashAmount(cfg, budget, cost), Mul64(budget, cfg.alpha), Mul64(cost, cfg.beta);
            && x >= cfg.minSlash && 10000 * (x + 1) > a && 10000 * (x + 1) > b
            && (x == cfg.minSlash || 10000 * x <= a || 10000 * x <= b)
  {
  }

  lemma RulingIsJust(cfg: Config, c: Claim, budget: nat, cost: nat, block: nat)
    ensures Just(cfg, c, Ruling(cfg, c, budget, cost, block))
  {
    var r := Ruling(cfg, c, budget, cost, block);
    SlashIsLargest(cfg, budget, cost);
    ShareBound(r.slashed, 3000);
    ShareBound(r.slashed, 4000);
  }

  /** What resolving does, in the claim's terms: the dispute gets a just resolution of that block, the
      job's escrow is refunded on fraud and released otherwise, and the challenger's frozen bond is
      given back on fraud and reduced by the slashed amount otherwise. */
  lemma ResolveEffect(cfg: Config, e: Engine, id: Id, budget: nat, cost: nat, block: nat)
    requires id in e.disputes && e.disputes[id].status == Adjudicating
    ensures var e', c := Step(cfg, e, Resolve(id, budget, cost, block)), e.disputes[id].claim;
            && id in e'.disputes && e'.disputes[id].status == Resolved && e'.disputes[id].claim == c
            && e'.disputes[id].resolution.Some? && e'.disputes[id].resolution.value.block == block
            && Just(cfg, c, e'.disputes[id].resolution.value)
    ensures var e', c := Step(cfg, e, Resolve(id, budget, cost, block)), e.disputes[id].claim;
            var status := if HashesDiffer(c) then Refunded else Released;
            e'.escrows == if c.job !in e.escrows then e.escrows
                          else e.escrows[c.job := e.escrows[c.job].(status := status)]
    ensures var e', c := Step(cfg, e, Resolve(id, budget, cost, block)), e.disputes[id].claim;
            && (HashesDiffer(c) ==> e'.bonds == e.bonds - {c.challenger})
            && (!HashesDiffer(c) && c.challenger in e.bonds ==>
                  e'.bonds == e.bonds[c.challenger := SaturatingSub(e.bonds[c.challenger], c.bond)])
            && (!HashesDiffer(c) && c.challenger !in e.bonds ==> e'.bonds == e.bonds)
  {
    RulingIsJust(cfg, e.disputes[id].claim, budget, cost, block);
  }

  /** A fraud's penalty covers the parts of budget and cost the configuration asks for. */
  lemma PenaltyCovers(cfg: Config, e: Engine, id: Id, budget: nat, cost: nat, block: nat)
    requires id in e.disputes && e.disputes[id].status == Adjudicating && HashesDiffer(e.disputes[id].claim)
    ensures var d := Step(cfg, e, Resolve(id, budget, cost, block)).disputes[id];
            && d.resolution.Some?
            && 10000 * (d.resolution.value.penalty + 1) > Mul64(budget, cfg.alpha)
            && 10000 * (d.resolution.value.penalty + 1) > Mul64(cost, cfg.beta)
  {
    SlashIsLargest(cfg, budget, cost);
  }

  ghost predicate AllJust(cfg: Config, e: Engine) {
    forall id :: id in e.disputes && e.disputes[id].resolution.Some? ==>
      Just(cfg, e.disputes[id].claim, e.disputes[id].resolution.value)
  }

  lemma StepKeepsJust(cfg: Config, e: Engine, op: Op)
    requires AllJust(cfg, e)
    ensures AllJust(cfg, Step(cfg, e, op))
  {
    if op.Resolve? && Refusal(cfg, e, op).None? {
      RulingIsJust(cfg, e.disputes[op.id].claim, op.budget, op.cost, op.block);
    }
  }

  /** In every run every resolution is just: fraud exactly when the claim's hashes differ, a penalty
      only then, and the challenger's bond otherwise. */
  lemma {:induction false} ResolutionsAreJust(cfg: Config, ops: seq<Op>)
    ensures AllJust(cfg, Run(cfg, ops))
  {
    if ops != [] {
      ResolutionsAreJust(cfg, ops[..|ops| - 1]);
      StepKeepsJust(cfg, Run(cfg, ops[..|ops| - 1]), ops[|ops| - 1]);
    }
  }

  // ---------- When steps are accepted ----------

  /** In every run a dispute can be opened exactly with enough bond, within the window, for a job that
      has never been disputed; it then stands in validation, freezes the escrow and the bond. */
  lemma OpenedExactlyWhen(cfg: Config, ops: seq<Op>, c: Claim, receiptBlock: nat, window: nat)
    requires IdsSeparateJobs(cfg)
    ensures var e := Run(cfg, ops);
            Refusal(cfg, e, Initiate(c, receiptBlock, window)) == None
            <==> && c.bond >= cfg.minBond && c.block <= (receiptBlock + window) % U64_LIMIT
                 && forall id :: id in e.disputes ==> e.disputes[id].claim.job != c.job
    ensures var e, op := Run(cfg, ops), Initiate(c, receiptBlock, window);
            Refusal(cfg, e, op) == None ==>
              var e', id := Step(cfg, e, op), DisputeId(cfg, c);
              && id !in e.disputes && e'.disputes == e.disputes[id := Dispute(c, ValidationPhase, 0, None, None)]
              && e'.bonds == e.bonds[c.challenger := c.bond]
              && (c.job in e.escrows ==> e'.escrows == e.escrows[c.job := e.escrows[c.job].(status := Frozen)])
              && (c.job !in e.escrows ==> e'.escrows == e.escrows)
  {
    var e := Run(cfg, ops);
    RunKeepsJobs(cfg, ops);
    if c.job in e.byJob {
      var id := e.byJob[c.job][0];
      assert id in e.disputes && e.disputes[id].claim.job == c.job;
    } else {
      NewIdIsFresh(cfg, e, c);
      assert forall id :: id in e.disputes ==> e.disputes[id].claim.job in e.byJob;
    }
  }

  /** Each reason for refusing to open a dispute, in the order they are given: too small a bond, too late,
      or a job already disputed. */
  lemma WhyNotOpened(cfg: Config, ops: seq<Op>, c: Claim, receiptBlock: nat, window: nat)
    requires IdsSeparateJobs(cfg)
    ensures var e := Run(cfg, ops);
            var why := Refusal(cfg, e, Initiate(c, receiptBlock, window));
            var poor := c.bond < cfg.minBond;
            var late := c.block > (receiptBlock + window) % U64_LIMIT;
            && (why == Some(InsufficientBond) <==> poor) && (why == Some(OutsideDisputeWindow) <==> !poor && late)
            && (why == Some(DisputeAlreadyExists) <==>
                  !poor && !late && exists id :: id in e.disputes && e.disputes[id].claim.job == c.job)
  {
    OpenedExactlyWhen(cfg, ops, c, receiptBlock, window);
  }

  function Rank(s: Status): (n: nat) {
    match s
    case ValidationPhase => 1
    case VerificationEscalation => 2
    case Adjudicating => 3
    case Resolved => 4
    case Appealed => 5
    case _ => 0
  }

  /** The rank of the dispute an operation moves on. */
  function Moves(op: Op): (from: nat) {
    match op
    case Escalate(_, _) => 1
    case Submit(_) => 2
    case Resolve(_, _, _, _) => 3
    case LodgeAppeal(_, _, _) => 4
    case _ => 0
  }

  ghost predicate AppealInTime(d: Dispute, block: nat) {
    d.resolution.Some? && block <= (d.resolution.value.block + 50) % U64_LIMIT
  }

  /** In every run escalation, submission and resolution are accepted exactly in the phase before, and
      an appeal exactly on a resolved dispute within 50 blocks of its resolution. */
  lemma AcceptedInPhase(cfg: Config, ops: seq<Op>, op: Op)
    requires IdsSeparateJobs(cfg) && Moves(op) > 0
    ensures var e := Run(cfg, ops);
            Refusal(cfg, e, op) == None
            <==> && op.id in e.disputes && Rank(e.disputes[op.id].status) == Moves(op)
                 && (op.LodgeAppeal? ==> AppealInTime(e.disputes[op.id], op.block))
  {
    RunKeepsJobs(cfg, ops);
  }

  /** Each reason for refusing to move a dispute on: none of that id, another phase, or a late appeal. */
  lemma WhyNotMoved(cfg: Config, ops: seq<Op>, op: Op)
    requires IdsSeparateJobs(cfg) && Moves(op) > 0
    ensures var e := Run(cfg, ops);
            var why := Refusal(cfg, e, op);
            && (why == Some(DisputeNotFound) <==> op.id !in e.disputes)
            && (why == Some(InvalidDisputeState) <==>
                  op.id in e.disputes && Rank(e.disputes[op.id].status) != Moves(op))
            && (why == Some(OutsideAppealWindow) <==>
                  && op.LodgeAppeal? && op.id in e.disputes && e.disputes[op.id].status == Resolved
                  && !AppealInTime(e.disputes[op.id], op.block))
  {
    RunKeepsJobs(cfg, ops);
  }

  /** A dispute moves one phase at a time: validation, escalation, adjudication, resolution, appeal, each
      by its own operation, which touches no other dispute. */
  lemma PhasesInOrder(cfg: Config, e: Engine, op: Op)
    requires Moves(op) > 0 && Refusal(cfg, e, op) == None
    ensures op.id in e.disputes && Step(cfg, e, op).disputes.Keys == e.disputes.Keys
    ensures var d := Step(cfg, e, op).disputes[op.id];
            && Rank(d.status) == Moves(op) + 1
            && (op.Escalate? ==> d.level == op.level)
            && (op.LodgeAppeal? ==> d.appeal == Some(Appeal(op.bond, op.block)))
    ensures forall id :: id in e.disputes && id != op.id ==> Step(cfg, e, op).disputes[id] == e.disputes[id]
  {
  }

  // ---------- The engine in place ----------

  class DisputeEngine {
    var state: Engine
    const cfg: Config

    constructor (cfg: Config)
      ensures state == EMPTY && this.cfg == cfg && JobsOk(cfg, state) && FrozenWhileOpen(state)
    {
      state, this.cfg := EMPTY, cfg;
    }

    method SetUpEscrow(job: Id, amount: nat, recipient: Id)
      modifies this
      ensures state == Step(cfg, old(state), InitEscrow(job, amount, recipient))
    {
      state := state.(escrows := state.escrows[job := Escrow(amount, Active, recipient)]);
    }

    method InitiateDispute(claim: Claim, receiptBlock: nat, window: nat) returns (id: Id, error: Option<Error>)
      modifies this
      ensures error == Refusal(cfg, old(state), Initiate(claim, receiptBlock, window))
      ensures state == Step(cfg, old(state), Initiate(claim, receiptBlock, window))
      ensures error.None? ==> id == DisputeId(cfg, claim) && id in state.disputes && state.disputes[id].claim == claim
    {
      id := 0;
      if claim.bond < cfg.minBond { return id, Some(InsufficientBond); }
      if claim.block > Add64(receiptBlock, window) { return id, Some(OutsideDisputeWindow); }
      var listed := if claim.job in state.byJob then state.byJob[claim.job] else [];
      if listed != [] { return id, Some(DisputeAlreadyExists); }
      id := cfg.idOf(claim.job, claim.receipt, claim.challenger, claim.block);
      state := state.(disputes := state.disputes[id := Dispute(claim, ValidationPhase, 0, None, None)]);
      state := state.(byJob := state.byJob[claim.job := listed + [id]]);
      if claim.job in state.escrows {
        state := state.(escrows := state.escrows[claim.job := state.escrows[claim.job].(status := Frozen)]);
      }
      state := state.(bonds := state.bonds[claim.challenger := claim.bond]);
      error := None;
    }

    method EscalateToVerification(id: Id, level: nat) returns (error: Option<Error>)
      modifies this
      ensures error == Refusal(cfg, old(state), Escalate(id, level))
      ensures state == Step(cfg, old(state), Escalate(id, level))
    {
      error := Needs(state, id, ValidationPhase);
      if error.None? {
        var d := state.disputes[id];
        state := state.(disputes := state.disputes[id := d.(status := VerificationEscalation, level := level)]);
      }
    }

    method SubmitVerificationResult(id: Id) returns (error: Option<Error>)
      modifies this
      ensures error == Refusal(cfg, old(state), Submit(id)) && state == Step(cfg, old(state), Submit(id))
    {
      error := Needs(state, id, VerificationEscalation);
      if error.None? {
        state := state.(disputes := state.disputes[id := state.disputes[id].(status := Adjudicating)]);
      }
    }

    method ResolveDispute(id: Id, budget: nat, cost: nat, block: nat)
      returns (r: Option<Resolution>, error: Option<Error>)
      modifies this
      ensures error == Refusal(cfg, old(state), Resolve(id, budget, cost, block))
      ensures state == Step(cfg, old(state), Resolve(id, budget, cost, block))
      ensures error.None? ==> id in state.disputes && r.Some? && state.disputes[id].resolution == r
    {
      r, error := None, Needs(state, id, Adjudicating);
      if error.Some? { return; }
      var d := state.disputes[id];
      var c := d.claim;
      var fraud := c.recomputed != c.original;
      var slashed, penalty, action := c.bond, 0, Released;
      if fraud {
        slashed := SlashAmount(cfg, budget, cost);
        penalty, action := slashed, Refunded;
      }
      var ruling := Resolution(fraud, slashed, Share(slashed, CHALLENGER_RATIO), Share(slashed, VERIFIER_RATIO),
                               Share(slashed, TREASURY_RATIO), penalty, block);
      if c.job in state.escrows {
        state := state.(escrows := state.escrows[c.job := state.escrows[c.job].(status := action)]);
      }
      state := state.(disputes := state.disputes[id := d.(status := Resolved, resolution := Some(ruling))]);
      if fraud {
        state := state.(bonds := state.bonds - {c.challenger});
      } else if c.challenger in state.bonds {
        state := state.(bonds := state.bonds[c.challenger := SaturatingSub(state.bonds[c.challenger], slashed)]);
      }
      r := Some(ruling);
    }

    method SubmitAppeal(id: Id, bond: nat, block: nat) returns (error: Option<Error>)
      modifies this
      ensures error == Refusal(cfg, old(state), LodgeAppeal(id, bond, block))
      ensures state == Step(cfg, old(state), LodgeAppeal(id, bond, block))
    {
      error := Needs(state, id, Resolved);
      if error.Some? { return; }
      var d := state.disputes[id];
      if d.resolution.Some? && block > Add64(d.resolution.value.block, 50) {
        return Some(OutsideAppealWindow);
      }
      state := state.(disputes := state.disputes[id := d.(status := Appealed, appeal := Some(Appeal(bond, block)))]);
    }
  }
}
