/** The voting engine of crates/truth/src/consensus.rs as a state machine: each public method is one
    atomic step. Ids, hashes and signatures are plain numbers; the clock is a parameter. */
module Consensus {
  import opened Prelude

  datatype Phase = Idle | Proposing | PreVoting | PreCommitting | Finalized
  datatype VoteType = PreVote | PreCommit
  datatype Vote = Vote(validator: nat, height: nat, round: nat, kind: VoteType, block: nat, signature: nat)
  datatype Certificate = Certificate(block: nat, height: nat, round: nat, kind: VoteType,
                                     signatures: seq<(nat, nat)>, validatorSetHash: nat)
  datatype Validator = Validator(id: nat, active: bool)
  datatype Engine = Engine(height: nat, round: nat, phase: Phase, proposer: nat,
                           lockedBlock: Option<nat>, lockedQc: Option<Certificate>,
                           prevoteQc: Option<Certificate>, precommitQc: Option<Certificate>,
                           votes: map<nat, Vote>, lastCommit: nat)
  datatype Config = Config(validators: seq<Validator>, threshold: nat, setHash: nat)
  datatype Misfit = HeightMismatch | RoundMismatch | WrongVoteType
  datatype Reply = Rejected(why: Misfit) | Recorded | Certified(qc: Certificate)

  const INITIAL: Engine := Engine(0, 0, Idle, 0, None, None, None, None, map[], 0)

  function ActiveIds(vs: seq<Validator>): (ids: seq<nat>)
    ensures |ids| <= |vs|
  {
    if vs == [] then []
    else ActiveIds(vs[..|vs| - 1]) + if vs[|vs| - 1].active then [vs[|vs| - 1].id] else []
  }

  function QuorumSize(n: nat): (q: nat) {
    n * 2 / 3 + 1
  }

  function Proposer(vs: seq<Validator>, height: nat, round: nat): (id: nat) {
    var active := ActiveIds(vs);
    if active == [] then 0 else active[(height + round) % |active|]
  }

  predicate IsQuorum(qc: Certificate, total: nat, threshold: nat) {
    |qc.signatures| >= if threshold == 0 then QuorumSize(total) else threshold
  }

  /** The default quorum is strictly more than two thirds of the validators. */
  lemma QuorumIsTwoThirds(qc: Certificate, total: nat)
    ensures IsQuorum(qc, total, 0) <==> 3 * |qc.signatures| > 2 * total
  {
  }

  /** Leadership rotates: from any height and round, every active validator leads within the next
      n rounds, n being the number of active validators. */
  lemma EveryoneLeads(vs: seq<Validator>, height: nat, round: nat, i: nat) returns (wait: nat)
    requires i < |ActiveIds(vs)|
    ensures wait < |ActiveIds(vs)| && Proposer(vs, height, round + wait) == ActiveIds(vs)[i]
  {
    var n := |ActiveIds(vs)|;
    var x := height + round;
    wait := (i - x) % n;
    var q := (i - x) / n;
    assert x + wait == n * (-q) + i;
    ModUnique(x + wait, n, -q, i);
  }

  lemma {:induction false} ActiveIdsExactly(vs: seq<Validator>)
    ensures forall id :: id in ActiveIds(vs) <==> Validator(id, true) in vs
  {
    if vs != [] {
      ActiveIdsExactly(vs[..|vs| - 1]);
      assert vs == vs[..|vs| - 1] + [vs[|vs| - 1]];
    }
  }

  // ---------- Counting and certifying ----------

  function VotesOf(votes: map<nat, Vote>, kind: VoteType): (ids: set<nat>) {
    set id | id in votes && votes[id].kind == kind
  }

  function Backers(votes: map<nat, Vote>, kind: VoteType, block: nat): (ids: set<nat>) {
    set id | id in votes && votes[id].kind == kind && votes[id].block == block
  }

  function Names(signatures: seq<(nat, nat)>): (ids: seq<nat>)
    ensures |ids| == |signatures|
  {
    seq(|signatures|, i requires 0 <= i < |signatures| => signatures[i].0)
  }

  /** The signatures list exactly the backers of a block, each once, in any order. */
  ghost predicate Lists(signatures: seq<(nat, nat)>, votes: map<nat, Vote>, kind: VoteType, block: nat) {
    && Distinct(Names(signatures))
    && Elems(Names(signatures)) == Backers(votes, kind, block)
    && forall i :: 0 <= i < |signatures| ==>
         signatures[i].0 in votes && signatures[i].1 == votes[signatures[i].0].signature
  }

  /** The loop that gathers signatures, over the vote map in whatever order it yields. */
  method Gather(votes: map<nat, Vote>, kind: VoteType, block: nat) returns (signatures: seq<(nat, nat)>)
    ensures Lists(signatures, votes, kind, block)
  {
    signatures := [];
    var rest := votes.Keys;
    assert Elems(Names(signatures)) == {};
    while rest != {}
      invariant rest <= votes.Keys
      invariant Distinct(Names(signatures))
      invariant Elems(Names(signatures)) == Backers(votes, kind, block) - rest
      invariant forall i :: 0 <= i < |signatures| ==>
                  signatures[i].0 in votes && signatures[i].1 == votes[signatures[i].0].signature
      decreases rest
    {
      var id :| id in rest;
      if votes[id].kind == kind && votes[id].block == block {
        assert Names(signatures + [(id, votes[id].signature)]) == Names(signatures) + [id];
        DistinctAppend(Names(signatures), id);
        signatures := signatures + [(id, votes[id].signature)];
      }
      rest := rest - {id};
    }
  }

  lemma DistinctAppend<T>(s: seq<T>, x: T)
    requires Distinct(s) && x !in Elems(s)
    ensures Distinct(s + [x]) && Elems(s + [x]) == Elems(s) + {x}
  {
  }

  // ---------- The steps ----------

  function StartView(cfg: Config, e: Engine, height: nat, round: nat): (e': Engine) {
    e.(height := height, round := round, phase := Proposing, votes := map[],
       proposer := Proposer(cfg.validators, height, round))
  }

  /** A proposal is refused outside the Propose phase. */
  function Propose(cfg: Config, e: Engine, qc: Option<Certificate>): (e': Option<Engine>) {
    if e.phase != Proposing then None
    else
      var p := e.(phase := PreVoting, proposer := Proposer(cfg.validators, e.height, e.round));
      Some(if qc.Some? then p.(lockedBlock := Some(qc.value.block), lockedQc := qc) else p)
  }

  /** Why a vote is refused, if it is; the checks in the order the source makes them. */
  function Objection(e: Engine, v: Vote, kind: VoteType): (why: Option<Misfit>) {
    if v.height != e.height then Some(HeightMismatch)
    else if v.round != e.round then Some(RoundMismatch)
    else if v.kind != kind then Some(WrongVoteType)
    else None
  }

  /** The engine after a certificate is formed. */
  function Certify(e: Engine, qc: Certificate, now: nat): (e': Engine) {
    match qc.kind
    case PreVote =>
      var p := e.(phase := PreCommitting, prevoteQc := Some(qc));
      if e.lockedBlock == Some(qc.block) then p
      else p.(lockedBlock := Some(qc.block), lockedQc := Some(qc))
    case PreCommit =>
      e.(phase := Finalized, precommitQc := Some(qc), lastCommit := now)
  }

  /** Receiving a vote on the entry point for one vote type. */
  ghost predicate Receives(cfg: Config, e: Engine, v: Vote, kind: VoteType, now: nat, e': Engine, reply: Reply) {
    var objection := Objection(e, v, kind);
    if objection.Some? then e' == e && reply == Rejected(objection.value)
    else
      var counted := e.(votes := e.votes[v.validator := v]);
      if |VotesOf(counted.votes, kind)| < cfg.threshold then e' == counted && reply == Recorded
      else
        && reply.Certified?
        && reply.qc == Certificate(v.block, e.height, e.round, kind, reply.qc.signatures, cfg.setHash)
        && Lists(reply.qc.signatures, counted.votes, kind, v.block)
        && e' == Certify(counted, reply.qc, now)
  }

  function Commit(e: Engine, qc: Certificate): (e': Option<Engine>) {
    if e.phase != Finalized then None else Some(e.(precommitQc := Some(qc), phase := Idle))
  }

  function NextView(cfg: Config, e: Engine): (e': Engine) {
    e.(round := e.round + 1, phase := Proposing, votes := map[],
       proposer := Proposer(cfg.validators, e.height, e.round + 1))
  }

  function NextHeight(e: Engine): (e': Engine) {
    e.(height := e.height + 1, round := 0, phase := Idle, votes := map[],
       lockedBlock := None, lockedQc := None, prevoteQc := None, precommitQc := None)
  }

  datatype Action =
    | DoStartView(h: nat, r: nat)
    | DoPropose(parent: Option<Certificate>)
    | DoReceive(vote: Vote, now: nat)
    | DoCommit(final: Certificate)
    | DoNextView
    | DoNextHeight

  /** One action of one engine, and the reply when it is a received vote. */
  ghost predicate Acts(cfg: Config, e: Engine, a: Action, e': Engine, reply: Reply) {
    match a
    case DoStartView(h, r) => e' == StartView(cfg, e, h, r) && reply == Recorded
    case DoPropose(qc) => e' == Propose(cfg, e, qc).GetOr(e) && reply == Recorded
    case DoReceive(v, now) => Receives(cfg, e, v, v.kind, now, e', reply)
    case DoCommit(qc) => e' == Commit(e, qc).GetOr(e) && reply == Recorded
    case DoNextView => e' == NextView(cfg, e) && reply == Recorded
    case DoNextHeight => e' == NextHeight(e) && reply == Recorded
  }

  // ---------- What every engine keeps ----------

  ghost predicate Sound(e: Engine) {
    && (forall id :: id in e.votes ==>
          e.votes[id].validator == id && e.votes[id].height == e.height && e.votes[id].round == e.round)
    && (e.phase == Finalized ==>
          e.precommitQc.Some? && e.precommitQc.value.height == e.height
          && e.precommitQc.value.round == e.round && e.precommitQc.value.kind == PreCommit)
  }

  /** Held votes always belong to the current height and round, and Finalized always comes with a
      precommit certificate of the current height and round. */
  lemma ActionKeepsSound(cfg: Config, e: Engine, a: Action, e': Engine, reply: Reply)
    requires Sound(e) && Acts(cfg, e, a, e', reply)
    ensures Sound(e')
  {
    if a.DoReceive? && Objection(e, a.vote, a.vote.kind).None? {
      assert a.vote.validator in e.votes[a.vote.validator := a.vote];
    }
  }

  lemma ListsCardinality(signatures: seq<(nat, nat)>, votes: map<nat, Vote>, kind: VoteType, block: nat)
    requires Lists(signatures, votes, kind, block)
    ensures |signatures| == |Backers(votes, kind, block)|
  {
    ElemsCardinality(Names(signatures));
  }

  /** The weight of an issued certificate is the number of votes of its type for its block, the
      new vote included; so it reaches the threshold exactly when that many back the block, and in
      particular whenever the held votes of that type all name it. */
  lemma CertificateWeight(cfg: Config, e: Engine, v: Vote, kind: VoteType, now: nat, e': Engine, qc: Certificate)
    requires Receives(cfg, e, v, kind, now, e', Certified(qc))
    ensures var held := e.votes[v.validator := v];
            && |VotesOf(held, kind)| >= cfg.threshold
            && (|qc.signatures| >= cfg.threshold <==> |Backers(held, kind, v.block)| >= cfg.threshold)
            && ((forall id :: id in VotesOf(held, kind) ==> held[id].block == v.block)
                ==> |qc.signatures| == |VotesOf(held, kind)|)
  {
    var held := e.votes[v.validator := v];
    ListsCardinality(qc.signatures, held, kind, v.block);
    if forall id :: id in VotesOf(held, kind) ==> held[id].block == v.block {
      assert Backers(held, kind, v.block) == VotesOf(held, kind);
    }
  }

  // ---------- Runs of many engines ----------

  /** The engines, every vote any of them has been handed, and every certificate any has issued. */
  datatype World = World(engines: seq<Engine>, delivered: set<Vote>, issued: set<Certificate>)

  ghost predicate Init(w: World) {
    && w.delivered == {} && w.issued == {}
    && forall i :: 0 <= i < |w.engines| ==> w.engines[i] == INITIAL
  }

  ghost predicate StepOf(cfgs: seq<Config>, w: World, w': World, i: nat, a: Action, e': Engine, reply: Reply)
    requires i < |w.engines| == |cfgs|
  {
    && Acts(cfgs[i], w.engines[i], a, e', reply)
    && w'.engines == w.engines[i := e']
    && w'.delivered == w.delivered + (if a.DoReceive? then {a.vote} else {})
    && w'.issued == w.issued + (if reply.Certified? then {reply.qc} else {})
  }

  ghost predicate Next(cfgs: seq<Config>, w: World, w': World)
    requires |w.engines| == |cfgs|
  {
    exists i, a, e', reply :: 0 <= i < |w.engines| && StepOf(cfgs, w, w', i, a, e', reply)
  }

  ghost predicate Run(cfgs: seq<Config>, ws: seq<World>) {
    && ws != [] && Init(ws[0])
    && (forall k :: 0 <= k < |ws| ==> |ws[k].engines| == |cfgs|)
    && (forall k :: 0 < k < |ws| ==> Next(cfgs, ws[k - 1], ws[k]))
  }

  function VoteFor(qc: Certificate, id: nat, signature: nat): (v: Vote) {
    Vote(id, qc.height, qc.round, qc.kind, qc.block, signature)
  }

  /** Pairwise distinct signers, each of whom was heard voting that type for that block there. */
  ghost predicate Backed(qc: Certificate, delivered: set<Vote>) {
    && Distinct(Names(qc.signatures))
    && forall s :: s in qc.signatures ==> VoteFor(qc, s.0, s.1) in delivered
  }

  ghost predicate WorldSound(w: World) {
    && (forall i :: 0 <= i < |w.engines| ==> Sound(w.engines[i]))
    && (forall i, id :: 0 <= i < |w.engines| && id in w.engines[i].votes ==> w.engines[i].votes[id] in w.delivered)
    && (forall qc :: qc in w.issued ==> Backed(qc, w.delivered))
  }

  lemma CertificateBacked(cfg: Config, e: Engine, v: Vote, now: nat, e': Engine, qc: Certificate, delivered: set<Vote>)
    requires Sound(e) && Receives(cfg, e, v, v.kind, now, e', Certified(qc))
    requires forall id :: id in e.votes ==> e.votes[id] in delivered
    requires v in delivered
    ensures Backed(qc, delivered)
  {
    var votes := e.votes[v.validator := v];
    forall s | s in qc.signatures ensures VoteFor(qc, s.0, s.1) in delivered {
      var i :| 0 <= i < |qc.signatures| && qc.signatures[i] == s;
      assert Names(qc.signatures)[i] == s.0;
      assert s.0 in Elems(Names(qc.signatures));
      assert s.0 in Backers(votes, v.kind, v.block);
      assert votes[s.0] == VoteFor(qc, s.0, s.1);
    }
  }

  lemma StepKeepsWorld(cfgs: seq<Config>, w: World, w': World, i: nat, a: Action, e': Engine, reply: Reply)
    requires i < |w.engines| == |cfgs| && StepOf(cfgs, w, w', i, a, e', reply)
    requires WorldSound(w)
    ensures WorldSound(w')
  {
    var e := w.engines[i];
    ActionKeepsSound(cfgs[i], e, a, e', reply);
    if reply.Certified? {
      CertificateBacked(cfgs[i], e, a.vote, a.now, e', reply.qc, w'.delivered);
    }
    forall id | id in e'.votes ensures e'.votes[id] in w'.delivered {
      var counted := a.DoReceive? && a.vote.validator == id && e'.votes != e.votes;
      assert e'.votes[id] == if counted then a.vote else e.votes[id];
    }
    forall qc | qc in w'.issued ensures Backed(qc, w'.delivered) {
      assert qc in w.issued ==> Backed(qc, w.delivered);
    }
  }

  lemma {:induction false} RunSound(cfgs: seq<Config>, ws: seq<World>)
    requires Run(cfgs, ws)
    ensures WorldSound(ws[|ws| - 1])
    decreases |ws|
  {
    if |ws| > 1 {
      var init := ws[..|ws| - 1];
      assert Run(cfgs, init);
      RunSound(cfgs, init);
      var w, w' := ws[|ws| - 2], ws[|ws| - 1];
      assert Next(cfgs, ws[|ws| - 1 - 1], ws[|ws| - 1]);
      var i, a, e', reply :| 0 <= i < |w.engines| && StepOf(cfgs, w, w', i, a, e', reply);
      StepKeepsWorld(cfgs, w, w', i, a, e', reply);
    }
  }

  // ---------- A certificate below the threshold ----------

  /** A world of one engine, with the votes it holds and what it has been told and has issued. */
  function Alone(votes: map<nat, Vote>, delivered: set<Vote>): (w: World) {
    World([INITIAL.(votes := votes)], delivered, {})
  }

  lemma RecordStep(cfg: Config, votes: map<nat, Vote>, delivered: set<Vote>, v: Vote)
    requires Objection(INITIAL, v, v.kind).None?
    requires |VotesOf(votes[v.validator := v], v.kind)| < cfg.threshold
    ensures Next([cfg], Alone(votes, delivered), Alone(votes[v.validator := v], delivered + {v}))
  {
    var w, w' := Alone(votes, delivered), Alone(votes[v.validator := v], delivered + {v});
    assert w'.engines == w.engines[0 := w'.engines[0]];
    assert StepOf([cfg], w, w', 0, DoReceive(v, 0), w'.engines[0], Recorded);
  }

  lemma CertifyStep(cfg: Config, votes: map<nat, Vote>, delivered: set<Vote>, v: Vote, qc: Certificate)
    returns (w': World)
    requires Objection(INITIAL, v, v.kind).None?
    requires |VotesOf(votes[v.validator := v], v.kind)| >= cfg.threshold
    requires qc == Certificate(v.block, 0, 0, v.kind, qc.signatures, cfg.setHash)
    requires Lists(qc.signatures, votes[v.validator := v], v.kind, v.block)
    ensures |w'.engines| == 1 && Next([cfg], Alone(votes, delivered), w') && w'.issued == {qc}
  {
    var w := Alone(votes, delivered);
    var e' := Certify(w.engines[0].(votes := votes[v.validator := v]), qc, 0);
    w' := World([e'], delivered + {v}, {qc});
    assert w'.engines == w.engines[0 := e'];
    assert StepOf([cfg], w, w', 0, DoReceive(v, 0), e', Certified(qc));
  }

  const THREE: Config := Config([Validator(1, true), Validator(2, true), Validator(3, true)], 3, 0)

  lemma ThreeActive()
    ensures |ActiveIds(THREE.validators)| == 3 && THREE.threshold == QuorumSize(3)
  {
    var vs := THREE.validators;
    assert vs[..2] == [vs[0], vs[1]] && vs[..2][..1] == [vs[0]] && vs[..2][..1][..0] == [];
  }

  lemma RunGrows(cfgs: seq<Config>, ws: seq<World>, w: World)
    requires Run(cfgs, ws) && |w.engines| == |cfgs| && Next(cfgs, ws[|ws| - 1], w)
    ensures Run(cfgs, ws + [w])
  {
  }

  const FIRST: Vote := Vote(1, 0, 0, PreVote, 7, 0)
  const SECOND: Vote := Vote(2, 0, 0, PreVote, 7, 0)
  const THIRD: Vote := Vote(3, 0, 0, PreVote, 8, 0)
  const HELD: map<nat, Vote> := map[1 := FIRST, 2 := SECOND]

  lemma TwoAgree() returns (ws: seq<World>, delivered: set<Vote>)
    ensures Run([THREE], ws) && ws[|ws| - 1] == Alone(HELD, delivered)
  {
    var w0, w1 := Alone(map[], {}), Alone(map[1 := FIRST], {} + {FIRST});
    delivered := {} + {FIRST} + {SECOND};
    assert VotesOf(map[1 := FIRST], PreVote) == {1} && VotesOf(HELD, PreVote) == {1, 2};
    assert map[1 := FIRST][2 := SECOND] == HELD;
    RecordStep(THREE, map[], {}, FIRST);
    RecordStep(THREE, map[1 := FIRST], {} + {FIRST}, SECOND);
    RunGrows([THREE], [w0], w1);
    RunGrows([THREE], [w0] + [w1], Alone(HELD, delivered));
    ws := [w0] + [w1] + [Alone(HELD, delivered)];
  }

  /** The count mixes blocks, so a certificate can be issued below the threshold: a run of an engine
      with three active validators, whose third vote is for another block than the first two, issues
      a certificate with one signature against a threshold of three. */
  lemma UnderweightCertificate() returns (ws: seq<World>, qc: Certificate)
    ensures |ActiveIds(THREE.validators)| == 3 && THREE.threshold == QuorumSize(3)
    ensures Run([THREE], ws) && qc in ws[|ws| - 1].issued
    ensures |qc.signatures| == 1 < THREE.threshold
  {
    ThreeActive();
    var before, delivered := TwoAgree();
    qc := Certificate(8, 0, 0, PreVote, [(3, 0)], 0);
    var votes := HELD[3 := THIRD];
    assert VotesOf(votes, PreVote) == {1, 2, 3} && Backers(votes, PreVote, 8) == {3};
    assert Names(qc.signatures) == [3];
    var last := CertifyStep(THREE, HELD, delivered, THIRD, qc);
    RunGrows([THREE], before, last);
    ws := before + [last];
  }

  // ---------- Agreement ----------

  /** Validators heard voting for two blocks at one height, round and type. */
  function Equivocators(delivered: set<Vote>, height: nat, round: nat, kind: VoteType): (ids: set<nat>) {
    set v, u | v in delivered && u in delivered && v.validator == u.validator && v.block != u.block
               && v.height == height == u.height && v.round == round == u.round && v.kind == kind == u.kind
      :: v.validator
  }

  /** Two quorums among n validators share more than a third of them. */
  lemma QuorumsIntersect(a: set<nat>, b: set<nat>, validators: set<nat>)
    requires a <= validators && b <= validators
    requires |a| >= QuorumSize(|validators|) && |b| >= QuorumSize(|validators|)
    ensures |a * b| >= (|validators| - 1) / 3 + 1
  {
    OverlapCardinality(a, b, validators);
  }

  lemma SharedSignersEquivocate(a: Certificate, b: Certificate, delivered: set<Vote>)
    requires Backed(a, delivered) && Backed(b, delivered)
    requires a.height == b.height && a.round == b.round && a.kind == b.kind && a.block != b.block
    ensures Elems(Names(a.signatures)) * Elems(Names(b.signatures))
         <= Equivocators(delivered, a.height, a.round, a.kind)
  {
    forall id | id in Names(a.signatures) && id in Names(b.signatures)
      ensures id in Equivocators(delivered, a.height, a.round, a.kind)
    {
      var i :| 0 <= i < |a.signatures| && Names(a.signatures)[i] == id;
      var j :| 0 <= j < |b.signatures| && Names(b.signatures)[j] == id;
      var s, t := a.signatures[i], b.signatures[j];
      var v, u := VoteFor(a, s.0, s.1), VoteFor(b, t.0, t.1);
      assert s in a.signatures && t in b.signatures;
      assert v in delivered && u in delivered;
      assert v.validator == id == u.validator;
    }
  }

  /** Agreement: in any run of any number of engines, if at most a third of the n validators vote
      for two blocks at one height, round and type, whatever outsiders send, then no two certificates
      issued there that pass the quorum test with signers among the n name different blocks. */
  lemma Agreement(cfgs: seq<Config>, ws: seq<World>, validators: set<nat>, a: Certificate, b: Certificate)
    requires Run(cfgs, ws)
    requires a in ws[|ws| - 1].issued && b in ws[|ws| - 1].issued
    requires a.height == b.height && a.round == b.round && a.kind == b.kind
    requires IsQuorum(a, |validators|, 0) && IsQuorum(b, |validators|, 0)
    requires Elems(Names(a.signatures)) <= validators && Elems(Names(b.signatures)) <= validators
    requires |Equivocators(ws[|ws| - 1].delivered, a.height, a.round, a.kind) * validators| <= (|validators| - 1) / 3
    ensures a.block == b.block
  {
    RunSound(cfgs, ws);
    var delivered := ws[|ws| - 1].delivered;
    var sa, sb := Elems(Names(a.signatures)), Elems(Names(b.signatures));
    ElemsCardinality(Names(a.signatures));
    ElemsCardinality(Names(b.signatures));
    QuorumsIntersect(sa, sb, validators);
    if a.block != b.block {
      SharedSignersEquivocate(a, b, delivered);
      SubsetCardinality(sa * sb, Equivocators(delivered, a.height, a.round, a.kind) * validators);
    }
  }

  // ---------- The engine itself ----------

  class ConsensusEngine {
    var state: Engine
    const cfg: Config

    constructor (validators: seq<Validator>, setHash: nat)
      ensures state == INITIAL && Sound(state)
      ensures cfg == Config(validators, QuorumSize(|ActiveIds(validators)|), setHash)
    {
      state := INITIAL;
      cfg := Config(validators, QuorumSize(|ActiveIds(validators)|), setHash);
    }

    method StartNewView(height: nat, round: nat)
      modifies this
      ensures state == StartView(cfg, old(state), height, round) && Sound(state)
    {
      state := state.(height := height, round := round, phase := Proposing, votes := map[]);
      state := state.(proposer := Proposer(cfg.validators, height, round));
    }

    method ProposeBlock(qc: Option<Certificate>) returns (ok: bool)
      requires Sound(state)
      modifies this
      ensures ok <==> old(state).phase == Proposing
      ensures state == Propose(cfg, old(state), qc).GetOr(old(state)) && Sound(state)
    {
      if state.phase != Proposing {
        return false;
      }
      state := state.(proposer := Proposer(cfg.validators, state.height, state.round));
      if qc.Some? {
        state := state.(lockedBlock := Some(qc.value.block), lockedQc := qc);
      }
      state := state.(phase := PreVoting);
      return true;
    }

    method ReceivePrevote(v: Vote) returns (reply: Reply)
      requires Sound(state)
      modifies this
      ensures Receives(cfg, old(state), v, PreVote, 0, state, reply) && Sound(state)
    {
      if v.height != state.height { return Rejected(HeightMismatch); }
      if v.round != state.round { return Rejected(RoundMismatch); }
      if v.kind != PreVote { return Rejected(WrongVoteType); }
      state := state.(votes := state.votes[v.validator := v]);
      if |VotesOf(state.votes, PreVote)| >= cfg.threshold {
        var signatures := Gather(state.votes, PreVote, v.block);
        var qc := Certificate(v.block, state.height, state.round, PreVote, signatures, cfg.setHash);
        state := state.(phase := PreCommitting, prevoteQc := Some(qc));
        if state.lockedBlock == None || state.lockedBlock != Some(v.block) {
          state := state.(lockedBlock := Some(v.block), lockedQc := state.prevoteQc);
        }
        return Certified(qc);
      }
      return Recorded;
    }

    method ReceivePrecommit(v: Vote, now: nat) returns (reply: Reply)
      requires Sound(state)
      modifies this
      ensures Receives(cfg, old(state), v, PreCommit, now, state, reply) && Sound(state)
    {
      if v.height != state.height { return Rejected(HeightMismatch); }
      if v.round != state.round { return Rejected(RoundMismatch); }
      if v.kind != PreCommit { return Rejected(WrongVoteType); }
      state := state.(votes := state.votes[v.validator := v]);
      if |VotesOf(state.votes, PreCommit)| >= cfg.threshold {
        var signatures := Gather(state.votes, PreCommit, v.block);
        var qc := Certificate(v.block, state.height, state.round, PreCommit, signatures, cfg.setHash);
        state := state.(phase := Finalized, precommitQc := Some(qc), lastCommit := now);
        return Certified(qc);
      }
      return Recorded;
    }

    method CommitBlock(qc: Certificate) returns (ok: bool)
      requires Sound(state)
      modifies this
      ensures ok <==> old(state).phase == Finalized
      ensures state == Commit(old(state), qc).GetOr(old(state)) && Sound(state)
    {
      if state.phase != Finalized {
        return false;
      }
      state := state.(precommitQc := Some(qc));
      state := state.(phase := Idle);
      return true;
    }

    method AdvanceToNextView()
      modifies this
      ensures state == NextView(cfg, old(state)) && Sound(state)
    {
      state := state.(round := state.round + 1, phase := Proposing, votes := map[]);
      state := state.(proposer := Proposer(cfg.validators, state.height, state.round));
    }

    method AdvanceToNextHeight()
      modifies this
      ensures state == NextHeight(old(state)) && Sound(state)
    {
      state := state.(height := state.height + 1, round := 0, phase := Idle, votes := map[]);
      state := state.(lockedBlock := None, lockedQc := None, prevoteQc := None, precommitQc := None);
    }
  }
}
