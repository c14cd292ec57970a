/** What an engine's view, phase, votes, lock and certificates are, read off its history alone: the
    actions it took and the replies it gave. */
module ConsensusLocks {
  import opened Prelude
  import opened Consensus

  datatype Event = Event(action: Action, reply: Reply)

  /** A run of one engine, with its states before and after every event. */
  ghost predicate EngineRun(cfg: Config, events: seq<Event>, es: seq<Engine>) {
    && |es| == |events| + 1 && es[0] == INITIAL
    && forall i :: 0 <= i < |events| ==> Acts(cfg, es[i], events[i].action, es[i + 1], events[i].reply)
  }

  // ---------- The history, independent of any state ----------

  /** The certificate of a type that an event issues, if it does. */
  function Issued(ev: Event, kind: VoteType): (qc: Option<Certificate>) {
    if ev.action.DoReceive? && ev.reply.Certified? && ev.action.vote.kind == kind then Some(ev.reply.qc) else None
  }

  function HeightAfter(events: seq<Event>): (h: nat) {
    if events == [] then 0
    else match events[|events| - 1].action
      case DoStartView(h, _) => h
      case DoNextHeight => HeightAfter(events[..|events| - 1]) + 1
      case _ => HeightAfter(events[..|events| - 1])
  }

  function RoundAfter(events: seq<Event>): (r: nat) {
    if events == [] then 0
    else match events[|events| - 1].action
      case DoStartView(_, r) => r
      case DoNextView => RoundAfter(events[..|events| - 1]) + 1
      case DoNextHeight => 0
      case _ => RoundAfter(events[..|events| - 1])
  }

  function PhaseAfter(events: seq<Event>): (p: Phase) {
    if events == [] then Idle
    else
      var init, last := events[..|events| - 1], events[|events| - 1];
      match last.action
      case DoStartView(_, _) => Proposing
      case DoNextView => Proposing
      case DoNextHeight => Idle
      case DoPropose(_) => if PhaseAfter(init) == Proposing then PreVoting else PhaseAfter(init)
      case DoCommit(_) => if PhaseAfter(init) == Finalized then Idle else PhaseAfter(init)
      case DoReceive(_, _) =>
        if Issued(last, PreVote).Some? then PreCommitting
        else if Issued(last, PreCommit).Some? then Finalized
        else PhaseAfter(init)
  }

  /** The latest prevote certificate or accepted parent certificate since the height was entered. */
  function LatestLock(events: seq<Event>): (qc: Option<Certificate>) {
    if events == [] then None
    else
      var init, last := events[..|events| - 1], events[|events| - 1];
      if last.action.DoNextHeight? then None
      else if Issued(last, PreVote).Some? then Issued(last, PreVote)
      else if last.action.DoPropose? && last.action.parent.Some? && PhaseAfter(init) == Proposing
      then last.action.parent
      else LatestLock(init)
  }

  function LatestPrevote(events: seq<Event>): (qc: Option<Certificate>) {
    if events == [] then None
    else
      var init, last := events[..|events| - 1], events[|events| - 1];
      if last.action.DoNextHeight? then None
      else if Issued(last, PreVote).Some? then Issued(last, PreVote)
      else LatestPrevote(init)
  }

  /** The latest precommit certificate, issued or committed, since the height was entered. */
  function LatestPrecommit(events: seq<Event>): (qc: Option<Certificate>) {
    if events == [] then None
    else
      var init, last := events[..|events| - 1], events[|events| - 1];
      if last.action.DoNextHeight? then None
      else if Issued(last, PreCommit).Some? then Issued(last, PreCommit)
      else if last.action.DoCommit? && PhaseAfter(init) == Finalized then Some(last.action.final)
      else LatestPrecommit(init)
  }

  /** Each validator's latest vote for the current view, since the view was entered. */
  function VotesAfter(events: seq<Event>): (votes: map<nat, Vote>) {
    if events == [] then map[]
    else
      var init, last := events[..|events| - 1], events[|events| - 1];
      match last.action
      case DoStartView(_, _) => map[]
      case DoNextView => map[]
      case DoNextHeight => map[]
      case DoReceive(v, _) =>
        if v.height == HeightAfter(init) && v.round == RoundAfter(init) then VotesAfter(init)[v.validator := v]
        else VotesAfter(init)
      case _ => VotesAfter(init)
  }

  // ---------- The engine follows its history ----------

  /** The lock names the block of the latest lock, and a certificate for it is held. */
  ghost predicate LockedOn(e: Engine, latest: Option<Certificate>) {
    && (e.lockedBlock.Some? <==> latest.Some?) && (e.lockedQc.Some? <==> latest.Some?)
    && (latest.Some? ==> e.lockedBlock.value == latest.value.block == e.lockedQc.value.block)
  }

  ghost predicate Follows(e: Engine, events: seq<Event>) {
    && e.height == HeightAfter(events) && e.round == RoundAfter(events) && e.phase == PhaseAfter(events)
    && e.prevoteQc == LatestPrevote(events) && e.precommitQc == LatestPrecommit(events)
    && LockedOn(e, LatestLock(events))
  }

  lemma StepFollows(cfg: Config, e: Engine, events: seq<Event>, a: Action, e': Engine, reply: Reply)
    requires Follows(e, events) && Acts(cfg, e, a, e', reply)
    ensures Follows(e', events + [Event(a, reply)])
  {
    var after := events + [Event(a, reply)];
    assert after[..|events|] == events && after[|events|] == Event(a, reply);
  }

  lemma RunPrefix(cfg: Config, events: seq<Event>, es: seq<Engine>)
    requires EngineRun(cfg, events, es) && events != []
    ensures EngineRun(cfg, events[..|events| - 1], es[..|es| - 1])
    ensures var n := |events| - 1;
            Acts(cfg, es[n], events[n].action, es[n + 1], events[n].reply) && es[..|es| - 1][n] == es[n]
  {
    var n := |events| - 1;
    forall i | 0 <= i < n
      ensures Acts(cfg, es[..n + 1][i], events[..n][i].action, es[..n + 1][i + 1], events[..n][i].reply)
    {
      assert Acts(cfg, es[i], events[i].action, es[i + 1], events[i].reply);
    }
  }

  /** After every run an engine's height, round and phase, its two certificates and its lock are those of
      its history: the lock is on the block of the latest prevote certificate or accepted parent
      certificate since the height was entered, and is always held with a certificate naming it. */
  lemma {:induction false} EngineFollowsHistory(cfg: Config, events: seq<Event>, es: seq<Engine>)
    requires EngineRun(cfg, events, es)
    ensures Follows(es[|events|], events)
    decreases |events|
  {
    if events != [] {
      var n := |events| - 1;
      RunPrefix(cfg, events, es);
      EngineFollowsHistory(cfg, events[..n], es[..n + 1]);
      StepFollows(cfg, es[n], events[..n], events[n].action, es[n + 1], events[n].reply);
      assert events[..n] + [Event(events[n].action, events[n].reply)] == events;
    }
  }

  /** After every run an engine holds each validator's latest vote for the current view. */
  lemma {:induction false} EngineHoldsLatestVotes(cfg: Config, events: seq<Event>, es: seq<Engine>)
    requires EngineRun(cfg, events, es)
    ensures es[|events|].votes == VotesAfter(events)
    decreases |events|
  {
    if events != [] {
      var n := |events| - 1;
      RunPrefix(cfg, events, es);
      EngineHoldsLatestVotes(cfg, events[..n], es[..n + 1]);
      EngineFollowsHistory(cfg, events[..n], es[..n + 1]);
    }
  }

  /** While proposing or prevoting, the recorded proposer leads the current height and round. */
  lemma {:induction false} LeaderIsProposer(cfg: Config, events: seq<Event>, es: seq<Engine>)
    requires EngineRun(cfg, events, es)
    ensures PhaseAfter(events) in {Proposing, PreVoting} ==>
              es[|events|].proposer == Proposer(cfg.validators, HeightAfter(events), RoundAfter(events))
    decreases |events|
  {
    if events != [] {
      var n := |events| - 1;
      RunPrefix(cfg, events, es);
      LeaderIsProposer(cfg, events[..n], es[..n + 1]);
      EngineFollowsHistory(cfg, events[..n], es[..n + 1]);
    }
  }

  // ---------- What a vote does ----------

  /** A received vote is refused exactly when it is for another view, and otherwise certifies exactly when
      enough validators' latest votes for this view are of its type. */
  lemma CertifiesExactlyWhen(cfg: Config, events: seq<Event>, es: seq<Engine>, v: Vote, now: nat, e': Engine,
                             reply: Reply)
    requires EngineRun(cfg, events, es) && Acts(cfg, es[|events|], DoReceive(v, now), e', reply)
    ensures reply.Rejected? <==> v.height != HeightAfter(events) || v.round != RoundAfter(events)
    ensures reply.Certified? <==>
            && !reply.Rejected?
            && |VotesOf(VotesAfter(events)[v.validator := v], v.kind)| >= cfg.threshold
  {
    EngineFollowsHistory(cfg, events, es);
    EngineHoldsLatestVotes(cfg, events, es);
  }

  /** Each reason for refusing a vote, in the order they are given: another height, another round, or the
      wrong entry point for its type. */
  lemma WhyRefused(cfg: Config, e: Engine, v: Vote, kind: VoteType, now: nat, e': Engine, reply: Reply)
    requires Receives(cfg, e, v, kind, now, e', reply)
    ensures reply == Rejected(HeightMismatch) <==> v.height != e.height
    ensures reply == Rejected(RoundMismatch) <==> v.height == e.height && v.round != e.round
    ensures reply == Rejected(WrongVoteType) <==> v.height == e.height && v.round == e.round && v.kind != kind
    ensures reply.Rejected? ==> e' == e
  {
  }

  /** A prevote certificate moves the engine on to precommitting and locks the certified block, whatever
      was locked before; the certificate held for the lock is the new one unless that block was locked
      already. */
  lemma PrevoteLocks(cfg: Config, e: Engine, v: Vote, now: nat, e': Engine, qc: Certificate)
    requires Receives(cfg, e, v, PreVote, now, e', Certified(qc))
    ensures e'.phase == PreCommitting && e'.prevoteQc == Some(qc)
    ensures e'.lockedBlock == Some(v.block) && qc.block == v.block
    ensures e'.lockedQc == if e.lockedBlock == Some(v.block) then e.lockedQc else Some(qc)
    ensures e'.precommitQc == e.precommitQc && e'.lastCommit == e.lastCommit
  {
  }

  /** A precommit certificate finalizes and leaves the lock alone. */
  lemma PrecommitFinalizes(cfg: Config, e: Engine, v: Vote, now: nat, e': Engine, qc: Certificate)
    requires Receives(cfg, e, v, PreCommit, now, e', Certified(qc))
    ensures e'.phase == Finalized && e'.precommitQc == Some(qc) && qc.block == v.block && e'.lastCommit == now
    ensures e'.lockedBlock == e.lockedBlock && e'.lockedQc == e.lockedQc && e'.prevoteQc == e.prevoteQc
  {
  }

  // ---------- Engines among others ----------

  lemma AppendEvent(cfg: Config, events: seq<Event>, es: seq<Engine>, a: Action, e': Engine, reply: Reply)
    requires EngineRun(cfg, events, es) && Acts(cfg, es[|events|], a, e', reply)
    ensures EngineRun(cfg, events + [Event(a, reply)], es + [e'])
  {
    var evs, states := events + [Event(a, reply)], es + [e'];
    forall i | 0 <= i < |evs| ensures Acts(cfg, states[i], evs[i].action, states[i + 1], evs[i].reply) {
      assert i < |events| ==> Acts(cfg, es[i], events[i].action, es[i + 1], events[i].reply);
    }
  }

  /** Every engine of a world reached by a run has a history of its own. */
  lemma {:induction false} WorldEngineRun(cfgs: seq<Config>, ws: seq<World>, i: nat)
    returns (events: seq<Event>, es: seq<Engine>)
    requires Run(cfgs, ws) && i < |cfgs|
    ensures EngineRun(cfgs[i], events, es) && es[|events|] == ws[|ws| - 1].engines[i]
    decreases |ws|
  {
    if |ws| == 1 {
      events, es := [], [INITIAL];
    } else {
      var init := ws[..|ws| - 1];
      assert Run(cfgs, init);
      events, es := WorldEngineRun(cfgs, init, i);
      var w, w' := ws[|ws| - 2], ws[|ws| - 1];
      assert Next(cfgs, ws[|ws| - 1 - 1], ws[|ws| - 1]);
      var j, a, e', reply :| 0 <= j < |w.engines| && StepOf(cfgs, w, w', j, a, e', reply);
      if j == i {
        AppendEvent(cfgs[i], events, es, a, e', reply);
        events, es := events + [Event(a, reply)], es + [e'];
      }
    }
  }

  /** In every world reached by a run, every engine is locked on the block of the latest lock of its own
      history, and holds a certificate naming that block exactly when it is locked. */
  lemma WorldLocked(cfgs: seq<Config>, ws: seq<World>, i: nat) returns (events: seq<Event>)
    requires Run(cfgs, ws) && i < |cfgs|
    ensures i < |ws[|ws| - 1].engines| && Follows(ws[|ws| - 1].engines[i], events)
  {
    var es;
    events, es := WorldEngineRun(cfgs, ws, i);
    EngineFollowsHistory(cfgs[i], events, es);
  }
}
