/** What transactions mean, stated on the bytes of their payloads: the escrow operations a run of
    blocks amounts to, and the effect of each kind of transaction. */
module ChainEffects {
  import opened Prelude
  import opened MapSum
  import opened Codec
  import opened CodecItems
  import opened Settlement
  import opened Chain

  // ---------- The escrow operations of a run ----------

  /** What an accepted transaction asks of the books. Amounts are read by place value. */
  function TxActions(s: ChainState, tx: Tx): (actions: seq<Action>) {
    var p := tx.payload;
    if tx.kind == JobSubmit && |p| >= 80 then
      [Create(p[..32], tx.sender, Positional(p[64..72]), s.height, 500)]
    else if tx.kind == EscrowDeposit && |p| >= 40 then
      [Create(p[..32], tx.sender, Positional(p[32..40]), s.height, 500)]
    else if tx.kind == JobSettle && |p| >= 64 then [Release(tx.sender)]
    else if tx.kind == EscrowRelease && |p| >= 64 then [Release(p[..32])]
    else if tx.kind == EscrowRefund && |p| >= 32 then [Refund(p[..32])]
    else []
  }

  function BlockActions(env: Env, s: ChainState, txs: seq<Tx>): (actions: seq<Action>)
    decreases |txs|
  {
    if txs == [] || Apply(env, s, txs[0]).error.Some? then []
    else TxActions(s, txs[0]) + BlockActions(env, Apply(env, s, txs[0]).state, txs[1..])
  }

  function MoveActions(env: Env, s: ChainState, m: Move): (actions: seq<Action>) {
    match m
    case Block(txs) => BlockActions(env, s, txs)
    case NextHeight => []
    case Direct(a) => [a]
  }

  /** The escrow operations of a whole run, in order. */
  function RunActions(env: Env, moves: seq<Move>): (actions: seq<Action>) {
    if moves == [] then []
    else
      var init := moves[..|moves| - 1];
      RunActions(env, init) + MoveActions(env, Chain.Run(env, init), moves[|moves| - 1])
  }

  lemma OneAction(b: Books, a: Action)
    ensures Settlement.Run(b, [a]) == Act(b, a)
  {
    RunAppend(b, [], a);
    assert [] + [a] == [a];
  }

  lemma EscrowTxIsActions(env: Env, s: ChainState, tx: Tx)
    requires OnEscrows(tx.kind) && HandleEscrow(env, s, tx).error.None?
    ensures HandleEscrow(env, s, tx).state.books == Settlement.Run(s.books, TxActions(s, tx))
  {
    var p := tx.payload;
    assert |TxActions(s, tx)| == 1;
    OneAction(s.books, TxActions(s, tx)[0]);
    if tx.kind == JobSubmit {
      LittleEndianIsPositional(p[64..72]);
    } else if tx.kind == EscrowDeposit {
      LittleEndianIsPositional(p[32..40]);
    }
  }

  lemma TxIsActions(env: Env, s: ChainState, tx: Tx)
    requires Apply(env, s, tx).error.None?
    ensures Apply(env, s, tx).state.books == Settlement.Run(s.books, TxActions(s, tx))
  {
    if OnEscrows(tx.kind) {
      EscrowTxIsActions(env, s, tx);
    } else {
      assert TxActions(s, tx) == [];
    }
  }

  lemma {:induction false} BlockIsActions(env: Env, s: ChainState, txs: seq<Tx>)
    ensures ApplyBlock(env, s, txs).state.books == Settlement.Run(s.books, BlockActions(env, s, txs))
    decreases |txs|
  {
    if txs != [] {
      var o := Apply(env, s, txs[0]);
      if o.error.Some? {
        RefusedChangesNothing(env, s, txs[0]);
      } else {
        TxIsActions(env, s, txs[0]);
        BlockIsActions(env, o.state, txs[1..]);
        RunConcat(s.books, TxActions(s, txs[0]), BlockActions(env, o.state, txs[1..]));
      }
    }
  }

  lemma MoveIsActions(env: Env, s: ChainState, m: Move)
    ensures Advance(env, s, m).books == Settlement.Run(s.books, MoveActions(env, s, m))
  {
    match m
    case Block(txs) => BlockIsActions(env, s, txs);
    case NextHeight =>
    case Direct(a) => OneAction(s.books, a);
  }

  /** From genesis, the books of any run of blocks are those of the escrow operations its accepted
      transactions spell, and what those operations hand in is paid out, still held or overwritten. */
  lemma {:induction false} ChainIsActions(env: Env, moves: seq<Move>)
    ensures Chain.Run(env, moves).books == Settlement.Run(NO_BOOKS, RunActions(env, moves))
    ensures var b := Chain.Run(env, moves).books;
            Deposited(RunActions(env, moves))
            == TotalPaid(b.ledger.payments) + Held(b.escrows) + b.ledger.overwritten
  {
    if moves != [] {
      var init, last := moves[..|moves| - 1], moves[|moves| - 1];
      var s := Chain.Run(env, init);
      ChainIsActions(env, init);
      MoveIsActions(env, s, last);
      RunConcat(NO_BOOKS, RunActions(env, init), MoveActions(env, s, last));
    }
    EveryRunConserves(RunActions(env, moves));
  }

  /** In every chain run a job's escrow carries what the last transaction that created it handed in,
      and settling it while active pays exactly that. */
  lemma ChainPaysWhatWasHandedIn(env: Env, moves: seq<Move>, job: Id, refund: bool)
    ensures var b := Chain.Run(env, moves).books;
            var made := LastCreate(RunActions(env, moves), job);
            && (job in b.escrows <==> made.Some?)
            && (made.Some? ==> Carries(b.escrows[job], made.value))
            && (InStatus(b, job, Active) ==>
                  TotalPaid(Act(b, if refund then Refund(job) else Release(job)).ledger.payments)
                  == TotalPaid(b.ledger.payments) + made.value.amount)
  {
    var actions := RunActions(env, moves);
    ChainIsActions(env, moves);
    EscrowIsLastCreate(actions, job);
    SettlePaysWhatWasHandedIn(actions, job, refund);
    RunAppend(NO_BOOKS, actions, if refund then Refund(job) else Release(job));
  }

  // ---------- The effect of each kind of transaction ----------

  /** A transaction that passes the format and signature checks. */
  ghost predicate Passes(env: Env, s: ChainState, tx: Tx) {
    WellFormed(tx) && Admitted(env, s, tx)
  }

  lemma ReadBack(n: nat)
    requires n < U64_LIMIT
    ensures FromLittleEndian(Encode(UInt(8, n))) == n && |Encode(UInt(8, n))| == 8
  {
    WordSize();
    LittleEndianRoundTrip(n, 8);
  }

  /** A deposit: job, amount. It opens an active escrow of the sender for the whole amount, replacing
      any other of the job, and leaves the other jobs alone. */
  lemma DepositEffect(env: Env, s: ChainState, tx: Tx, job: Id, amount: nat, rest: seq<Byte>)
    requires Passes(env, s, tx) && tx.kind == EscrowDeposit && |job| == 32 && amount < U64_LIMIT
    requires tx.payload == job + Encode(UInt(8, amount)) + rest
    ensures var o := Apply(env, s, tx);
            && o.error == None && job in o.state.books.escrows
            && var e := o.state.books.escrows[job];
               && e.status == Active && Carries(e, Create(job, tx.sender, amount, s.height, 500))
               && o.state.books.escrows == s.books.escrows[job := e]
  {
    ReadBack(amount);
    assert tx.payload[0..32] == job && tx.payload[32..40] == Encode(UInt(8, amount));
  }

  /** A job submission: job, kernel, budget, deadline. The budget is what it deposits. */
  lemma SubmitEffect(env: Env, s: ChainState, tx: Tx, job: Id, kernel: Id, budget: nat, rest: seq<Byte>)
    requires Passes(env, s, tx) && tx.kind == JobSubmit && |job| == 32 && |kernel| == 32 && budget < U64_LIMIT
    requires |rest| >= 8 && tx.payload == job + kernel + Encode(UInt(8, budget)) + rest
    ensures var o := Apply(env, s, tx);
            && o.error == None && job in o.state.books.escrows
            && var e := o.state.books.escrows[job];
               && e.status == Active && Carries(e, Create(job, tx.sender, budget, s.height, 500))
               && o.state.books.escrows == s.books.escrows[job := e]
  {
    ReadBack(budget);
    assert tx.payload[0..32] == job && tx.payload[64..72] == Encode(UInt(8, budget));
  }

  /** A release (job, recipient) or refund (job) closes exactly an active escrow, each in its own way,
      and is refused otherwise. */
  lemma SettleEffect(env: Env, s: ChainState, tx: Tx, job: Id, rest: seq<Byte>)
    requires Covered(s.books) && Passes(env, s, tx) && (tx.kind == EscrowRelease || tx.kind == EscrowRefund)
    requires |job| == 32 && tx.payload == job + rest && (tx.kind == EscrowRelease ==> |rest| >= 32)
    ensures var o, escrows := Apply(env, s, tx), s.books.escrows;
            && (job !in escrows ==> o == Outcome(s, Some(EscrowNotFound)))
            && (job in escrows && escrows[job].status != Active ==> o == Outcome(s, Some(EscrowNotActive)))
            && (job in escrows && escrows[job].status == Active ==>
                  && o.error == None
                  && o.state.books.escrows
                     == escrows[job := escrows[job].(status := if tx.kind == EscrowRefund then Refunded else Released)])
  {
    assert tx.payload[0..32] == job;
  }

  /** A job settlement (receipt, output) by an operator releases the escrow under the sender's own id
      if it is active, and anchors the output at the current height. */
  lemma JobSettleEffect(env: Env, s: ChainState, tx: Tx, receipt: Id, output: Id, rest: seq<Byte>)
    requires Covered(s.books) && Passes(env, s, tx) && tx.kind == JobSettle && |receipt| == 32 && |output| == 32
    requires tx.payload == receipt + output + rest
    ensures var o, job := Apply(env, s, tx), tx.sender;
            && o.error == None
            && o.state.books.escrows
               == (if job in s.books.escrows && s.books.escrows[job].status == Active
                   then s.books.escrows[job := s.books.escrows[job].(status := Released)] else s.books.escrows)
            && var k := env.anchorId(job, job, output, s.height);
               k in o.state.anchors && o.state.anchors[k] == Anchor(job, job, output, ZERO_ID, 0, s.height)
  {
    assert tx.payload[32..64] == output;
  }

  function Clamp(x: int, max: nat): (r: nat)
    ensures r <= max
  {
    if x < 0 then 0 else if x > max then max else x
  }

  /** The reputation moves by the delta within 0 and 10000; the operator then serves from 1000 up, or
      from 500 up if it was serving. Nothing else changes. */
  ghost predicate Rated(s: ChainState, s': ChainState, id: Id, delta: int) {
    && (id !in s.operators ==> s' == s)
    && (id in s.operators ==>
          && id in s'.operators
          && var op, op' := s.operators[id], s'.operators[id];
             && op'.reputation == Clamp(op.reputation + delta, 10000)
             && (op'.status == Serving <==>
                   op'.reputation >= 1000 || (op'.reputation >= 500 && op.status == Serving))
             && op' == op.(reputation := op'.reputation, status := op'.status)
             && s' == s.(operators := s.operators[id := op']))
  }

  lemma RateIsRated(s: ChainState, id: Id, delta: int)
    requires RegistryOk(s.operators)
    ensures Rate(s, id, delta).error == None && Rated(s, Rate(s, id, delta).state, id, delta)
  {
  }

  /** A reputation update: operator, signed delta. */
  lemma ReputationEffect(env: Env, s: ChainState, tx: Tx, id: Id, delta: int, rest: seq<Byte>)
    requires RegistryOk(s.operators) && Passes(env, s, tx) && tx.kind == ReputationUpdate && |id| == 32
    requires InRange(SInt(8, delta)) && tx.payload == id + Encode(SInt(8, delta)) + rest
    ensures Apply(env, s, tx).error == None && Rated(s, Apply(env, s, tx).state, id, delta)
  {
    SignedRoundTrip(delta, 8);
    ReadsRating(tx.payload, id, Encode(SInt(8, delta)), rest);
    RateIsRated(s, id, delta);
    assert Apply(env, s, tx) == HandleOperator(s, tx);
  }

  lemma ReadsRating(p: seq<Byte>, id: Id, delta: seq<Byte>, rest: seq<Byte>)
    requires |id| == 32 && |delta| == 8 && p == id + delta + rest
    ensures Id0(p) == id && U64At(p, 32) == FromLittleEndian(delta)
  {
    assert p[0..32] == id && p[32..40] == delta;
  }

  /** A registration (operator, key, stake): the larger of fee and stake, a reputation of 1000, serving,
      filed under its stake. */
  lemma RegisterEffect(env: Env, s: ChainState, tx: Tx, id: Id, key: Id, stake: nat, rest: seq<Byte>)
    requires Passes(env, s, tx) && tx.kind == OperatorRegister && |id| == 32 && |key| == 32 && stake < U64_LIMIT
    requires tx.payload == id + key + Encode(UInt(8, stake)) + rest
    ensures var o := Apply(env, s, tx);
            && o.error == None && id in o.state.operators
            && var op := o.state.operators[id];
               && op.pubkey == key && op.stake >= stake && op.stake >= tx.fee
               && (op.stake == stake || op.stake == tx.fee)
               && op.reputation == 1000 && op.status == Serving && op.lastUpdate == s.height
               && o.state.operators == s.operators[id := op]
               && id in Bucket(o.state.stakeIndex, op.stake / 1000)
  {
    var p := tx.payload;
    ReadBack(stake);
    assert p[0..32] == id && p[32..64] == key && p[64..72] == Encode(UInt(8, stake));
    var b := Max(tx.fee, stake) / 1000;
    assert (Bucket(s.stakeIndex, b) + [id])[|Bucket(s.stakeIndex, b)|] == id;
  }

  /** A legacy submission (operator, compute, output) files an unsettled receipt of the sender, and a
      legacy settlement (receipt) settles a filed one and is refused otherwise. */
  lemma ReceiptEffect(env: Env, s: ChainState, tx: Tx, operator: Id, compute: nat, output: Id, rest: seq<Byte>)
    requires Passes(env, s, tx) && tx.kind == IntelligenceSubmit && |operator| == 32 && |output| == 32
    requires compute < U64_LIMIT && tx.payload == operator + Encode(UInt(8, compute)) + output + rest
    ensures var o, k := Apply(env, s, tx), env.receiptId(tx.sender, operator);
            && o.error == None
            && o.state == s.(legacy := s.legacy[k := Receipt(tx.sender, operator, output, compute, tx.fee, false)])
  {
    var p := tx.payload;
    ReadBack(compute);
    assert p[0..32] == operator && p[32..40] == Encode(UInt(8, compute)) && p[40..72] == output;
  }

  lemma ReceiptSettled(env: Env, s: ChainState, tx: Tx, k: Id, rest: seq<Byte>)
    requires Passes(env, s, tx) && tx.kind == IntelligenceSettle && |k| == 32 && tx.payload == k + rest
    ensures var o := Apply(env, s, tx);
            && (o.error == None <==> k in s.legacy)
            && (k in s.legacy ==> o.state == s.(legacy := s.legacy[k := s.legacy[k].(settled := true)]))
  {
    assert tx.payload[0..32] == k;
  }

  // ---------- Refusals ----------

  /** The bytes a transaction's fields take, by kind; a legacy submission and the kinds without effect
      need none. */
  function FieldBytes(kind: TxType): (n: nat) {
    match kind
    case JobSubmit => 32 + 32 + 8 + 8
    case JobSettle => 32 + 32
    case ArtifactCommit => 32 + 8
    case OperatorRegister => 32 + 32 + 8
    case OperatorUpdate => 32
    case ReputationUpdate => 32 + 8
    case EscrowDeposit => 32 + 8
    case EscrowRelease => 32 + 32
    case EscrowRefund => 32
    case IntelligenceSettle => 32
    case _ => 0
  }

  /** A transaction whose payload is too short for its fields is refused as invalid. */
  lemma ShortIsRefused(env: Env, s: ChainState, tx: Tx)
    requires |tx.payload| < FieldBytes(tx.kind)
    ensures Apply(env, s, tx) == Outcome(s, Some(InvalidTransaction))
  {
  }

  /** A signed transaction of a registered sender with a key that does not check out is refused, unless it
      is a vote or a transfer; anything unsigned, or from a sender without a key, passes the check. */
  lemma ForgeryIsRefused(env: Env, s: ChainState, tx: Tx)
    ensures var keyed := tx.sender in s.operators && s.operators[tx.sender].pubkey != ZERO_ID;
            var exempt := tx.kind == GovernanceVote || tx.kind == Transfer;
            var forged := !exempt && keyed && tx.signature != []
                          && !env.authorised(s.operators[tx.sender].pubkey, tx);
            && (forged ==> Apply(env, s, tx) == Outcome(s, Some(InvalidTransaction)))
            && (!forged && WellFormed(tx) ==> Passes(env, s, tx))
  {
  }

  /** An operator update only asks whether the operator is serving. */
  lemma UpdateEffect(env: Env, s: ChainState, tx: Tx, id: Id, rest: seq<Byte>)
    requires Passes(env, s, tx) && tx.kind == OperatorUpdate && |id| == 32 && tx.payload == id + rest
    ensures var serving := id in s.operators && s.operators[id].status == Serving;
            Apply(env, s, tx) == Outcome(s, if serving then None else Some(OperatorNotActive))
  {
    assert tx.payload[0..32] == id;
  }
}
