/** Transactions and blocks of crates/truth/src/state.rs: payload parsing, the handlers that reach the
    escrow books and the operator registry, and the block loop, which stops at the first error and
    keeps what was applied before it. Signature checks and receipt hashes are parameters. */
module Chain {
  import opened Prelude
  import opened MapSum
  import opened Codec
  import opened CodecItems
  import opened Settlement

  datatype TxType =
    | JobSubmit | JobSettle | ArtifactCommit
    | OperatorRegister | OperatorUpdate | ReputationUpdate
    | EscrowDeposit | EscrowRelease | EscrowRefund
    | GovernanceVote
    | Transfer | ContractDeploy | ContractCall | IntelligenceSubmit | IntelligenceSettle

  datatype Tx = Tx(kind: TxType, sender: Id, payload: seq<Byte>, fee: nat, signature: seq<Byte>)

  datatype TxError = InvalidTransaction | EscrowNotFound | EscrowNotActive | OperatorNotActive

  datatype OperatorStatus = Registered | Serving | Suspended | Slashed | Deregistered

  datatype Operator = Operator(pubkey: Id, stake: nat, reputation: nat, status: OperatorStatus,
                               region: string, capabilities: seq<string>, slashedCount: nat,
                               jobsCompleted: nat, computeUnits: nat, lastUpdate: nat)

  /** What a job settlement leaves behind for verification. */
  datatype Anchor = Anchor(job: Id, operator: Id, output: Id, input: Id, compute: nat, block: nat)

  /** A legacy receipt. */
  datatype Receipt = Receipt(job: Id, operator: Id, output: Id, compute: nat, fee: nat, settled: bool)

  /** The registry's index files operator ids under their stake in thousands. */
  datatype ChainState = ChainState(height: nat, books: Books, operators: map<Id, Operator>,
                                   stakeIndex: map<nat, seq<Id>>, anchors: map<Id, Anchor>,
                                   legacy: map<Id, Receipt>)

  /** What the model takes from outside: the signature check and the two receipt hashes. */
  datatype Env = Env(authorised: (Id, Tx) -> bool, receiptId: (Id, Id) -> Id, anchorId: (Id, Id, Id, nat) -> Id)

  datatype Outcome = Outcome(state: ChainState, error: Option<TxError>)

  const GENESIS: ChainState := ChainState(0, NO_BOOKS, map[], map[], map[], map[])
  const ZERO_ID: Id := Zeros(32)

  function Zeros(n: nat): (bytes: seq<Byte>)
    ensures |bytes| == n
  {
    if n == 0 then [] else Zeros(n - 1) + [0]
  }

  function Id0(payload: seq<Byte>): (id: Id)
    requires |payload| >= 32
  {
    payload[0..32]
  }

  function U64At(payload: seq<Byte>, at: nat): (n: nat)
    requires at + 8 <= |payload|
  {
    FromLittleEndian(payload[at..at + 8])
  }

  predicate WellFormed(tx: Tx) {
    tx.payload != [] || tx.kind == Transfer
  }

  /** A signed transaction of a registered sender must check out; votes and transfers are exempt. */
  predicate Admitted(env: Env, s: ChainState, tx: Tx) {
    tx.kind == GovernanceVote || tx.kind == Transfer || tx.signature == []
    || tx.sender !in s.operators || s.operators[tx.sender].pubkey == ZERO_ID
    || env.authorised(s.operators[tx.sender].pubkey, tx)
  }

  function Raise(op: Operator, delta: nat): (op': Operator) {
    var r := Min(op.reputation + delta, 10000);
    op.(reputation := r, status := if op.status == Suspended && r >= 1000 then Serving else op.status)
  }

  function Lower(op: Operator, delta: nat): (op': Operator) {
    var r := SaturatingSub(op.reputation, delta);
    op.(reputation := r, status := if op.status == Serving && r < 500 then Suspended else op.status)
  }

  function Fail(s: ChainState, e: TxError): (o: Outcome) {
    Outcome(s, Some(e))
  }

  function Done(s: ChainState): (o: Outcome) {
    Outcome(s, None)
  }

  function OnBooks(s: ChainState, a: Action): (o: Outcome) {
    Done(s.(books := Act(s.books, a)))
  }

  /** A release or refund transaction is refused unless the escrow exists and is active. */
  function Settle(s: ChainState, job: Id, a: Action): (o: Outcome) {
    if job !in s.books.escrows then Fail(s, EscrowNotFound)
    else if s.books.escrows[job].status != Active then Fail(s, EscrowNotActive)
    else OnBooks(s, a)
  }

  function Rate(s: ChainState, id: Id, delta: int): (o: Outcome) {
    if id !in s.operators then Done(s)
    else
      var op := s.operators[id];
      Done(s.(operators := s.operators[id := if delta >= 0 then Raise(op, delta) else Lower(op, -delta)]))
  }

  function Bucket(index: map<nat, seq<Id>>, b: nat): (ids: seq<Id>) {
    if b in index then index[b] else []
  }

  /** An operator as a registration transaction creates it. */
  function NewOperator(pubkey: Id, stake: nat, block: nat): (op: Operator) {
    Operator(pubkey, stake, 1000, Serving, "global", [], 0, 0, 0, block)
  }

  /** Registering files the id under its stake; a listing under an earlier stake stays. */
  function Register(s: ChainState, id: Id, op: Operator): (s': ChainState) {
    var b := op.stake / 1000;
    s.(operators := s.operators[id := op], stakeIndex := s.stakeIndex[b := Bucket(s.stakeIndex, b) + [id]])
  }

  function FileAnchor(env: Env, s: ChainState, sender: Id, output: Id): (s': ChainState) {
    s.(anchors := s.anchors[env.anchorId(sender, sender, output, s.height) :=
                              Anchor(sender, sender, output, ZERO_ID, 0, s.height)])
  }

  function IdOrZero(payload: seq<Byte>, at: nat): (id: Id) {
    if |payload| < at + 32 then ZERO_ID else payload[at..at + 32]
  }

  function U64OrZero(payload: seq<Byte>, at: nat): (n: nat) {
    if |payload| < at + 8 then 0 else U64At(payload, at)
  }

  /** Missing payload fields of a legacy receipt default to zero. */
  function LegacyReceipt(tx: Tx): (r: Receipt) {
    Receipt(tx.sender, IdOrZero(tx.payload, 0), IdOrZero(tx.payload, 40), U64OrZero(tx.payload, 32), tx.fee, false)
  }

  function FileReceipt(env: Env, s: ChainState, r: Receipt): (s': ChainState) {
    s.(legacy := s.legacy[env.receiptId(r.job, r.operator) := r])
  }

  predicate OnEscrows(kind: TxType) {
    kind in {JobSubmit, JobSettle, EscrowDeposit, EscrowRelease, EscrowRefund}
  }

  predicate OnRegistry(kind: TxType) {
    kind in {OperatorRegister, OperatorUpdate, ReputationUpdate}
  }

  function HandleEscrow(env: Env, s: ChainState, tx: Tx): (o: Outcome)
    requires OnEscrows(tx.kind)
  {
    var p := tx.payload;
    match tx.kind
    case JobSubmit =>
      if |p| < 80 then Fail(s, InvalidTransaction)
      else OnBooks(s, Create(Id0(p), tx.sender, U64At(p, 64), s.height, 500))
    case JobSettle =>
      if |p| < 64 then Fail(s, InvalidTransaction)
      else Done(FileAnchor(env, OnBooks(s, Release(tx.sender)).state, tx.sender, p[32..64]))
    case EscrowDeposit =>
      if |p| < 40 then Fail(s, InvalidTransaction)
      else OnBooks(s, Create(Id0(p), tx.sender, U64At(p, 32), s.height, 500))
    case EscrowRelease =>
      if |p| < 64 then Fail(s, InvalidTransaction) else Settle(s, Id0(p), Release(Id0(p)))
    case EscrowRefund =>
      if |p| < 32 then Fail(s, InvalidTransaction) else Settle(s, Id0(p), Refund(Id0(p)))
  }

  function HandleOperator(s: ChainState, tx: Tx): (o: Outcome)
    requires OnRegistry(tx.kind)
  {
    var p := tx.payload;
    match tx.kind
    case OperatorRegister =>
      if |p| < 72 then Fail(s, InvalidTransaction)
      else Done(Register(s, Id0(p), NewOperator(p[32..64], Max(tx.fee, U64At(p, 64)), s.height)))
    case OperatorUpdate =>
      if |p| < 32 then Fail(s, InvalidTransaction)
      else if Id0(p) in s.operators && s.operators[Id0(p)].status == Serving then Done(s)
      else Fail(s, OperatorNotActive)
    case ReputationUpdate =>
      if |p| < 40 then Fail(s, InvalidTransaction) else Rate(s, Id0(p), FromTwos(U64At(p, 32), 8))
  }

  function HandleReceipt(env: Env, s: ChainState, tx: Tx): (o: Outcome) {
    var p := tx.payload;
    match tx.kind
    case ArtifactCommit =>
      if |p| < 40 then Fail(s, InvalidTransaction) else Done(s)
    case IntelligenceSubmit => Done(FileReceipt(env, s, LegacyReceipt(tx)))
    case IntelligenceSettle =>
      if |p| < 32 || Id0(p) !in s.legacy then Fail(s, InvalidTransaction)
      else Done(s.(legacy := s.legacy[Id0(p) := s.legacy[Id0(p)].(settled := true)]))
    case _ => Done(s)
  }

  /** Transfers, contracts and votes have no effect. */
  function Handle(env: Env, s: ChainState, tx: Tx): (o: Outcome) {
    if OnEscrows(tx.kind) then HandleEscrow(env, s, tx)
    else if OnRegistry(tx.kind) then HandleOperator(s, tx)
    else HandleReceipt(env, s, tx)
  }

  function Apply(env: Env, s: ChainState, tx: Tx): (o: Outcome) {
    if !WellFormed(tx) || !Admitted(env, s, tx) then Fail(s, InvalidTransaction) else Handle(env, s, tx)
  }

  // ---------- What transactions and blocks keep ----------

  /** Operators reached by transactions: a reputation of at most 10000, and a status that trails it
      with hysteresis, suspended only below 1000 and serving only from 500. */
  ghost predicate RegistryOk(operators: map<Id, Operator>) {
    forall id :: id in operators ==>
      var op := operators[id];
      && op.reputation <= 10000
      && (op.status == Serving || op.status == Suspended)
      && (op.status == Serving ==> op.reputation >= 500)
      && (op.status == Suspended ==> op.reputation < 1000)
  }

  /** Every operator is filed under its current stake, and only registered ids are filed. */
  ghost predicate IndexOk(s: ChainState) {
    && (forall id :: id in s.operators ==> id in Bucket(s.stakeIndex, s.operators[id].stake / 1000))
    && (forall b, id :: b in s.stakeIndex && id in s.stakeIndex[b] ==> id in s.operators)
  }

  /** Anchors and legacy receipts are kept under their own hashes; no anchor is from the future. */
  ghost predicate ReceiptsOk(env: Env, s: ChainState) {
    && (forall k :: k in s.legacy ==> k == env.receiptId(s.legacy[k].job, s.legacy[k].operator))
    && (forall k :: k in s.anchors ==>
          var a := s.anchors[k];
          k == env.anchorId(a.job, a.operator, a.output, a.block) && a.block <= s.height)
  }

  ghost predicate ChainOk(env: Env, s: ChainState) {
    Balanced(s.books) && RegistryOk(s.operators) && IndexOk(s) && ReceiptsOk(env, s)
  }

  /** A refused transaction changes nothing. */
  lemma RefusedChangesNothing(env: Env, s: ChainState, tx: Tx)
    ensures Apply(env, s, tx).error.Some? ==> Apply(env, s, tx).state == s
  {
  }

  /** An escrow operation touches the books alone and keeps them balanced. */
  lemma OnBooksKeeps(env: Env, s: ChainState, a: Action)
    requires ChainOk(env, s)
    ensures ChainOk(env, OnBooks(s, a).state)
  {
    ActBalances(s.books, a);
  }

  lemma SettleKeeps(env: Env, s: ChainState, job: Id, a: Action)
    requires ChainOk(env, s)
    ensures ChainOk(env, Settle(s, job, a).state)
  {
    OnBooksKeeps(env, s, a);
  }

  lemma AnchorKeeps(env: Env, s: ChainState, sender: Id, output: Id)
    requires ChainOk(env, s)
    ensures ChainOk(env, FileAnchor(env, s, sender, output))
  {
  }

  lemma EscrowsKept(env: Env, s: ChainState, tx: Tx)
    requires OnEscrows(tx.kind) && ChainOk(env, s)
    ensures ChainOk(env, HandleEscrow(env, s, tx).state)
  {
    var p := tx.payload;
    match tx.kind
    case JobSubmit =>
      if |p| >= 80 { OnBooksKeeps(env, s, Create(Id0(p), tx.sender, U64At(p, 64), s.height, 500)); }
    case JobSettle =>
      if |p| >= 64 {
        OnBooksKeeps(env, s, Release(tx.sender));
        AnchorKeeps(env, OnBooks(s, Release(tx.sender)).state, tx.sender, p[32..64]);
      }
    case EscrowDeposit =>
      if |p| >= 40 { OnBooksKeeps(env, s, Create(Id0(p), tx.sender, U64At(p, 32), s.height, 500)); }
    case EscrowRelease => if |p| >= 64 { SettleKeeps(env, s, Id0(p), Release(Id0(p))); }
    case EscrowRefund => if |p| >= 32 { SettleKeeps(env, s, Id0(p), Refund(Id0(p))); }
  }

  lemma RegisterKeeps(s: ChainState, id: Id, op: Operator)
    requires IndexOk(s)
    ensures IndexOk(Register(s, id, op))
  {
    var s' := Register(s, id, op);
    var b := op.stake / 1000;
    assert s'.stakeIndex[b][|Bucket(s.stakeIndex, b)|] == id;
    forall k | k in s.operators ensures k in Bucket(s'.stakeIndex, s.operators[k].stake / 1000) {
      assert k in Bucket(s.stakeIndex, s.operators[k].stake / 1000);
    }
    forall c, k | c in s'.stakeIndex && k in s'.stakeIndex[c] ensures k in s'.operators {
      assert k == id || k in Bucket(s.stakeIndex, c);
    }
  }

  lemma RateKeeps(s: ChainState, id: Id, delta: int)
    requires RegistryOk(s.operators) && IndexOk(s)
    ensures RegistryOk(Rate(s, id, delta).state.operators) && IndexOk(Rate(s, id, delta).state)
  {
  }

  lemma RegistryKept(s: ChainState, tx: Tx)
    requires OnRegistry(tx.kind) && RegistryOk(s.operators) && IndexOk(s)
    ensures var s' := HandleOperator(s, tx).state;
            && RegistryOk(s'.operators) && IndexOk(s')
            && s'.books == s.books && s'.anchors == s.anchors && s'.legacy == s.legacy && s'.height == s.height
  {
    var p := tx.payload;
    if tx.kind == OperatorRegister && |p| >= 72 {
      RegisterKeeps(s, Id0(p), NewOperator(p[32..64], Max(tx.fee, U64At(p, 64)), s.height));
    } else if tx.kind == ReputationUpdate && |p| >= 40 {
      RateKeeps(s, Id0(p), FromTwos(U64At(p, 32), 8));
    }
  }

  lemma ReceiptsKept(env: Env, s: ChainState, tx: Tx)
    requires ReceiptsOk(env, s)
    ensures var s' := HandleReceipt(env, s, tx).state;
            && ReceiptsOk(env, s')
            && s'.books == s.books && s'.operators == s.operators && s'.stakeIndex == s.stakeIndex
  {
  }

  lemma HandleKeepsChain(env: Env, s: ChainState, tx: Tx)
    requires ChainOk(env, s)
    ensures ChainOk(env, Handle(env, s, tx).state)
  {
    if OnEscrows(tx.kind) {
      EscrowsKept(env, s, tx);
    } else if OnRegistry(tx.kind) {
      RegistryKept(s, tx);
    } else {
      ReceiptsKept(env, s, tx);
    }
  }

  /** The block loop stops at the first refused transaction. */
  function ApplyBlock(env: Env, s: ChainState, txs: seq<Tx>): (o: Outcome)
    decreases |txs|
  {
    if txs == [] then Done(s)
    else
      var o := Apply(env, s, txs[0]);
      if o.error.Some? then o else ApplyBlock(env, o.state, txs[1..])
  }

  /** Every block, accepted or refused half-way, keeps conservation, single payment, the registry
      with its index, and the receipts. */
  lemma {:induction false} BlockKeepsChain(env: Env, s: ChainState, txs: seq<Tx>)
    requires ChainOk(env, s)
    ensures ChainOk(env, ApplyBlock(env, s, txs).state)
    decreases |txs|
  {
    if txs != [] {
      HandleKeepsChain(env, s, txs[0]);
      var o := Apply(env, s, txs[0]);
      if o.error.None? {
        BlockKeepsChain(env, o.state, txs[1..]);
      }
    }
  }

  /** A refused block is not rolled back: it leaves exactly the effect of the transactions before the
      first refused one. */
  lemma {:induction false} RefusedBlockKeepsPrefix(env: Env, s: ChainState, txs: seq<Tx>) returns (i: nat)
    requires ApplyBlock(env, s, txs).error.Some?
    ensures i < |txs| && ApplyBlock(env, s, txs[..i]) == Done(ApplyBlock(env, s, txs).state)
    ensures Apply(env, ApplyBlock(env, s, txs).state, txs[i]).error == ApplyBlock(env, s, txs).error
    decreases |txs|
  {
    var o := Apply(env, s, txs[0]);
    if o.error.Some? {
      RefusedChangesNothing(env, s, txs[0]);
      i := 0;
    } else {
      var j := RefusedBlockKeepsPrefix(env, o.state, txs[1..]);
      i := j + 1;
      assert txs[..i][1..] == txs[1..][..j];
    }
  }

  /** A failing input for atomic blocks: a deposit followed by a refund without a payload. */
  lemma RefusedBlockLeavesDeposit(env: Env) returns (txs: seq<Tx>)
    ensures txs == [Tx(EscrowDeposit, ZERO_ID, ZERO_ID + [0, 0, 0, 0, 0, 0, 0, 0], 0, []),
                    Tx(EscrowRefund, ZERO_ID, [], 0, [])]
    ensures var o := ApplyBlock(env, GENESIS, txs);
            && o.error == Some(InvalidTransaction) && ZERO_ID !in GENESIS.books.escrows
            && ZERO_ID in o.state.books.escrows && o.state.books.escrows[ZERO_ID].status == Active
  {
    var deposit := Tx(EscrowDeposit, ZERO_ID, ZERO_ID + [0, 0, 0, 0, 0, 0, 0, 0], 0, []);
    var refund := Tx(EscrowRefund, ZERO_ID, [], 0, []);
    txs := [deposit, refund];
    assert Id0(deposit.payload) == ZERO_ID;
    var held := Apply(env, GENESIS, deposit).state;
    assert txs[1..] == [refund];
    assert ApplyBlock(env, held, [refund]) == Fail(held, InvalidTransaction);
  }

  // ---------- Exactly when a refused block leaves the books alone ----------

  /** A transaction that would move the books: any deposit, release or refund, and a job settlement
      whose sender's escrow is active. */
  predicate MovesBooks(b: Books, tx: Tx) {
    tx.kind in {JobSubmit, EscrowDeposit, EscrowRelease, EscrowRefund}
    || (tx.kind == JobSettle && InStatus(b, tx.sender, Active))
  }

  /** How many deposits and payments the books have seen. */
  function Volume(b: Books): (n: nat) {
    b.ledger.next + |b.ledger.payments|
  }

  ghost predicate Covered(b: Books) {
    b.ledger.holder.Keys == b.escrows.Keys
  }

  lemma SettleMoves(s: ChainState, job: Id, a: Action)
    requires Covered(s.books) && (a == Release(job) || a == Refund(job))
    ensures var o := Settle(s, job, a);
            Covered(o.state.books) && (o.error.None? ==> Volume(o.state.books) == Volume(s.books) + 1)
  {
  }

  lemma EscrowVolume(env: Env, s: ChainState, tx: Tx)
    requires Covered(s.books) && OnEscrows(tx.kind) && HandleEscrow(env, s, tx).error.None?
    ensures var b := HandleEscrow(env, s, tx).state.books;
            && Covered(b)
            && (MovesBooks(s.books, tx) ==> Volume(b) == Volume(s.books) + 1)
            && (!MovesBooks(s.books, tx) ==> b == s.books)
  {
    var p := tx.payload;
    if tx.kind == EscrowRelease {
      SettleMoves(s, Id0(p), Release(Id0(p)));
    } else if tx.kind == EscrowRefund {
      SettleMoves(s, Id0(p), Refund(Id0(p)));
    }
  }

  /** An accepted transaction moves the books, for good, exactly when it would. */
  lemma VolumeStep(env: Env, s: ChainState, tx: Tx)
    requires Covered(s.books) && Apply(env, s, tx).error.None?
    ensures var b := Apply(env, s, tx).state.books;
            && Covered(b)
            && (MovesBooks(s.books, tx) ==> Volume(b) == Volume(s.books) + 1)
            && (!MovesBooks(s.books, tx) ==> b == s.books)
  {
    if OnEscrows(tx.kind) {
      EscrowVolume(env, s, tx);
    }
  }

  lemma {:induction false} VolumeGrows(env: Env, s: ChainState, txs: seq<Tx>)
    requires Covered(s.books) && ApplyBlock(env, s, txs).error.None?
    ensures Volume(ApplyBlock(env, s, txs).state.books) >= Volume(s.books)
    decreases |txs|
  {
    if txs != [] {
      VolumeStep(env, s, txs[0]);
      VolumeGrows(env, Apply(env, s, txs[0]).state, txs[1..]);
    }
  }

  /** An accepted block leaves the books alone exactly when none of its transactions would move them. */
  lemma {:induction false} AcceptedBlockBooks(env: Env, s: ChainState, txs: seq<Tx>)
    requires Covered(s.books) && ApplyBlock(env, s, txs).error.None?
    ensures ApplyBlock(env, s, txs).state.books == s.books <==> forall tx :: tx in txs ==> !MovesBooks(s.books, tx)
    decreases |txs|
  {
    if txs != [] {
      var next := Apply(env, s, txs[0]).state;
      VolumeStep(env, s, txs[0]);
      if MovesBooks(s.books, txs[0]) {
        VolumeGrows(env, next, txs[1..]);
        assert txs[0] in txs;
      } else {
        AcceptedBlockBooks(env, next, txs[1..]);
        assert txs == [txs[0]] + txs[1..];
      }
    }
  }

  /** A refused block leaves the books alone exactly when no transaction before the refused one would
      move them, judged on the books before the block. */
  lemma RefusedBlockBooks(env: Env, s: ChainState, txs: seq<Tx>) returns (i: nat)
    requires Covered(s.books) && ApplyBlock(env, s, txs).error.Some?
    ensures i < |txs| && Apply(env, ApplyBlock(env, s, txs[..i]).state, txs[i]).error.Some?
    ensures ApplyBlock(env, s, txs).state.books == s.books
       <==> forall tx :: tx in txs[..i] ==> !MovesBooks(s.books, tx)
  {
    i := RefusedBlockKeepsPrefix(env, s, txs);
    AcceptedBlockBooks(env, s, txs[..i]);
  }

  // ---------- Runs ----------

  /** A block, a new height, or an escrow operation called on the settlement layer itself. */
  datatype Move = Block(txs: seq<Tx>) | NextHeight | Direct(action: Action)

  function Advance(env: Env, s: ChainState, m: Move): (s': ChainState) {
    match m
    case Block(txs) => ApplyBlock(env, s, txs).state
    case NextHeight => s.(height := s.height + 1)
    case Direct(a) => OnBooks(s, a).state
  }

  function Run(env: Env, moves: seq<Move>): (s: ChainState) {
    if moves == [] then GENESIS else Advance(env, Run(env, moves[..|moves| - 1]), moves[|moves| - 1])
  }

  lemma AdvanceKeepsChain(env: Env, s: ChainState, m: Move)
    requires ChainOk(env, s)
    ensures ChainOk(env, Advance(env, s, m))
  {
    match m
    case Block(txs) => BlockKeepsChain(env, s, txs);
    case NextHeight =>
    case Direct(a) => ActBalances(s.books, a);
  }

  /** From genesis, through any blocks, heights and direct escrow operations: deposits equal payments
      plus what is held plus what was overwritten unpaid, no escrow is paid twice, and the registry,
      its index and the receipts stay consistent. */
  lemma {:induction false} EveryChainRunConserves(env: Env, moves: seq<Move>)
    ensures ChainOk(env, Run(env, moves))
    ensures var b := Run(env, moves).books;
            && Sum(b.ledger.deposits) == TotalPaid(b.ledger.payments) + Held(b.escrows) + b.ledger.overwritten
            && Distinct(Serials(b.ledger.payments))
  {
    if moves == [] {
      EmptyBooksBalanced();
    } else {
      EveryChainRunConserves(env, moves[..|moves| - 1]);
      AdvanceKeepsChain(env, Run(env, moves[..|moves| - 1]), moves[|moves| - 1]);
    }
  }

  class State {
    var height: nat
    const settlement: SettlementState
    var operators: map<Id, Operator>
    var stakeIndex: map<nat, seq<Id>>
    var anchors: map<Id, Anchor>
    var legacy: map<Id, Receipt>
    const env: Env

    ghost function Chain(): (s: ChainState)
      reads this, settlement
    {
      ChainState(height, settlement.Accounts(), operators, stakeIndex, anchors, legacy)
    }

    ghost predicate Valid()
      reads this, settlement
    {
      ChainOk(env, Chain())
    }

    constructor (env: Env)
      ensures Valid() && Chain() == GENESIS && this.env == env && fresh(settlement)
    {
      height, operators, stakeIndex, anchors, legacy, this.env := 0, map[], map[], map[], map[], env;
      settlement := new SettlementState();
    }

    method SubmitJob(job: Id, tx: Tx, amount: nat)
      requires Valid()
      modifies this, settlement
      ensures Chain() == OnBooks(old(Chain()), Create(job, tx.sender, amount, old(height), 500)).state
    {
      settlement.CreateEscrow(job, tx.sender, amount, height, 500);
    }

    method SettleJob(tx: Tx, output: Id)
      requires Valid()
      modifies this, settlement
      ensures Chain() == FileAnchor(env, OnBooks(old(Chain()), Release(tx.sender)).state, tx.sender, output)
    {
      if tx.sender in settlement.escrows {
        var paid := settlement.Settle(tx.sender, false);
      }
      var anchor := Anchor(tx.sender, tx.sender, output, ZERO_ID, 0, height);
      anchors := anchors[env.anchorId(anchor.job, anchor.operator, output, height) := anchor];
    }

    method SettleEscrow(job: Id, refund: bool) returns (error: Option<TxError>)
      requires Valid()
      modifies this, settlement
      ensures Outcome(Chain(), error) == Settle(old(Chain()), job, if refund then Refund(job) else Release(job))
    {
      var amount, failure := settlement.SettleEscrow(job, refund);
      match failure
      case None => error := None;
      case Some(f) => error := Some(if f == NoSuchEscrow then EscrowNotFound else EscrowNotActive);
    }

    method UpdateReputation(id: Id, delta: int)
      requires Valid()
      modifies this
      ensures Chain() == Rate(old(Chain()), id, delta).state
    {
      if id in operators {
        var op := operators[id];
        if delta >= 0 {
          op := op.(reputation := if op.reputation + delta < 10000 then op.reputation + delta else 10000);
          if op.status == Suspended && op.reputation >= 1000 {
            op := op.(status := Serving);
          }
        } else {
          op := op.(reputation := if op.reputation < -delta then 0 else op.reputation + delta);
          if op.status == Serving && op.reputation < 500 {
            op := op.(status := Suspended);
          }
        }
        operators := operators[id := op];
      }
    }

    /** The handlers of the escrow and job transactions. */
    method ApplyEscrow(tx: Tx) returns (error: Option<TxError>)
      requires Valid()
      requires OnEscrows(tx.kind)
      modifies this, settlement
      ensures Outcome(Chain(), error) == HandleEscrow(env, old(Chain()), tx)
    {
      var p := tx.payload;
      var need := if tx.kind == JobSubmit then 80 else if tx.kind == EscrowDeposit then 40
                  else if tx.kind == EscrowRefund then 32 else 64;
      if |p| < need {
        return Some(InvalidTransaction);
      }
      error := None;
      match tx.kind
      case JobSubmit => SubmitJob(p[0..32], tx, FromLittleEndian(p[64..72]));
      case JobSettle => SettleJob(tx, p[32..64]);
      case EscrowDeposit => SubmitJob(p[0..32], tx, FromLittleEndian(p[32..40]));
      case EscrowRelease => error := SettleEscrow(p[0..32], false);
      case EscrowRefund => error := SettleEscrow(p[0..32], true);
    }

    /** The handlers of the operator transactions. */
    method ApplyOperator(tx: Tx) returns (error: Option<TxError>)
      requires Valid() && OnRegistry(tx.kind)
      modifies this
      ensures Outcome(Chain(), error) == HandleOperator(old(Chain()), tx)
    {
      var p := tx.payload;
      error := None;
      match tx.kind
      case OperatorRegister =>
        if |p| < 72 { return Some(InvalidTransaction); }
        var declared := FromLittleEndian(p[64..72]);
        var stake := if tx.fee > declared then tx.fee else declared;
        var id := p[0..32];
        stakeIndex := stakeIndex[stake / 1000 := Bucket(stakeIndex, stake / 1000) + [id]];
        operators := operators[id := Operator(p[32..64], stake, 1000, Serving, "global", [], 0, 0, 0, height)];
      case OperatorUpdate =>
        if |p| < 32 { return Some(InvalidTransaction); }
        if p[0..32] !in operators || operators[p[0..32]].status != Serving { return Some(OperatorNotActive); }
      case ReputationUpdate =>
        if |p| < 40 { return Some(InvalidTransaction); }
        UpdateReputation(p[0..32], FromTwos(FromLittleEndian(p[32..40]), 8));
    }

    /** The handlers of the artifact and legacy receipt transactions; the others have no effect. */
    method ApplyReceipt(tx: Tx) returns (error: Option<TxError>)
      modifies this`legacy
      ensures Outcome(Chain(), error) == HandleReceipt(env, old(Chain()), tx)
    {
      var p := tx.payload;
      error := None;
      match tx.kind
      case ArtifactCommit =>
        if |p| < 40 { return Some(InvalidTransaction); }
      case IntelligenceSubmit =>
        var operator := if |p| < 32 then ZERO_ID else p[0..32];
        var compute := if |p| < 40 then 0 else FromLittleEndian(p[32..40]);
        var output := if |p| < 72 then ZERO_ID else p[40..72];
        legacy := legacy[env.receiptId(tx.sender, operator) :=
                           Receipt(tx.sender, operator, output, compute, tx.fee, false)];
      case IntelligenceSettle =>
        if |p| < 32 || p[0..32] !in legacy { return Some(InvalidTransaction); }
        if !legacy[p[0..32]].settled {
          legacy := legacy[p[0..32] := legacy[p[0..32]].(settled := true)];
        }
      case _ =>
    }

    method ApplyTransaction(tx: Tx) returns (error: Option<TxError>)
      requires Valid()
      modifies this, settlement
      ensures Valid() && Outcome(Chain(), error) == Apply(env, old(Chain()), tx)
    {
      HandleKeepsChain(env, Chain(), tx);
      if tx.payload == [] && tx.kind != Transfer {
        return Some(InvalidTransaction);
      }
      if tx.kind != GovernanceVote && tx.kind != Transfer {
        var pubkey := if tx.sender in operators then operators[tx.sender].pubkey else ZERO_ID;
        if tx.signature != [] && pubkey != ZERO_ID && !env.authorised(pubkey, tx) {
          return Some(InvalidTransaction);
        }
      }
      if OnEscrows(tx.kind) {
        error := ApplyEscrow(tx);
      } else if OnRegistry(tx.kind) {
        error := ApplyOperator(tx);
      } else {
        error := ApplyReceipt(tx);
      }
    }

    method ApplyBlockTransactions(txs: seq<Tx>) returns (error: Option<TxError>)
      requires Valid()
      modifies this, settlement
      ensures Valid() && Outcome(Chain(), error) == ApplyBlock(env, old(Chain()), txs)
    {
      error := None;
      for i := 0 to |txs|
        invariant Valid()
        invariant ApplyBlock(env, Chain(), txs[i..]) == ApplyBlock(env, old(Chain()), txs)
      {
        assert txs[i..][1..] == txs[i + 1..];
        error := ApplyTransaction(txs[i]);
        if error.Some? {
          return;
        }
      }
      error := None;
    }

    method IncrementHeight()
      requires Valid()
      modifies this`height
      ensures Valid() && Chain() == old(Chain()).(height := old(height) + 1)
    {
      height := height + 1;
    }
  }
}
