/** Cross-partition messages, partition roots and artifact receipts of
    crates/truth/src/cross_partition.rs, and what every run of their steps keeps. */
module CrossPartition {
  import opened Prelude

  type Hash = nat
  type PartitionId = nat
  type ReceiptKey = (Hash, Hash)

  datatype Message = Message(id: Hash, source: PartitionId, target: PartitionId, sourceHeight: nat,
                             payload: Hash, nonce: nat)
  datatype Proof = Proof(partitionRoot: Hash, path: seq<Hash>, validatorCount: nat)
  datatype Commit = Commit(operator: Hash, job: Hash, output: Hash, nonce: nat, height: nat)
  datatype Receipt = Receipt(output: Hash, operator: Hash, height: nat)

  datatype Error =
    | MessageAlreadyConsumed | SourceHeightTooOld | PartitionNotFound | PartitionRootMismatch
    | MerkleProofInvalid | InvalidQC | DuplicateReceipt | NonceReused

  /** Partitions with their own root, the global roots, the consumed messages and the receipts. */
  datatype Manager = Manager(partitions: map<PartitionId, Hash>, roots: map<PartitionId, Hash>, consumed: set<Hash>,
                             minHeight: nat, receipts: map<ReceiptKey, Receipt>, nonces: map<ReceiptKey, set<nat>>)

  const EMPTY: Manager := Manager(map[], map[], {}, 0, map[], map[])
  const PRUNE_WINDOW := 10000

  // ---------- The order-free path check ----------

  function PairHash(h: (Hash, Hash) -> Hash, a: Hash, b: Hash): (r: Hash) {
    if a < b then h(a, b) else h(b, a)
  }

  function PathRoot(h: (Hash, Hash) -> Hash, leaf: Hash, path: seq<Hash>): (r: Hash) {
    if path == [] then leaf else PairHash(h, PathRoot(h, leaf, path[..|path| - 1]), path[|path| - 1])
  }

  method VerifyMerkleProof(h: (Hash, Hash) -> Hash, leaf: Hash, path: seq<Hash>, root: Hash) returns (ok: bool)
    ensures ok <==> PathRoot(h, leaf, path) == root
  {
    var current := leaf;
    for i := 0 to |path|
      invariant current == PathRoot(h, leaf, path[..i])
    {
      assert path[..i + 1][..i] == path[..i];
      current := if current < path[i] then h(current, path[i]) else h(path[i], current);
    }
    assert path[..|path|] == path;
    ok := current == root;
  }

  ghost predicate Separates(h: (Hash, Hash) -> Hash, a: Hash, b: Hash, x: Hash, y: Hash) {
    h(a, b) == h(x, y) ==> a == x && b == y
  }

  ghost predicate Injective(h: (Hash, Hash) -> Hash) {
    forall a, b, x, y :: Separates(h, a, b, x, y)
  }

  /** With an injective hash, one path to one root admits one leaf. */
  lemma {:induction false} PathAdmitsOne(h: (Hash, Hash) -> Hash, x: Hash, y: Hash, path: seq<Hash>)
    requires Injective(h) && PathRoot(h, x, path) == PathRoot(h, y, path)
    ensures x == y
    decreases |path|
  {
    if path != [] {
      var init, n := path[..|path| - 1], path[|path| - 1];
      var a, b := PathRoot(h, x, init), PathRoot(h, y, init);
      assert Separates(h, a, n, b, n) && Separates(h, n, a, n, b);
      assert Separates(h, a, n, n, b) && Separates(h, n, a, b, n);
      PathAdmitsOne(h, x, y, init);
    }
  }

  // ---------- Steps ----------

  datatype Op =
    | AddPartition(p: PartitionId)
    | RemovePartition(p: PartitionId)
    | UpdateRoot(p: PartitionId, root: Hash)
    | Process(message: Message, proof: Proof)
    | CommitArtifact(commit: Commit)
    | Prune(height: nat)

  function NoncesOf(m: Manager, key: ReceiptKey): (s: set<nat>) {
    if key in m.nonces then m.nonces[key] else {}
  }

  /** Why a step is refused, if it is; the checks in the order the source makes them. */
  function Refusal(h: (Hash, Hash) -> Hash, m: Manager, op: Op): (r: Option<Error>) {
    match op
    case Process(msg, proof) =>
      if msg.id in m.consumed then Some(MessageAlreadyConsumed)
      else if msg.sourceHeight < m.minHeight then Some(SourceHeightTooOld)
      else if msg.source !in m.roots then Some(PartitionNotFound)
      else if proof.partitionRoot != m.roots[msg.source] then Some(PartitionRootMismatch)
      else if PathRoot(h, msg.payload, proof.path) != proof.partitionRoot then Some(MerkleProofInvalid)
      else if proof.validatorCount < 2 then Some(InvalidQC)
      else None
    case CommitArtifact(c) =>
      if (c.job, c.operator) in m.receipts then Some(DuplicateReceipt)
      else if c.nonce in NoncesOf(m, (c.job, c.operator)) then Some(NonceReused)
      else None
    case _ => None
  }

  function Perform(m: Manager, op: Op): (m': Manager) {
    match op
    case AddPartition(p) => m.(partitions := m.partitions[p := 0], roots := m.roots[p := 0])
    case RemovePartition(p) => m.(partitions := m.partitions - {p}, roots := m.roots - {p})
    case UpdateRoot(p, root) =>
      m.(partitions := if p in m.partitions then m.partitions[p := root] else m.partitions, roots := m.roots[p := root])
    case Process(msg, _) => m.(consumed := m.consumed + {msg.id})
    case CommitArtifact(c) =>
      var key := (c.job, c.operator);
      m.(nonces := m.nonces[key := NoncesOf(m, key) + {c.nonce}],
         receipts := m.receipts[key := Receipt(c.output, c.operator, c.height)])
    case Prune(height) => m.(minHeight := SaturatingSub(height, PRUNE_WINDOW))
  }

  function Step(h: (Hash, Hash) -> Hash, m: Manager, op: Op): (m': Manager) {
    if Refusal(h, m, op).Some? then m else Perform(m, op)
  }

  // ---------- Runs ----------

  function Run(h: (Hash, Hash) -> Hash, ops: seq<Op>): (m: Manager) {
    if ops == [] then EMPTY else Step(h, Run(h, ops[..|ops| - 1]), ops[|ops| - 1])
  }

  /** The ids of the messages accepted during a run, in order. */
  function Accepted(h: (Hash, Hash) -> Hash, ops: seq<Op>): (ids: seq<Hash>) {
    if ops == [] then []
    else
      var prev, op := ops[..|ops| - 1], ops[|ops| - 1];
      Accepted(h, prev) + if op.Process? && Refusal(h, Run(h, prev), op).None? then [op.message.id] else []
  }

  /** Every known partition's global root is its own, and a key has nonces only with a receipt. */
  ghost predicate Consistent(m: Manager) {
    && (forall p :: p in m.partitions ==> p in m.roots && m.roots[p] == m.partitions[p])
    && m.nonces.Keys == m.receipts.Keys
  }

  lemma StepConsistent(h: (Hash, Hash) -> Hash, m: Manager, op: Op)
    requires Consistent(m)
    ensures Consistent(Step(h, m, op))
  {
  }

  /** In every run the roots agree, no message id is accepted twice, and the consumed set is exactly
      what was accepted, whatever was pruned in between. */
  lemma {:induction false} RunConsistent(h: (Hash, Hash) -> Hash, ops: seq<Op>)
    ensures Consistent(Run(h, ops))
    ensures Distinct(Accepted(h, ops)) && Elems(Accepted(h, ops)) == Run(h, ops).consumed
  {
    if ops != [] {
      var prev, op := ops[..|ops| - 1], ops[|ops| - 1];
      RunConsistent(h, prev);
      StepConsistent(h, Run(h, prev), op);
      AppendAccepted(Accepted(h, prev), if op.Process? then op.message.id else 0);
    }
  }

  lemma AppendAccepted(ids: seq<Hash>, id: Hash)
    ensures Elems(ids + [id]) == Elems(ids) + {id} && ids + [] == ids
    ensures Distinct(ids) && id !in Elems(ids) ==> Distinct(ids + [id])
  {
  }

  /** The nonce check can never fire: a key whose nonce was used already has a receipt. */
  lemma NonceNeverReused(h: (Hash, Hash) -> Hash, ops: seq<Op>, op: Op)
    ensures Refusal(h, Run(h, ops), op) != Some(NonceReused)
  {
    RunConsistent(h, ops);
  }

  /** A receipt, once there, is never replaced: each job and operator get at most one. */
  lemma {:induction false} ReceiptStands(h: (Hash, Hash) -> Hash, ops: seq<Op>, more: seq<Op>, key: ReceiptKey)
    requires key in Run(h, ops).receipts
    ensures key in Run(h, ops + more).receipts && Run(h, ops + more).receipts[key] == Run(h, ops).receipts[key]
    decreases |more|
  {
    if more == [] {
      assert ops + more == ops;
    } else {
      ReceiptStands(h, ops, more[..|more| - 1], key);
      assert (ops + more)[..|ops + more| - 1] == ops + more[..|more| - 1];
    }
  }

  // ---------- The manager against its history ----------

  /** The height of the latest prune. */
  function LastPrune(ops: seq<Op>): (height: Option<nat>) {
    if ops == [] then None
    else if ops[|ops| - 1].Prune? then Some(ops[|ops| - 1].height)
    else LastPrune(ops[..|ops| - 1])
  }

  /** The root last recorded for a partition that has not been removed since. */
  function LastRoot(ops: seq<Op>, p: PartitionId): (root: Option<Hash>) {
    if ops == [] then None
    else
      var init := ops[..|ops| - 1];
      match ops[|ops| - 1]
      case AddPartition(q) => if q == p then Some(0) else LastRoot(init, p)
      case RemovePartition(q) => if q == p then None else LastRoot(init, p)
      case UpdateRoot(q, root) => if q == p then Some(root) else LastRoot(init, p)
      case _ => LastRoot(init, p)
  }

  /** The first commit of a job and operator. */
  function FirstCommit(ops: seq<Op>, key: ReceiptKey): (c: Option<Commit>) {
    if ops == [] then None
    else
      var earlier, last := FirstCommit(ops[..|ops| - 1], key), ops[|ops| - 1];
      if earlier.Some? then earlier
      else if last.CommitArtifact? && (last.commit.job, last.commit.operator) == key then Some(last.commit)
      else None
  }

  lemma {:induction false} RootsFollow(h: (Hash, Hash) -> Hash, ops: seq<Op>, p: PartitionId)
    ensures p in Run(h, ops).roots <==> LastRoot(ops, p).Some?
    ensures p in Run(h, ops).roots ==> Run(h, ops).roots[p] == LastRoot(ops, p).value
  {
    if ops != [] {
      RootsFollow(h, ops[..|ops| - 1], p);
    }
  }

  lemma {:induction false} HeightFollows(h: (Hash, Hash) -> Hash, ops: seq<Op>)
    ensures match LastPrune(ops)
            case None => Run(h, ops).minHeight == 0
            case Some(last) => Run(h, ops).minHeight == if last < 10000 then 0 else last - 10000
  {
    if ops != [] {
      HeightFollows(h, ops[..|ops| - 1]);
    }
  }

  /** In every run a job and operator have a receipt exactly when they have committed, and it carries the
      output, operator and height of their first commit. */
  lemma {:induction false} ReceiptIsFirstCommit(h: (Hash, Hash) -> Hash, ops: seq<Op>, key: ReceiptKey)
    ensures key in Run(h, ops).receipts <==> FirstCommit(ops, key).Some?
    ensures key in Run(h, ops).receipts ==>
              var r, c := Run(h, ops).receipts[key], FirstCommit(ops, key).value;
              r.output == c.output && r.operator == c.operator == key.1 && r.height == c.height && c.job == key.0
  {
    if ops != [] {
      ReceiptIsFirstCommit(h, ops[..|ops| - 1], key);
      NonceNeverReused(h, ops[..|ops| - 1], ops[|ops| - 1]);
    }
  }

  /** In every run a message is accepted exactly when its id has not been accepted before, it is no older
      than 10000 below the latest prune, its proof names the root last recorded for its source and leads
      there from its payload, and at least two validators signed. */
  lemma AcceptedExactlyWhen(h: (Hash, Hash) -> Hash, ops: seq<Op>, msg: Message, proof: Proof)
    ensures Refusal(h, Run(h, ops), Process(msg, proof)) == None
       <==> && msg.id !in Accepted(h, ops)
            && (LastPrune(ops).Some? ==> msg.sourceHeight + 10000 >= LastPrune(ops).value)
            && LastRoot(ops, msg.source) == Some(proof.partitionRoot)
            && PathRoot(h, msg.payload, proof.path) == proof.partitionRoot
            && proof.validatorCount >= 2
  {
    RunConsistent(h, ops);
    assert msg.id in Accepted(h, ops) <==> msg.id in Elems(Accepted(h, ops));
    HeightFollows(h, ops);
    RootsFollow(h, ops, msg.source);
  }

  /** Each reason for refusing a message, in the order they are given. */
  lemma WhyRefused(h: (Hash, Hash) -> Hash, ops: seq<Op>, msg: Message, proof: Proof)
    ensures var why := Refusal(h, Run(h, ops), Process(msg, proof));
            var root := LastRoot(ops, msg.source);
            var seen := msg.id in Accepted(h, ops);
            var stale := LastPrune(ops).Some? && msg.sourceHeight + 10000 < LastPrune(ops).value;
            var fits := root == Some(proof.partitionRoot);
            var leads := PathRoot(h, msg.payload, proof.path) == proof.partitionRoot;
            && (why == Some(MessageAlreadyConsumed) <==> seen)
            && (why == Some(SourceHeightTooOld) <==> !seen && stale)
            && (why == Some(PartitionNotFound) <==> !seen && !stale && root == None)
            && (why == Some(PartitionRootMismatch) <==> !seen && !stale && root != None && !fits)
            && (why == Some(MerkleProofInvalid) <==> !seen && !stale && fits && !leads)
            && (why == Some(InvalidQC) <==> !seen && !stale && fits && leads && proof.validatorCount < 2)
  {
    RunConsistent(h, ops);
    assert msg.id in Accepted(h, ops) <==> msg.id in Elems(Accepted(h, ops));
    HeightFollows(h, ops);
    RootsFollow(h, ops, msg.source);
  }

  /** In every run a commit is accepted exactly when its job and operator have not committed before. */
  lemma CommittedExactlyWhen(h: (Hash, Hash) -> Hash, ops: seq<Op>, c: Commit)
    ensures Refusal(h, Run(h, ops), CommitArtifact(c)) == None <==> FirstCommit(ops, (c.job, c.operator)).None?
  {
    ReceiptIsFirstCommit(h, ops, (c.job, c.operator));
    NonceNeverReused(h, ops, CommitArtifact(c));
  }

  /** Of all messages from one partition under one root, a proof admits those with one payload only,
      whenever in the run they are processed. */
  lemma ProofAdmitsOnePayload(h: (Hash, Hash) -> Hash, before: seq<Op>, after: seq<Op>, a: Message, b: Message,
                              proof: Proof)
    requires Injective(h)
    requires Refusal(h, Run(h, before), Process(a, proof)).None?
    requires Refusal(h, Run(h, after), Process(b, proof)).None?
    ensures a.payload == b.payload
    ensures a.source in Run(h, before).roots && b.source in Run(h, after).roots
    ensures Run(h, before).roots[a.source] == Run(h, after).roots[b.source] == PathRoot(h, a.payload, proof.path)
  {
    PathAdmitsOne(h, a.payload, b.payload, proof.path);
  }

  class PartitionManager {
    var state: Manager
    const hash: (Hash, Hash) -> Hash

    constructor (hash: (Hash, Hash) -> Hash)
      ensures state == EMPTY && this.hash == hash && Consistent(state)
    {
      state, this.hash := EMPTY, hash;
    }

    method AddPartitionRoot(p: PartitionId)
      requires Consistent(state)
      modifies this
      ensures state == Step(hash, old(state), AddPartition(p)) && Consistent(state)
    {
      state := state.(partitions := state.partitions[p := 0]);
      state := state.(roots := state.roots[p := 0]);
    }

    method DropPartition(p: PartitionId)
      requires Consistent(state)
      modifies this
      ensures state == Step(hash, old(state), RemovePartition(p)) && Consistent(state)
    {
      state := state.(roots := state.roots - {p});
      state := state.(partitions := state.partitions - {p});
    }

    method UpdatePartitionRoot(p: PartitionId, root: Hash)
      requires Consistent(state)
      modifies this
      ensures state == Step(hash, old(state), UpdateRoot(p, root)) && Consistent(state)
    {
      if p in state.partitions {
        state := state.(partitions := state.partitions[p := root]);
      }
      state := state.(roots := state.roots[p := root]);
    }

    method ProcessMessage(msg: Message, proof: Proof) returns (error: Option<Error>)
      requires Consistent(state)
      modifies this
      ensures error == Refusal(hash, old(state), Process(msg, proof))
      ensures state == Step(hash, old(state), Process(msg, proof)) && Consistent(state)
    {
      if msg.id in state.consumed { return Some(MessageAlreadyConsumed); }
      if msg.sourceHeight < state.minHeight { return Some(SourceHeightTooOld); }
      if msg.source !in state.roots { return Some(PartitionNotFound); }
      if proof.partitionRoot != state.roots[msg.source] { return Some(PartitionRootMismatch); }
      var ok := VerifyMerkleProof(hash, msg.payload, proof.path, proof.partitionRoot);
      if !ok { return Some(MerkleProofInvalid); }
      if proof.validatorCount < 2 { return Some(InvalidQC); }
      state := state.(consumed := state.consumed + {msg.id});
      return None;
    }

    method RegisterReceipt(c: Commit) returns (error: Option<Error>)
      requires Consistent(state)
      modifies this
      ensures error == Refusal(hash, old(state), CommitArtifact(c)) && error != Some(NonceReused)
      ensures state == Step(hash, old(state), CommitArtifact(c)) && Consistent(state)
    {
      var key := (c.job, c.operator);
      if key in state.receipts { return Some(DuplicateReceipt); }
      var nonces := NoncesOf(state, key);
      if c.nonce in nonces { return Some(NonceReused); }
      state := state.(nonces := state.nonces[key := nonces + {c.nonce}]);
      state := state.(receipts := state.receipts[key := Receipt(c.output, c.operator, c.height)]);
      return None;
    }

    method PruneMessages(height: nat)
      requires Consistent(state)
      modifies this
      ensures state == Step(hash, old(state), Prune(height)) && Consistent(state)
    {
      state := state.(minHeight := SaturatingSub(height, PRUNE_WINDOW));
    }
  }
}
