/** Job escrows and the slashing pool of crates/truth/src/settlement.rs, with a ledger of everything
    that was ever deposited, paid out or overwritten. */
module Settlement {
  import opened Prelude
  import opened MapSum
  import opened Codec

  /** A 32-byte identifier. */
  type Id = seq<Byte>

  datatype EscrowStatus = Active | Frozen | Released | Refunded | PartiallyReleased

  datatype Escrow = Escrow(client: Id, amount: nat, reserved: nat, status: EscrowStatus,
                           createdAt: nat, deadline: nat)

  const RESERVE_PERCENT := 10

  function Saturate(x: nat): (r: nat)
    ensures r < U64_LIMIT
  {
    if x < U64_LIMIT then x else U64_LIMIT - 1
  }

  function NewEscrow(client: Id, amount: nat, block: nat, deadlineBlocks: nat): (e: Escrow) {
    Escrow(client, amount, Saturate(amount * RESERVE_PERCENT) / 10000, Active, block, Saturate(block + deadlineBlocks))
  }

  /** The verifier reserve never exceeds a thousandth of the amount, and is the thousandth rounded
      down exactly until the saturated product caps it. */
  lemma ReserveIsAThousandth(client: Id, amount: nat, block: nat, window: nat)
    ensures var r := NewEscrow(client, amount, block, window).reserved;
            && 1000 * r <= amount
            && (1000 * (r + 1) > amount <==> amount < 1000 * ((U64_LIMIT - 1) / 10000 + 1))
  {
  }

  predicate IsOpen(e: Escrow) {
    e.status == Active || e.status == Frozen
  }

  // ---------- The ledger ----------

  datatype Payment = Payment(serial: nat, amount: nat)

  /** Every created escrow gets a serial number; the ledger records its deposit, which serial each
      job's current escrow has, the payments made, and what was overwritten while still open. */
  datatype Ledger = Ledger(deposits: map<nat, nat>, next: nat, holder: map<Id, nat>,
                           payments: seq<Payment>, overwritten: nat)

  datatype Books = Books(escrows: map<Id, Escrow>, ledger: Ledger)

  const NO_BOOKS: Books := Books(map[], Ledger(map[], 0, map[], [], 0))

  function TotalPaid(ps: seq<Payment>): (n: nat) {
    if ps == [] then 0 else TotalPaid(ps[..|ps| - 1]) + ps[|ps| - 1].amount
  }

  function OpenAmounts(escrows: map<Id, Escrow>): (m: map<Id, nat>) {
    map job | job in escrows && IsOpen(escrows[job]) :: escrows[job].amount
  }

  ghost function Held(escrows: map<Id, Escrow>): (n: nat) {
    Sum(OpenAmounts(escrows))
  }

  // ---------- The operations ----------

  datatype Action =
    | Create(job: Id, client: Id, amount: nat, block: nat, window: nat)
    | Release(job: Id)
    | Refund(job: Id)
    | Freeze(job: Id)
    | Unfreeze(job: Id)

  /** Creating over an existing escrow discards it; an open one takes its deposit with it. */
  function Deposit(b: Books, job: Id, client: Id, amount: nat, block: nat, window: nat): (b': Books) {
    var l := b.ledger;
    var gone := if job in b.escrows && IsOpen(b.escrows[job]) then b.escrows[job].amount else 0;
    Books(b.escrows[job := NewEscrow(client, amount, block, window)],
          l.(deposits := l.deposits[l.next := amount], next := l.next + 1,
             holder := l.holder[job := l.next], overwritten := l.overwritten + gone))
  }

  function WithStatus(b: Books, job: Id, status: EscrowStatus): (b': Books)
    requires job in b.escrows
  {
    b.(escrows := b.escrows[job := b.escrows[job].(status := status)])
  }

  /** An active escrow pays its whole amount once. */
  function PayOut(b: Books, job: Id, status: EscrowStatus): (b': Books)
    requires job in b.escrows && job in b.ledger.holder
  {
    var p := Payment(b.ledger.holder[job], b.escrows[job].amount);
    var paid := WithStatus(b, job, status);
    paid.(ledger := b.ledger.(payments := b.ledger.payments + [p]))
  }

  predicate InStatus(b: Books, job: Id, status: EscrowStatus) {
    job in b.escrows && job in b.ledger.holder && b.escrows[job].status == status
  }

  function Act(b: Books, a: Action): (b': Books) {
    match a
    case Create(job, client, amount, block, window) => Deposit(b, job, client, amount, block, window)
    case Release(job) => if InStatus(b, job, Active) then PayOut(b, job, Released) else b
    case Refund(job) => if InStatus(b, job, Active) then PayOut(b, job, Refunded) else b
    case Freeze(job) => if InStatus(b, job, Active) then WithStatus(b, job, Frozen) else b
    case Unfreeze(job) => if InStatus(b, job, Frozen) then WithStatus(b, job, Active) else b
  }

  // ---------- What every run keeps ----------

  function Serials(ps: seq<Payment>): (s: seq<nat>)
    ensures |s| == |ps|
  {
    seq(|ps|, i requires 0 <= i < |ps| => ps[i].serial)
  }

  /** The ledger describes the escrows: serials are fresh, each job's current serial carries its
      amount, an open escrow is unpaid, and every payment is the full deposit of its serial. */
  ghost predicate Matches(b: Books) {
    var l := b.ledger;
    && l.holder.Keys == b.escrows.Keys
    && (forall s :: s in l.deposits ==> s < l.next)
    && (forall job :: job in l.holder ==>
          l.holder[job] in l.deposits && l.deposits[l.holder[job]] == b.escrows[job].amount)
    && (forall j, k :: j in l.holder && k in l.holder && l.holder[j] == l.holder[k] ==> j == k)
    && (forall job :: job in l.holder && IsOpen(b.escrows[job]) ==> l.holder[job] !in Serials(l.payments))
    && (forall p :: p in l.payments ==> p.serial in l.deposits && l.deposits[p.serial] == p.amount)
  }

  /** No created escrow is paid twice. */
  ghost predicate PaidOnce(l: Ledger) {
    Distinct(Serials(l.payments))
  }

  /** Deposits equal payments plus what is still held plus what was overwritten unpaid. */
  ghost predicate Conserved(b: Books) {
    Sum(b.ledger.deposits) == TotalPaid(b.ledger.payments) + Held(b.escrows) + b.ledger.overwritten
  }

  ghost predicate Balanced(b: Books) {
    Matches(b) && PaidOnce(b.ledger) && Conserved(b)
  }

  lemma HeldPut(escrows: map<Id, Escrow>, job: Id, e: Escrow)
    ensures Held(escrows[job := e])
         == Held(escrows) + (if IsOpen(e) then e.amount else 0)
            - if job in escrows && IsOpen(escrows[job]) then escrows[job].amount else 0
  {
    var m := OpenAmounts(escrows);
    if IsOpen(e) {
      assert OpenAmounts(escrows[job := e]) == m[job := e.amount];
      SumPut(m, job, e.amount);
    } else {
      assert OpenAmounts(escrows[job := e]) == m - {job};
      if job in m {
        SumRemove(m, job);
      } else {
        assert m - {job} == m;
      }
    }
  }

  lemma DepositMatches(b: Books, job: Id, client: Id, amount: nat, block: nat, window: nat)
    requires Matches(b)
    ensures Matches(Deposit(b, job, client, amount, block, window))
  {
    var l := b.ledger;
    assert forall i :: 0 <= i < |l.payments| ==> l.payments[i] in l.payments;
    assert l.next !in Serials(l.payments);
  }

  lemma DepositBalances(b: Books, job: Id, client: Id, amount: nat, block: nat, window: nat)
    requires Balanced(b)
    ensures Balanced(Deposit(b, job, client, amount, block, window))
  {
    DepositMatches(b, job, client, amount, block, window);
    HeldPut(b.escrows, job, NewEscrow(client, amount, block, window));
    SumPut(b.ledger.deposits, b.ledger.next, amount);
    assert b.ledger.next !in b.ledger.deposits;
  }

  lemma StatusBalances(b: Books, job: Id, status: EscrowStatus)
    requires Balanced(b) && job in b.escrows && IsOpen(b.escrows[job])
    requires status == Active || status == Frozen
    ensures Balanced(WithStatus(b, job, status))
  {
    HeldPut(b.escrows, job, b.escrows[job].(status := status));
  }

  lemma SerialsAppend(ps: seq<Payment>, p: Payment)
    ensures Serials(ps + [p]) == Serials(ps) + [p.serial]
    ensures TotalPaid(ps + [p]) == TotalPaid(ps) + p.amount
  {
    assert (ps + [p])[..|ps|] == ps;
  }

  lemma PayOutBalances(b: Books, job: Id, status: EscrowStatus)
    requires Balanced(b) && InStatus(b, job, Active) && (status == Released || status == Refunded)
    ensures Balanced(PayOut(b, job, status))
  {
    var l := b.ledger;
    var p := Payment(l.holder[job], b.escrows[job].amount);
    SerialsAppend(l.payments, p);
    HeldPut(b.escrows, job, b.escrows[job].(status := status));
  }

  lemma ActBalances(b: Books, a: Action)
    requires Balanced(b)
    ensures Balanced(Act(b, a))
  {
    match a
    case Create(job, client, amount, block, window) => DepositBalances(b, job, client, amount, block, window);
    case Release(job) => if InStatus(b, job, Active) { PayOutBalances(b, job, Released); }
    case Refund(job) => if InStatus(b, job, Active) { PayOutBalances(b, job, Refunded); }
    case Freeze(job) => if InStatus(b, job, Active) { StatusBalances(b, job, Frozen); }
    case Unfreeze(job) => if InStatus(b, job, Frozen) { StatusBalances(b, job, Active); }
  }

  function Run(b: Books, actions: seq<Action>): (b': Books)
    decreases |actions|
  {
    if actions == [] then b else Run(Act(b, actions[0]), actions[1..])
  }

  /** Escrow conservation and at-most-once payment over every run from empty books. */
  lemma {:induction false} RunBalances(b: Books, actions: seq<Action>)
    requires Balanced(b)
    ensures Balanced(Run(b, actions))
    decreases |actions|
  {
    if actions != [] {
      ActBalances(b, actions[0]);
      RunBalances(Act(b, actions[0]), actions[1..]);
    }
  }

  lemma EmptyBooksBalanced()
    ensures Balanced(NO_BOOKS)
  {
    assert OpenAmounts(map[]) == map[];
  }

  // ---------- The books against what was handed in ----------

  /** What the creations of a run hand in, read off the run alone. */
  function Deposited(actions: seq<Action>): (n: nat) {
    if actions == [] then 0
    else Deposited(actions[..|actions| - 1])
         + if actions[|actions| - 1].Create? then actions[|actions| - 1].amount else 0
  }

  lemma {:induction false} RunAppend(b: Books, actions: seq<Action>, a: Action)
    ensures Run(b, actions + [a]) == Act(Run(b, actions), a)
    decreases |actions|
  {
    var all := actions + [a];
    if actions == [] {
      assert all == [a] && all[1..] == [];
    } else {
      RunAppend(Act(b, actions[0]), actions[1..], a);
      assert all[1..] == actions[1..] + [a];
    }
  }

  /** The last step of a run. */
  lemma RunLast(b: Books, actions: seq<Action>)
    requires actions != []
    ensures Run(b, actions) == Act(Run(b, actions[..|actions| - 1]), actions[|actions| - 1])
  {
    assert actions == actions[..|actions| - 1] + [actions[|actions| - 1]];
    RunAppend(b, actions[..|actions| - 1], actions[|actions| - 1]);
  }

  lemma ActDeposits(b: Books, a: Action)
    requires Balanced(b)
    ensures Sum(Act(b, a).ledger.deposits) == Sum(b.ledger.deposits) + if a.Create? then a.amount else 0
  {
    if a.Create? {
      SumPut(b.ledger.deposits, b.ledger.next, a.amount);
    }
  }

  lemma {:induction false} DepositsAreHandedIn(actions: seq<Action>)
    ensures Balanced(Run(NO_BOOKS, actions))
    ensures Sum(Run(NO_BOOKS, actions).ledger.deposits) == Deposited(actions)
  {
    EmptyBooksBalanced();
    RunBalances(NO_BOOKS, actions);
    if actions != [] {
      DepositsAreHandedIn(actions[..|actions| - 1]);
      RunLast(NO_BOOKS, actions);
      ActDeposits(Run(NO_BOOKS, actions[..|actions| - 1]), actions[|actions| - 1]);
    }
  }

  /** From empty books, every run conserves what its creations hand in, and pays no escrow twice or in
      part. */
  lemma EveryRunConserves(actions: seq<Action>)
    ensures var b := Run(NO_BOOKS, actions);
            && Deposited(actions) == TotalPaid(b.ledger.payments) + Held(b.escrows) + b.ledger.overwritten
            && Distinct(Serials(b.ledger.payments))
            && forall p :: p in b.ledger.payments ==>
                 p.serial in b.ledger.deposits && b.ledger.deposits[p.serial] == p.amount
  {
    DepositsAreHandedIn(actions);
  }

  /** The last creation of a job's escrow. */
  function LastCreate(actions: seq<Action>, job: Id): (a: Option<Action>)
    ensures a.Some? ==> a.value.Create? && a.value.job == job
  {
    if actions == [] then None
    else
      var last := actions[|actions| - 1];
      if last.Create? && last.job == job then Some(last) else LastCreate(actions[..|actions| - 1], job)
  }

  /** The record a creation asks for: its client, its whole amount, its block and its deadline. */
  ghost predicate Carries(e: Escrow, a: Action)
    requires a.Create?
  {
    && e.client == a.client && e.amount == a.amount && e.createdAt == a.block
    && e.deadline == Min(a.block + a.window, U64_LIMIT - 1)
  }

  /** In every run a job has an escrow exactly when one was created, and it carries what its last
      creation handed in. */
  lemma {:induction false} EscrowIsLastCreate(actions: seq<Action>, job: Id)
    ensures job in Run(NO_BOOKS, actions).escrows <==> LastCreate(actions, job).Some?
    ensures LastCreate(actions, job).Some?
            ==> Carries(Run(NO_BOOKS, actions).escrows[job], LastCreate(actions, job).value)
  {
    if actions != [] {
      RunLast(NO_BOOKS, actions);
      EscrowIsLastCreate(actions[..|actions| - 1], job);
    }
  }

  /** In every run a release or refund of an active escrow pays exactly what its last creation handed
      in and closes it, and one of any other escrow does nothing. */
  lemma SettlePaysWhatWasHandedIn(actions: seq<Action>, job: Id, refund: bool)
    ensures var b := Run(NO_BOOKS, actions);
            var b' := Run(NO_BOOKS, actions + [if refund then Refund(job) else Release(job)]);
            if job in b.escrows && b.escrows[job].status == Active then
              && LastCreate(actions, job).Some?
              && TotalPaid(b'.ledger.payments) == TotalPaid(b.ledger.payments) + LastCreate(actions, job).value.amount
              && b'.escrows == b.escrows[job := b.escrows[job].(status := if refund then Refunded else Released)]
            else b' == b
  {
    var a := if refund then Refund(job) else Release(job);
    var b := Run(NO_BOOKS, actions);
    RunAppend(NO_BOOKS, actions, a);
    DepositsAreHandedIn(actions);
    EscrowIsLastCreate(actions, job);
    if InStatus(b, job, Active) {
      SerialsAppend(b.ledger.payments, Payment(b.ledger.holder[job], b.escrows[job].amount));
    }
  }

  /** In every run freezing moves only an active escrow and unfreezing only a frozen one, and neither
      touches an amount. */
  lemma FreezeMovesOnly(actions: seq<Action>, job: Id, freeze: bool)
    ensures var b := Run(NO_BOOKS, actions);
            var b' := Run(NO_BOOKS, actions + [if freeze then Freeze(job) else Unfreeze(job)]);
            var from, to := if freeze then Active else Frozen, if freeze then Frozen else Active;
            b' == if job in b.escrows && b.escrows[job].status == from
                  then b.(escrows := b.escrows[job := b.escrows[job].(status := to)]) else b
  {
    RunAppend(NO_BOOKS, actions, if freeze then Freeze(job) else Unfreeze(job));
    DepositsAreHandedIn(actions);
  }

  lemma {:induction false} RunConcat(b: Books, x: seq<Action>, y: seq<Action>)
    ensures Run(b, x + y) == Run(Run(b, x), y)
    decreases |x|
  {
    if x == [] {
      assert x + y == y;
    } else {
      RunConcat(Act(b, x[0]), x[1..], y);
      assert (x + y)[1..] == x[1..] + y;
    }
  }

  /** The actions on one job. */
  function OnJob(actions: seq<Action>, job: Id): (r: seq<Action>) {
    if actions == [] then []
    else OnJob(actions[..|actions| - 1], job)
         + if actions[|actions| - 1].job == job then [actions[|actions| - 1]] else []
  }

  ghost predicate SameEscrow(b: Books, c: Books, job: Id) {
    (job in b.escrows <==> job in c.escrows) && (job in b.escrows ==> b.escrows[job] == c.escrows[job])
  }

  lemma ActSeparates(b: Books, c: Books, a: Action, job: Id)
    requires Matches(b) && Matches(c) && SameEscrow(b, c, job)
    ensures a.job == job ==> SameEscrow(Act(b, a), Act(c, a), job)
    ensures a.job != job ==> SameEscrow(Act(b, a), c, job)
  {
  }

  /** Jobs do not interfere: a job's escrow is what the actions on that job alone make it. */
  lemma {:induction false} JobsAreSeparate(actions: seq<Action>, job: Id)
    ensures SameEscrow(Run(NO_BOOKS, actions), Run(NO_BOOKS, OnJob(actions, job)), job)
  {
    if actions != [] {
      var init, last := actions[..|actions| - 1], actions[|actions| - 1];
      JobsAreSeparate(init, job);
      RunLast(NO_BOOKS, actions);
      DepositsAreHandedIn(init);
      DepositsAreHandedIn(OnJob(init, job));
      ActSeparates(Run(NO_BOOKS, init), Run(NO_BOOKS, OnJob(init, job)), last, job);
      if last.job == job {
        RunAppend(NO_BOOKS, OnJob(init, job), last);
      } else {
        assert OnJob(init, job) + [] == OnJob(init, job);
      }
    }
  }

  /** Until its job gets a new escrow, a paid or refunded escrow keeps its record through every run. */
  lemma {:induction false} ClosedStaysClosed(b: Books, actions: seq<Action>, job: Id)
    requires job in b.escrows && !IsOpen(b.escrows[job])
    requires forall a :: a in actions && a.Create? ==> a.job != job
    ensures job in Run(b, actions).escrows && Run(b, actions).escrows[job] == b.escrows[job]
    decreases |actions|
  {
    if actions != [] {
      assert actions[0] in actions;
      ClosedStaysClosed(Act(b, actions[0]), actions[1..], job);
    }
  }

  lemma {:induction false} PaymentsStand(b: Books, actions: seq<Action>)
    ensures b.ledger.payments <= Run(b, actions).ledger.payments
    decreases |actions|
  {
    if actions != [] {
      PaymentsStand(Act(b, actions[0]), actions[1..]);
    }
  }

  /** A payment stands, and whatever follows, new escrows of the same job included, the escrow it paid
      is never paid again. */
  lemma PaidNeverAgain(b: Books, actions: seq<Action>, i: nat, k: nat)
    requires Balanced(b) && i < |b.ledger.payments| <= k < |Run(b, actions).ledger.payments|
    ensures var ps := Run(b, actions).ledger.payments;
            ps[i] == b.ledger.payments[i] && ps[k].serial != ps[i].serial
  {
    PaymentsStand(b, actions);
    RunBalances(b, actions);
    var ps := Run(b, actions).ledger.payments;
    assert Serials(ps)[i] != Serials(ps)[k];
  }

  // ---------- Verifier rewards ----------

  function Reward(m: map<Id, nat>, v: Id): (n: nat) {
    if v in m then m[v] else 0
  }

  function Occurrences(vs: seq<Id>, v: Id): (n: nat) {
    if vs == [] then 0 else Occurrences(vs[..|vs| - 1], v) + if vs[|vs| - 1] == v then 1 else 0
  }

  /** The crediting loop. */
  method CreditEach(start: map<Id, nat>, vs: seq<Id>, per: nat) returns (rewards: map<Id, nat>)
    ensures Sum(rewards) == Sum(start) + per * |vs|
    ensures Credited(start, rewards, vs, per)
  {
    rewards := start;
    ghost var total := 0;
    for i := 0 to |vs|
      invariant Sum(rewards) == Sum(start) + total && total == per * i
      invariant Credited(start, rewards, vs[..i], per)
    {
      var v := vs[i];
      SumPut(rewards, v, Reward(rewards, v) + per);
      CreditStep(vs, i, per, start, rewards);
      rewards := rewards[v := Reward(rewards, v) + per];
      Distribute(per, i);
      total := total + per;
    }
    assert vs[..|vs|] == vs;
  }

  lemma Distribute(per: nat, i: nat)
    ensures per * (i + 1) == per * i + per
  {
  }

  ghost predicate Credited(start: map<Id, nat>, rewards: map<Id, nat>, vs: seq<Id>, per: nat) {
    forall v :: Reward(rewards, v) == Reward(start, v) + Occurrences(vs, v) * per
  }

  lemma CreditStep(vs: seq<Id>, i: nat, per: nat, start: map<Id, nat>, before: map<Id, nat>)
    requires i < |vs| && Credited(start, before, vs[..i], per)
    ensures Credited(start, before[vs[i] := Reward(before, vs[i]) + per], vs[..i + 1], per)
  {
    var after := before[vs[i] := Reward(before, vs[i]) + per];
    assert vs[..i + 1][..i] == vs[..i];
    forall v ensures Reward(after, v) == Reward(start, v) + Occurrences(vs[..i + 1], v) * per {
      var o := Occurrences(vs[..i], v);
      assert Occurrences(vs[..i + 1], v) == o + if vs[i] == v then 1 else 0;
      Distribute(per, o);
    }
  }

  lemma SharedOut(amount: nat, n: nat)
    requires n > 0
    ensures amount / n * n + amount % n == amount
  {
  }

  // ---------- The settlement state in place ----------

  datatype Failure = NoSuchEscrow | NotActive

  class SettlementState {
    var escrows: map<Id, Escrow>
    var slashingPool: nat
    var verifierRewards: map<Id, nat>
    ghost var ledger: Ledger

    ghost function Accounts(): (b: Books)
      reads this
    {
      Books(escrows, ledger)
    }

    ghost predicate Valid()
      reads this
    {
      Balanced(Accounts())
    }

    constructor ()
      ensures Valid() && Accounts() == NO_BOOKS && slashingPool == 0 && verifierRewards == map[]
    {
      escrows, slashingPool, verifierRewards, ledger := map[], 0, map[], NO_BOOKS.ledger;
      EmptyBooksBalanced();
    }

    method CreateEscrow(job: Id, client: Id, amount: nat, block: nat, window: nat)
      requires Valid()
      modifies this`escrows, this`ledger
      ensures Valid() && Accounts() == Act(old(Accounts()), Create(job, client, amount, block, window))
    {
      ActBalances(Accounts(), Create(job, client, amount, block, window));
      ledger := Deposit(Accounts(), job, client, amount, block, window).ledger;
      var reserve := Saturate(amount * RESERVE_PERCENT) / 10000;
      escrows := escrows[job := Escrow(client, amount, reserve, Active, block, Saturate(block + window))];
    }

    /** The escrow object's own release or refund: zero unless it is active. */
    method Settle(job: Id, refund: bool) returns (amount: nat)
      requires Valid() && job in escrows
      modifies this`escrows, this`ledger
      ensures Valid() && Accounts() == Act(old(Accounts()), if refund then Refund(job) else Release(job))
      ensures amount == if old(escrows)[job].status == Active then old(escrows)[job].amount else 0
      ensures TotalPaid(ledger.payments) == TotalPaid(old(ledger).payments) + amount
    {
      ActBalances(Accounts(), if refund then Refund(job) else Release(job));
      var e := escrows[job];
      if e.status != Active {
        return 0;
      }
      SerialsAppend(ledger.payments, Payment(ledger.holder[job], e.amount));
      ledger := ledger.(payments := ledger.payments + [Payment(ledger.holder[job], e.amount)]);
      escrows := escrows[job := e.(status := if refund then Refunded else Released)];
      return e.amount;
    }

    /** Releasing or refunding through the state is refused unless the escrow exists and is active. */
    method SettleEscrow(job: Id, refund: bool) returns (amount: nat, failure: Option<Failure>)
      requires Valid()
      modifies this`escrows, this`ledger
      ensures Valid() && Accounts() == Act(old(Accounts()), if refund then Refund(job) else Release(job))
      ensures failure == if job !in old(escrows) then Some(NoSuchEscrow)
                         else if old(escrows)[job].status != Active then Some(NotActive) else None
      ensures failure.Some? ==> Accounts() == old(Accounts()) && amount == 0
      ensures failure.None? ==> amount == old(escrows)[job].amount
                                && escrows[job].status == if refund then Refunded else Released
    {
      amount := 0;
      if job !in escrows { return 0, Some(NoSuchEscrow); }
      if escrows[job].status != Active { return 0, Some(NotActive); }
      amount := Settle(job, refund);
      failure := None;
    }

    method SetFrozen(job: Id, frozen: bool)
      requires Valid()
      modifies this`escrows
      ensures Valid() && Accounts() == Act(old(Accounts()), if frozen then Freeze(job) else Unfreeze(job))
    {
      ActBalances(Accounts(), if frozen then Freeze(job) else Unfreeze(job));
      if job in escrows {
        var e := escrows[job];
        if frozen && e.status == Active {
          escrows := escrows[job := e.(status := Frozen)];
        } else if !frozen && e.status == Frozen {
          escrows := escrows[job := e.(status := Active)];
        }
      }
    }

    /** Sharing out an amount conserves it up to the division's remainder, which stays with nobody;
        a verifier listed twice is credited twice. The source divides by the number of verifiers, so
        the list must not be empty when the pool covers the amount. */
    method DistributeVerifierRewards(verifiers: seq<Id>, amount: nat) returns (ok: bool)
      requires slashingPool >= amount ==> verifiers != []
      modifies this`slashingPool, this`verifierRewards
      ensures ok <==> old(slashingPool) >= amount
      ensures !ok ==> slashingPool == old(slashingPool) && verifierRewards == old(verifierRewards)
      ensures ok ==> slashingPool == old(slashingPool) - amount
      ensures ok ==> slashingPool + Sum(verifierRewards) + amount % |verifiers|
                     == old(slashingPool) + Sum(old(verifierRewards))
      ensures ok ==> Credited(old(verifierRewards), verifierRewards, verifiers, amount / |verifiers|)
    {
      if slashingPool < amount {
        return false;
      }
      slashingPool := slashingPool - amount;
      verifierRewards := CreditEach(verifierRewards, verifiers, amount / |verifiers|);
      SharedOut(amount, |verifiers|);
      return true;
    }
  }
}
