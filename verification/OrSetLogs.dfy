/** When replicas of the observed-remove set converge: the tags and tombstones a replica should hold,
    read off the run, and the exact condition on merges under which it holds them. */
module OrSetLogs {
  import opened Prelude
  import opened OrSets

  /** The positions of the run's adds and removes that have reached replica r, directly or through
      other replicas. */
  function Seen<T>(ops: seq<Op<T>>, r: nat): (s: set<nat>)
    ensures forall i :: i in s ==> i < |ops| && !ops[i].Absorb?
  {
    if ops == [] then {}
    else
      var prev, op := ops[..|ops| - 1], ops[|ops| - 1];
      if op.at != r then Seen(prev, r)
      else if op.Absorb? then Seen(prev, r) + Seen(prev, op.from)
      else Seen(prev, r) + {|prev|}
  }

  /** The tag an update makes for an element. */
  ghost function Made<T>(s: OrSet<T>, op: Op<T>, e: T): (ids: set<OpId>) {
    if op.Insert? && op.elem == e then {NextId(s)} else {}
  }

  /** The tag an update entombs. */
  ghost function Entombed<T>(s: OrSet<T>, op: Op<T>, e: T): (ids: set<OpId>) {
    if op.Delete? && op.elem == e && Of(s.elements, e) != {} then {Largest(Of(s.elements, e))} else {}
  }

  ghost function MadeAt<T>(ops: seq<Op<T>>, i: nat, e: T): (ids: set<OpId>)
    requires i < |ops|
  {
    Made(Replica(ops[..i], ops[i].at), ops[i], e)
  }

  ghost function EntombedAt<T>(ops: seq<Op<T>>, i: nat, e: T): (ids: set<OpId>)
    requires i < |ops|
  {
    Entombed(Replica(ops[..i], ops[i].at), ops[i], e)
  }

  /** The tags of an element made by the updates replica r has seen. */
  ghost function Told<T>(ops: seq<Op<T>>, r: nat, e: T): (ids: set<OpId>) {
    set i, id | i in Seen(ops, r) && id in MadeAt(ops, i, e) :: id
  }

  /** The tags of an element entombed by the updates replica r has seen. */
  ghost function Buried<T>(ops: seq<Op<T>>, r: nat, e: T): (ids: set<OpId>) {
    set i, id | i in Seen(ops, r) && id in EntombedAt(ops, i, e) :: id
  }

  lemma EarlierTags<T>(prev: seq<Op<T>>, op: Op<T>, i: nat, e: T)
    requires i < |prev|
    ensures MadeAt(prev + [op], i, e) == MadeAt(prev, i, e)
    ensures EntombedAt(prev + [op], i, e) == EntombedAt(prev, i, e)
  {
    assert (prev + [op])[..i] == prev[..i];
  }

  lemma ToldStep<T>(prev: seq<Op<T>>, op: Op<T>, r: nat, e: T)
    ensures Told(prev + [op], r, e) == if op.at != r then Told(prev, r, e)
                                       else if op.Absorb? then Told(prev, r, e) + Told(prev, op.from, e)
                                       else Told(prev, r, e) + Made(Replica(prev, r), op, e)
  {
    var ops := prev + [op];
    assert ops[..|prev|] == prev;
    forall i | i < |prev| && i in Seen(ops, r) ensures MadeAt(ops, i, e) == MadeAt(prev, i, e) {
      EarlierTags(prev, op, i, e);
    }
    assert MadeAt(ops, |prev|, e) == Made(Replica(prev, op.at), op, e);
  }

  lemma BuriedStep<T>(prev: seq<Op<T>>, op: Op<T>, r: nat, e: T)
    ensures Buried(prev + [op], r, e) == if op.at != r then Buried(prev, r, e)
                                         else if op.Absorb? then Buried(prev, r, e) + Buried(prev, op.from, e)
                                         else Buried(prev, r, e) + Entombed(Replica(prev, r), op, e)
  {
    var ops := prev + [op];
    assert ops[..|prev|] == prev;
    forall i | i < |prev| && i in Seen(ops, r) ensures EntombedAt(ops, i, e) == EntombedAt(prev, i, e) {
      EarlierTags(prev, op, i, e);
    }
    assert EntombedAt(ops, |prev|, e) == Entombed(Replica(prev, op.at), op, e);
  }

  lemma TagsStep<T>(prev: seq<Op<T>>, op: Op<T>, e: T)
    ensures var s, s' := Replica(prev, op.at), Replica(prev + [op], op.at);
            && (!op.Absorb? ==>
                  && Of(s'.elements, e) == Of(s.elements, e) + Made(s, op, e)
                  && Of(s'.tombstones, e) == Of(s.tombstones, e) + Entombed(s, op, e))
            && (op.Absorb? ==>
                  var o := Replica(prev, op.from);
                  && Of(s'.elements, e)
                     == Of(s.elements, e) + (if Of(s.tombstones, e) == {} then Of(o.elements, e) else {})
                  && Of(s'.tombstones, e) == Of(s.tombstones, e) + Of(o.tombstones, e))
  {
    Unfold(prev, op, op.at);
  }

  /** In every run a replica's tombstones are exactly those of the updates it has seen. */
  lemma {:induction false} TombstonesAreBuried<T>(ops: seq<Op<T>>, r: nat, e: T)
    ensures Of(Replica(ops, r).tombstones, e) == Buried(ops, r, e)
  {
    if ops == [] {
      assert Buried(ops, r, e) == {};
    } else {
      var prev, op := ops[..|ops| - 1], ops[|ops| - 1];
      assert ops == prev + [op];
      BuriedStep(prev, op, r, e);
      TombstonesAreBuried(prev, r, e);
      if op.at != r {
        Unfold(prev, op, r);
      } else {
        TagsStep(prev, op, e);
        if op.Absorb? {
          TombstonesAreBuried(prev, op.from, e);
        }
      }
    }
  }

  // ---------- The exact condition ----------

  /** A merge loses nothing of an element: the receiver has no tombstone for it, or has every tag of
      the other side already. */
  ghost predicate Lossless<T>(s: OrSet<T>, o: OrSet<T>, e: T) {
    Of(s.tombstones, e) != {} ==> Of(o.elements, e) <= Of(s.elements, e)
  }

  ghost predicate StepLossless<T>(prev: seq<Op<T>>, op: Op<T>, e: T) {
    op.Absorb? ==> Lossless(Replica(prev, op.at), Replica(prev, op.from), e)
  }

  /** No merge of the run loses a tag of the element. */
  ghost predicate Careful<T>(ops: seq<Op<T>>, e: T) {
    forall i :: 0 <= i < |ops| ==> StepLossless(ops[..i], ops[i], e)
  }

  /** Every replica holds every tag of the element it has been told of. */
  ghost predicate Informed<T>(ops: seq<Op<T>>, e: T) {
    forall r: nat :: Of(Replica(ops, r).elements, e) == Told(ops, r, e)
  }

  ghost predicate AlwaysInformed<T>(ops: seq<Op<T>>, e: T) {
    forall i :: 0 <= i <= |ops| ==> Informed(ops[..i], e)
  }

  lemma InformedStep<T>(prev: seq<Op<T>>, op: Op<T>, e: T)
    requires Informed(prev, e)
    ensures Informed(prev + [op], e) <==> StepLossless(prev, op, e)
  {
    forall r: nat | r != op.at ensures Of(Replica(prev + [op], r).elements, e) == Told(prev + [op], r, e) {
      Unfold(prev, op, r);
      ToldStep(prev, op, r, e);
    }
    TagsStep(prev, op, e);
    ToldStep(prev, op, op.at, e);
    assert Of(Replica(prev, op.at).elements, e) == Told(prev, op.at, e);
    if op.Absorb? {
      var s, o := Of(Replica(prev, op.at).elements, e), Of(Replica(prev, op.from).elements, e);
      assert o == Told(prev, op.from, e);
      assert s + o == s <==> o <= s;
    }
  }

  lemma ConditionsSplit<T>(ops: seq<Op<T>>, e: T)
    requires ops != []
    ensures var prev, op := ops[..|ops| - 1], ops[|ops| - 1];
            && (AlwaysInformed(ops, e) <==> AlwaysInformed(prev, e) && Informed(ops, e))
            && (Careful(ops, e) <==> Careful(prev, e) && StepLossless(prev, op, e))
            && (AlwaysInformed(prev, e) ==> Informed(prev, e))
  {
    var prev := ops[..|ops| - 1];
    assert forall i :: 0 <= i <= |prev| ==> prev[..i] == ops[..i];
    assert ops[..|ops|] == ops && prev[..|prev|] == prev;
  }

  /** At every point of a run every replica holds exactly the tags it has been told of if and only if
      no merge of the run meets a receiver that has entombed the element and lacks a tag of it. */
  lemma {:induction false} InformedWhenCareful<T>(ops: seq<Op<T>>, e: T)
    ensures AlwaysInformed(ops, e) <==> Careful(ops, e)
  {
    if ops == [] {
      assert ops[..0] == ops;
      assert forall r: nat :: Told(ops, r, e) == {};
    } else {
      var prev, op := ops[..|ops| - 1], ops[|ops| - 1];
      assert ops == prev + [op];
      ConditionsSplit(ops, e);
      InformedWhenCareful(prev, e);
      if Careful(prev, e) {
        InformedStep(prev, op, e);
      }
    }
  }

  // ---------- What replicas show ----------

  /** A merge keeps every shown tag of an element: the receiver has no tombstone for it, or already
      has every tag the other side shows and it has not entombed itself. */
  ghost predicate Keeps<T>(s: OrSet<T>, o: OrSet<T>, e: T) {
    Of(s.tombstones, e) != {} ==> Live(o, e) - Of(s.tombstones, e) <= Of(s.elements, e)
  }

  ghost predicate StepKeeps<T>(prev: seq<Op<T>>, op: Op<T>, e: T) {
    op.Absorb? ==> Keeps(Replica(prev, op.at), Replica(prev, op.from), e)
  }

  /** No merge of the run loses a shown tag of the element. */
  ghost predicate Kept<T>(ops: seq<Op<T>>, e: T) {
    forall i :: 0 <= i < |ops| ==> StepKeeps(ops[..i], ops[i], e)
  }

  /** Every replica shows the tags it has been told of and not told to entomb. */
  ghost predicate Shown<T>(ops: seq<Op<T>>, e: T) {
    forall r: nat :: Live(Replica(ops, r), e) == Told(ops, r, e) - Buried(ops, r, e)
  }

  ghost predicate AlwaysShown<T>(ops: seq<Op<T>>, e: T) {
    forall i :: 0 <= i <= |ops| ==> Shown(ops[..i], e)
  }

  /** A run that loses no tag loses no shown tag. */
  lemma CarefulIsKept<T>(ops: seq<Op<T>>, e: T)
    requires Careful(ops, e)
    ensures Kept(ops, e)
  {
    forall i | 0 <= i < |ops| ensures StepKeeps(ops[..i], ops[i], e) {
      assert StepLossless(ops[..i], ops[i], e);
    }
  }

  lemma AddThenRemove<T>(prev: seq<Op<T>>, r: nat, e: T)
    requires Replica(prev, r) == Empty(r)
    ensures var s := Replica(prev + [Insert(r, e)] + [Delete(r, e)], r);
            Of(s.elements, e) == {OpId(r, 1)} == Of(s.tombstones, e)
  {
    Unfold(prev, Insert(r, e), r);
    Unfold(prev + [Insert(r, e)], Delete(r, e), r);
    TagsStep(prev, Insert(r, e), e);
    TagsStep(prev + [Insert(r, e)], Delete(r, e), e);
  }

  /** The converse fails: when two replicas have each added and removed an element, merging them
      loses a tag but none that was shown. */
  lemma ConcurrentRemovals<T>(e: T) returns (ops: seq<Op<T>>)
    ensures ops == [Insert(0, e), Delete(0, e), Insert(1, e), Delete(1, e), Absorb(0, 1)]
    ensures Kept(ops, e) && !Careful(ops, e)
  {
    ops := [Insert(0, e), Delete(0, e), Insert(1, e), Delete(1, e), Absorb(0, 1)];
    var two := [] + [Insert(0, e)] + [Delete(0, e)];
    Unfold([], Insert(0, e), 1);
    Unfold([] + [Insert(0, e)], Delete(0, e), 1);
    AddThenRemove([], 0, e);
    AddThenRemove(two, 1, e);
    Unfold(two, Insert(1, e), 0);
    Unfold(two + [Insert(1, e)], Delete(1, e), 0);
    assert ops[..4] == two + [Insert(1, e)] + [Delete(1, e)];
    assert Live(Replica(ops[..4], 1), e) == {};
    assert OpId(1, 1) in Of(Replica(ops[..4], 1).elements, e);
    assert OpId(1, 1) !in Of(Replica(ops[..4], 0).elements, e);
    assert !StepLossless(ops[..4], ops[4], e) && StepKeeps(ops[..4], ops[4], e);
  }

  /** A receiver stores x and entombs b, the other side y and c; they were told t and u. */
  lemma MergedLive(x: set<OpId>, b: set<OpId>, t: set<OpId>, y: set<OpId>, c: set<OpId>, u: set<OpId>)
    requires x - b == t - b && y - c == u - c
    ensures (x + if b == {} then y else {}) - (b + c) == (t + u) - (b + c) <==> (b != {} ==> (y - c) - b <= x)
  {
    forall id | id !in b && id !in c ensures (id in x <==> id in t) && (id in y <==> id in u) {
      assert id in x - b <==> id in t - b;
      assert id in y - c <==> id in u - c;
    }
    var shown, due := (x + if b == {} then y else {}) - (b + c), (t + u) - (b + c);
    if shown == due {
      forall id | b != {} && id in (y - c) - b ensures id in x {
        assert id in due;
      }
    }
  }

  /** A local update stores m more and entombs d more. */
  lemma UpdatedLive(x: set<OpId>, b: set<OpId>, t: set<OpId>, m: set<OpId>, d: set<OpId>)
    requires x - b == t - b
    ensures (x + m) - (b + d) == (t + m) - (b + d)
  {
    forall id | id !in b ensures id in x <==> id in t {
      assert id in x - b <==> id in t - b;
    }
  }

  lemma ShownElsewhere<T>(prev: seq<Op<T>>, op: Op<T>, e: T, r: nat)
    requires Shown(prev, e) && r != op.at
    ensures Live(Replica(prev + [op], r), e) == Told(prev + [op], r, e) - Buried(prev + [op], r, e)
  {
    Unfold(prev, op, r);
    ToldStep(prev, op, r, e);
    BuriedStep(prev, op, r, e);
  }

  lemma ShownHere<T>(prev: seq<Op<T>>, op: Op<T>, e: T)
    requires Shown(prev, e)
    ensures Live(Replica(prev + [op], op.at), e) == Told(prev + [op], op.at, e) - Buried(prev + [op], op.at, e)
            <==> StepKeeps(prev, op, e)
  {
    TagsStep(prev, op, e);
    ToldStep(prev, op, op.at, e);
    BuriedStep(prev, op, op.at, e);
    TombstonesAreBuried(prev, op.at, e);
    var s := Replica(prev, op.at);
    assert Live(s, e) == Told(prev, op.at, e) - Buried(prev, op.at, e);
    if op.Absorb? {
      var o := Replica(prev, op.from);
      TombstonesAreBuried(prev, op.from, e);
      assert Live(o, e) == Told(prev, op.from, e) - Buried(prev, op.from, e);
      MergedLive(Of(s.elements, e), Of(s.tombstones, e), Told(prev, op.at, e),
                 Of(o.elements, e), Of(o.tombstones, e), Told(prev, op.from, e));
    } else {
      UpdatedLive(Of(s.elements, e), Of(s.tombstones, e), Told(prev, op.at, e), Made(s, op, e), Entombed(s, op, e));
    }
  }

  lemma ShownStep<T>(prev: seq<Op<T>>, op: Op<T>, e: T)
    requires Shown(prev, e)
    ensures Shown(prev + [op], e) <==> StepKeeps(prev, op, e)
  {
    ShownHere(prev, op, e);
    forall r: nat | r != op.at
      ensures Live(Replica(prev + [op], r), e) == Told(prev + [op], r, e) - Buried(prev + [op], r, e)
    {
      ShownElsewhere(prev, op, e, r);
    }
  }

  lemma ShownSplit<T>(ops: seq<Op<T>>, e: T)
    requires ops != []
    ensures var prev, op := ops[..|ops| - 1], ops[|ops| - 1];
            && (AlwaysShown(ops, e) <==> AlwaysShown(prev, e) && Shown(ops, e))
            && (Kept(ops, e) <==> Kept(prev, e) && StepKeeps(prev, op, e))
            && (AlwaysShown(prev, e) ==> Shown(prev, e))
  {
    var prev := ops[..|ops| - 1];
    assert forall i :: 0 <= i <= |prev| ==> prev[..i] == ops[..i];
    assert ops[..|ops|] == ops && prev[..|prev|] == prev;
  }

  /** At every point of a run every replica shows exactly the tags it has been told of and not told to
      entomb if and only if no merge of the run loses a shown tag. */
  lemma {:induction false} ShownWhenKept<T>(ops: seq<Op<T>>, e: T)
    ensures AlwaysShown(ops, e) <==> Kept(ops, e)
  {
    if ops == [] {
      assert ops[..0] == ops;
      assert forall r: nat :: Told(ops, r, e) == {};
    } else {
      var prev, op := ops[..|ops| - 1], ops[|ops| - 1];
      assert ops == prev + [op];
      ShownSplit(ops, e);
      ShownWhenKept(prev, e);
      if Kept(prev, e) {
        ShownStep(prev, op, e);
      }
    }
  }

  // ---------- Convergence ----------

  /** Replicas that have seen the same adds and removes show the same tags of the element. */
  ghost predicate Agrees<T>(ops: seq<Op<T>>, e: T) {
    forall a: nat, b: nat :: Seen(ops, a) == Seen(ops, b) ==> Live(Replica(ops, a), e) == Live(Replica(ops, b), e)
  }

  ghost predicate AlwaysAgrees<T>(ops: seq<Op<T>>, e: T) {
    forall i :: 0 <= i <= |ops| ==> Agrees(ops[..i], e)
  }

  /** Convergence: at every point of a run that loses no shown tag, replicas that have seen the same
      adds and removes show the same tags, and so agree on whether the element is present. */
  lemma KeptConvergence<T>(ops: seq<Op<T>>, e: T)
    requires Kept(ops, e)
    ensures AlwaysAgrees(ops, e)
  {
    ShownWhenKept(ops, e);
    forall i | 0 <= i <= |ops| ensures Agrees(ops[..i], e) {
      assert Shown(ops[..i], e);
      forall a: nat, b: nat | Seen(ops[..i], a) == Seen(ops[..i], b)
        ensures Live(Replica(ops[..i], a), e) == Live(Replica(ops[..i], b), e)
      {
        assert Told(ops[..i], a, e) == Told(ops[..i], b, e);
        assert Buried(ops[..i], a, e) == Buried(ops[..i], b, e);
      }
    }
  }

  ghost predicate Answers<T>(op: Op<T>, answer: Op<T>) {
    op.Absorb? && answer.Absorb? && answer.at == op.from && answer.from == op.at
  }

  ghost predicate Paired<T>(ops: seq<Op<T>>, i: nat)
    requires i < |ops|
  {
    (i + 1 < |ops| && Answers(ops[i], ops[i + 1])) || (i > 0 && Answers(ops[i - 1], ops[i]))
  }

  /** Replicas synchronise in both directions: a merge is followed by its answer or is one. */
  ghost predicate Mutual<T>(ops: seq<Op<T>>) {
    forall i :: 0 <= i < |ops| && ops[i].Absorb? ==> Paired(ops, i)
  }

  /** After a merge that loses a shown tag the receiver does not show it. */
  lemma LostTag<T>(prev: seq<Op<T>>, op: Op<T>, e: T) returns (t: OpId)
    requires !StepKeeps(prev, op, e)
    ensures op.Absorb? && op.at != op.from
    ensures t in Live(Replica(prev, op.from), e) && t in Live(Replica(prev + [op], op.from), e)
    ensures t !in Of(Replica(prev + [op], op.at).elements, e)
    ensures t !in Of(Replica(prev + [op], op.at).tombstones, e)
  {
    var s, o := Replica(prev, op.at), Replica(prev, op.from);
    t :| t in Live(o, e) - Of(s.tombstones, e) && t !in Of(s.elements, e);
    TagsStep(prev, op, e);
    Unfold(prev, op, op.from);
  }

  lemma LostBeforeAnswer<T>(prev: seq<Op<T>>, op: Op<T>, answer: Op<T>, e: T)
    requires !StepKeeps(prev, op, e) && Answers(op, answer)
    ensures !Agrees(prev + [op] + [answer], e)
  {
    var t := LostTag(prev, op, e);
    var mid, end := prev + [op], prev + [op] + [answer];
    SeenStep(prev, op, op.at);
    SeenStep(prev, op, op.from);
    SeenStep(mid, answer, op.at);
    SeenStep(mid, answer, op.from);
    assert Seen(end, op.at) == Seen(end, op.from);
    Unfold(mid, answer, op.at);
    TagsStep(mid, answer, e);
    assert t in Live(Replica(end, op.from), e) && t !in Live(Replica(end, op.at), e);
  }

  lemma LostInAnswer<T>(prev: seq<Op<T>>, op: Op<T>, answer: Op<T>, e: T)
    requires Answers(op, answer) && !StepKeeps(prev + [op], answer, e)
    ensures !Agrees(prev + [op] + [answer], e)
  {
    var mid, end := prev + [op], prev + [op] + [answer];
    var t := LostTag(mid, answer, e);
    SeenStep(prev, op, op.at);
    SeenStep(prev, op, op.from);
    SeenStep(mid, answer, op.at);
    SeenStep(mid, answer, op.from);
    assert Seen(end, op.at) == Seen(end, op.from);
    assert t in Live(Replica(end, op.at), e) && t !in Live(Replica(end, op.from), e);
  }

  lemma LostDisagrees<T>(ops: seq<Op<T>>, e: T, i: nat)
    requires i < |ops| && Paired(ops, i) && !StepKeeps(ops[..i], ops[i], e)
    ensures exists k :: 0 <= k <= |ops| && !Agrees(ops[..k], e)
  {
    if i + 1 < |ops| && Answers(ops[i], ops[i + 1]) {
      LostBeforeAnswer(ops[..i], ops[i], ops[i + 1], e);
      assert ops[..i + 2] == ops[..i] + [ops[i]] + [ops[i + 1]];
      assert !Agrees(ops[..i + 2], e);
    } else {
      var before := ops[..i - 1];
      assert ops[..i] == before + [ops[i - 1]];
      LostInAnswer(before, ops[i - 1], ops[i], e);
      assert ops[..i + 1] == before + [ops[i - 1]] + [ops[i]];
      assert !Agrees(ops[..i + 1], e);
    }
  }

  /** Exactly when replicas that synchronise in both directions converge: replicas that have seen the
      same updates show the same tags at every point of the run if and only if no merge of the run
      loses a shown tag. */
  lemma ConvergesExactlyWhenKept<T>(ops: seq<Op<T>>, e: T)
    requires Mutual(ops)
    ensures AlwaysAgrees(ops, e) <==> Kept(ops, e)
  {
    if Kept(ops, e) {
      KeptConvergence(ops, e);
    } else {
      var i :| 0 <= i < |ops| && !StepKeeps(ops[..i], ops[i], e);
      LostDisagrees(ops, e, i);
    }
  }

  lemma SeenStep<T>(prev: seq<Op<T>>, op: Op<T>, r: nat)
    ensures Seen(prev + [op], r) == if op.at != r then Seen(prev, r)
                                    else if op.Absorb? then Seen(prev, r) + Seen(prev, op.from)
                                    else Seen(prev, r) + {|prev|}
  {
    assert (prev + [op])[..|prev|] == prev;
  }

  lemma SeenAlong<T>(ops: seq<Op<T>>, n: nat, r: nat)
    requires n < |ops|
    ensures Seen(ops[..n + 1], r) == if ops[n].at != r then Seen(ops[..n], r)
                                     else if ops[n].Absorb? then Seen(ops[..n], r) + Seen(ops[..n], ops[n].from)
                                     else Seen(ops[..n], r) + {n}
  {
    assert ops[..n + 1] == ops[..n] + [ops[n]];
    SeenStep(ops[..n], ops[n], r);
  }

  /** In the diverging run both replicas have seen every update, but a merge loses a shown tag. */
  lemma CarelessDivergence<T>(e: T) returns (ops: seq<Op<T>>)
    ensures Seen(ops, 0) == {0, 2, 3} == Seen(ops, 1) && !Kept(ops, e)
    ensures !Contains(Replica(ops, 0), e) && Contains(Replica(ops, 1), e)
  {
    ops := ReplicasDiverge(e);
    assert ops[..0] == [] && ops[..6] == ops;
    for n := 0 to 6
      invariant Seen(ops[..n], 0) == if n == 0 then {} else if n < 3 then {0} else if n < 5 then {0, 2} else {0, 2, 3}
      invariant Seen(ops[..n], 1) == if n < 2 then {} else if n < 4 then {0} else if n < 6 then {0, 3} else {0, 2, 3}
    {
      SeenAlong(ops, n, 0);
      SeenAlong(ops, n, 1);
    }
    assert !Agrees(ops[..6], e);
    if Kept(ops, e) {
      KeptConvergence(ops, e);
    }
  }
}
