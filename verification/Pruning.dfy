/** The block archive of crates/truth/src/pruning.rs: a map of blocks indexed by a height queue. */
module Pruning {
  import opened Prelude
  import opened MapSum

  datatype Block = Block(hash: nat, stateRoot: nat, size: nat, txCount: nat)
  datatype Config = Config(enabled: bool, retention: nat, minHeight: nat)
  datatype Stats = Stats(total: nat, bytes: nat, earliest: nat, latest: nat)
  datatype Archive = Archive(blocks: map<nat, Block>, heights: seq<nat>)

  const EMPTY: Archive := Archive(map[], [])

  /** The queue lists exactly the archived heights, each once. */
  ghost predicate Indexed(a: Archive) {
    Distinct(a.heights) && Elems(a.heights) == a.blocks.Keys
  }

  // ---------- Operations ----------

  function Store(a: Archive, height: nat, b: Block): (a': Archive) {
    Archive(a.blocks[height := b], if height in a.heights then a.heights else a.heights + [height])
  }

  predicate ShouldPrune(cfg: Config, current: nat) {
    cfg.enabled && SaturatingSub(current, cfg.retention) > cfg.minHeight
  }

  function Below(heights: seq<nat>, cutoff: nat): (r: seq<nat>) {
    if heights == [] then []
    else Below(heights[..|heights| - 1], cutoff)
         + if heights[|heights| - 1] < cutoff then [heights[|heights| - 1]] else []
  }

  function ToPrune(cfg: Config, a: Archive, current: nat): (r: seq<nat>) {
    if ShouldPrune(cfg, current) then Below(a.heights, SaturatingSub(current, cfg.retention)) else []
  }

  function Without(heights: seq<nat>, gone: set<nat>): (r: seq<nat>) {
    if heights == [] then []
    else Without(heights[..|heights| - 1], gone)
         + if heights[|heights| - 1] in gone then [] else [heights[|heights| - 1]]
  }

  function Drop(a: Archive, gone: set<nat>): (a': Archive) {
    Archive(a.blocks - gone, Without(a.heights, gone))
  }

  lemma {:induction false} WithoutElems(heights: seq<nat>, gone: set<nat>)
    requires Distinct(heights)
    ensures Elems(Without(heights, gone)) == Elems(heights) - gone && Distinct(Without(heights, gone))
    ensures Ascending(heights) ==> Ascending(Without(heights, gone))
  {
    if heights != [] {
      var init, last := heights[..|heights| - 1], heights[|heights| - 1];
      WithoutElems(init, gone);
      assert heights == init + [last];
      assert Elems(heights) == Elems(init) + {last};
      var r := Without(init, gone);
      assert last !in Elems(init);
      if last !in gone {
        assert Elems(r + [last]) == Elems(r) + {last};
        if Ascending(heights) {
          forall y | y in r ensures y < last {
            assert y in Elems(r);
            assert y in init;
          }
          AscendingAppend(r, last);
        }
      } else {
        assert r + [] == r;
        assert Elems(heights) - gone == Elems(init) - gone;
      }
    }
  }

  lemma {:induction false} BelowExactly(heights: seq<nat>, cutoff: nat)
    ensures forall h :: h in Below(heights, cutoff) <==> h in heights && h < cutoff
  {
    if heights != [] {
      BelowExactly(heights[..|heights| - 1], cutoff);
      assert heights == heights[..|heights| - 1] + [heights[|heights| - 1]];
    }
  }

  /** Archiving a height keeps the queue in order: it is archived already or exceeds all others. */
  ghost predicate Follows(a: Archive, height: nat) {
    height in a.blocks || forall h :: h in a.blocks ==> h < height
  }

  lemma StoreKeepsIndex(a: Archive, height: nat, b: Block)
    requires Indexed(a)
    ensures Indexed(Store(a, height, b))
    ensures Ascending(Store(a, height, b).heights) <==> Ascending(a.heights) && Follows(a, height)
  {
    if height in a.heights {
      assert height in Elems(a.heights);
    } else {
      var hs := a.heights + [height];
      assert Elems(hs) == Elems(a.heights) + {height};
      assert forall h :: h in a.heights <==> h in Elems(a.heights);
      AscendingAppend(a.heights, height);
    }
  }

  lemma DropKeepsIndex(a: Archive, gone: set<nat>)
    requires Indexed(a)
    ensures Indexed(Drop(a, gone))
    ensures Ascending(a.heights) ==> Ascending(Drop(a, gone).heights)
  {
    WithoutElems(a.heights, gone);
  }

  /** Pruning is due exactly once the current height has passed the retention above the minimum height. */
  lemma DueExactlyWhen(cfg: Config, current: nat)
    ensures ShouldPrune(cfg, current) <==> cfg.enabled && current > cfg.minHeight + cfg.retention
  {
  }

  /** When pruning is due, pruning what is listed removes exactly the blocks below the cutoff, leaves
      the others unchanged, and a second look finds nothing left to prune. */
  lemma PruneIsExact(cfg: Config, a: Archive, current: nat)
    requires Indexed(a) && ShouldPrune(cfg, current)
    ensures var cutoff := SaturatingSub(current, cfg.retention);
            var a' := Drop(a, Elems(ToPrune(cfg, a, current)));
            && a'.blocks == (map h | h in a.blocks && h >= cutoff :: a.blocks[h])
            && ToPrune(cfg, a', current) == []
            && Elems(ToPrune(cfg, a, current)) == set h | h in a.blocks && h < cutoff
  {
    var cutoff := SaturatingSub(current, cfg.retention);
    var gone := Elems(ToPrune(cfg, a, current));
    BelowExactly(a.heights, cutoff);
    assert forall h :: h in gone <==> h in Elems(a.heights) && h < cutoff;
    DropKeepsIndex(a, gone);
    var left := Drop(a, gone).heights;
    assert forall h :: h in left ==> h in Elems(left);
    BelowNothing(left, cutoff);
  }

  lemma BelowNothing(heights: seq<nat>, cutoff: nat)
    requires forall h :: h in heights ==> h >= cutoff
    ensures Below(heights, cutoff) == []
  {
    BelowExactly(heights, cutoff);
    assert |Below(heights, cutoff)| > 0 ==> Below(heights, cutoff)[0] in Below(heights, cutoff);
  }

  // ---------- Runs ----------

  datatype Op = Put(height: nat, block: Block) | Prune(listed: seq<nat>)

  function Run(ops: seq<Op>): (a: Archive) {
    if ops == [] then EMPTY
    else
      var a := Run(ops[..|ops| - 1]);
      match ops[|ops| - 1]
      case Put(h, b) => Store(a, h, b)
      case Prune(hs) => Drop(a, Elems(hs))
  }

  /** In every run the queue indexes the blocks. */
  lemma {:induction false} RunIndexed(ops: seq<Op>)
    ensures Indexed(Run(ops))
  {
    if ops != [] {
      var a := Run(ops[..|ops| - 1]);
      RunIndexed(ops[..|ops| - 1]);
      match ops[|ops| - 1]
      case Put(h, b) => StoreKeepsIndex(a, h, b);
      case Prune(hs) => DropKeepsIndex(a, Elems(hs));
    }
  }

  /** The block last archived at a height and not pruned since. */
  function LastPut(ops: seq<Op>, height: nat): (b: Option<Block>) {
    if ops == [] then None
    else
      var init := ops[..|ops| - 1];
      match ops[|ops| - 1]
      case Put(h, b) => if h == height then Some(b) else LastPut(init, height)
      case Prune(hs) => if height in hs then None else LastPut(init, height)
  }

  /** In every run the archive holds at each height exactly the block last put there and not pruned since. */
  lemma {:induction false} ArchiveIsLastPuts(ops: seq<Op>, height: nat)
    ensures height in Run(ops).blocks <==> LastPut(ops, height).Some?
    ensures height in Run(ops).blocks ==> Run(ops).blocks[height] == LastPut(ops, height).value
  {
    if ops != [] {
      ArchiveIsLastPuts(ops[..|ops| - 1], height);
    }
  }

  /** Every newly archived height exceeds the ones in the archive. */
  ghost predicate InOrder(ops: seq<Op>) {
    forall i :: 0 <= i < |ops| && ops[i].Put? ==> Follows(Run(ops[..i]), ops[i].height)
  }

  ghost predicate AlwaysAscending(ops: seq<Op>) {
    forall i :: 0 <= i <= |ops| ==> Ascending(Run(ops[..i]).heights)
  }

  /** The queue is ascending at every point of a run exactly when blocks are archived in order. */
  lemma {:induction false} AscendingThroughout(ops: seq<Op>)
    ensures AlwaysAscending(ops) <==> InOrder(ops)
  {
    assert ops[..|ops|] == ops;
    if ops != [] {
      var n := |ops| - 1;
      var prev := ops[..n];
      assert forall i :: 0 <= i <= n ==> prev[..i] == ops[..i];
      assert AlwaysAscending(ops) <==> AlwaysAscending(prev) && Ascending(Run(ops).heights);
      AscendingThroughout(prev);
      RunIndexed(prev);
      assert AlwaysAscending(prev) ==> Ascending(Run(prev[..n]).heights);
      match ops[n]
      case Put(h, b) => StoreKeepsIndex(Run(prev), h, b);
      case Prune(hs) => DropKeepsIndex(Run(prev), Elems(hs));
    }
  }

  function Sizes(blocks: map<nat, Block>): (m: map<nat, nat>) {
    map h | h in blocks :: blocks[h].size
  }

  /** The ends of the queue, which the statistics report, are the true extremes. */
  ghost predicate EndsRight(a: Archive) {
    forall h :: h in a.blocks ==> a.heights != [] && a.heights[0] <= h <= a.heights[|a.heights| - 1]
  }

  lemma AscendingEnds(a: Archive)
    requires Indexed(a) && Ascending(a.heights)
    ensures EndsRight(a)
  {
    forall h | h in a.blocks ensures a.heights != [] && a.heights[0] <= h <= a.heights[|a.heights| - 1] {
      assert h in Elems(a.heights);
      var i :| 0 <= i < |a.heights| && a.heights[i] == h;
    }
  }

  /** Keeping two entries of a queue and dropping the others leaves them in their order. */
  lemma {:induction false} OnlyTwo(heights: seq<nat>, i: nat, j: nat, gone: set<nat>)
    requires Distinct(heights) && i < j < |heights|
    requires forall h :: h in heights ==> (h in gone <==> h != heights[i] && h != heights[j])
    ensures Without(heights, gone) == [heights[i], heights[j]]
  {
    var n := |heights| - 1;
    assert heights == heights[..n] + [heights[n]];
    if j < n {
      OnlyTwo(heights[..n], i, j, gone);
    } else {
      OnlyOne(heights[..n], i, gone);
    }
  }

  lemma {:induction false} OnlyOne(heights: seq<nat>, i: nat, gone: set<nat>)
    requires Distinct(heights) && i < |heights|
    requires forall h :: h in heights ==> (h in gone <==> h != heights[i])
    ensures Without(heights, gone) == [heights[i]]
  {
    var n := |heights| - 1;
    assert heights == heights[..n] + [heights[n]];
    if i < n {
      OnlyOne(heights[..n], i, gone);
    } else {
      WithoutAll(heights[..n], gone);
    }
  }

  lemma {:induction false} WithoutAll(heights: seq<nat>, gone: set<nat>)
    requires forall h :: h in heights ==> h in gone
    ensures Without(heights, gone) == []
  {
    if heights != [] {
      WithoutAll(heights[..|heights| - 1], gone);
    }
  }

  lemma InvertedPairFails(a: Archive, i: nat, j: nat)
    requires Indexed(a) && i < j < |a.heights| && a.heights[i] >= a.heights[j]
    ensures !EndsRight(Drop(a, Elems(a.heights) - {a.heights[i], a.heights[j]}))
  {
    var gone := Elems(a.heights) - {a.heights[i], a.heights[j]};
    OnlyTwo(a.heights, i, j, gone);
    assert a.heights[j] in Elems(a.heights);
    assert a.heights[j] in Drop(a, gone).blocks;
  }

  /** The reported earliest and latest heights are the true ones, and stay so under every later
      pruning, exactly when the queue is ascending. */
  lemma StatsAreExtremes(a: Archive)
    requires Indexed(a)
    ensures Ascending(a.heights) <==> forall gone: set<nat> :: EndsRight(Drop(a, gone))
    ensures Ascending(a.heights) ==> EndsRight(a)
  {
    if Ascending(a.heights) {
      AscendingEnds(a);
      forall gone: set<nat> ensures EndsRight(Drop(a, gone)) {
        DropKeepsIndex(a, gone);
        AscendingEnds(Drop(a, gone));
      }
    } else {
      var i, j :| 0 <= i < j < |a.heights| && a.heights[i] >= a.heights[j];
      InvertedPairFails(a, i, j);
    }
  }

  /** Archived out of order, the reported earliest height need not be the smallest. */
  lemma OutOfOrderStats(b: Block)
    ensures var a := Run([Put(5, b), Put(3, b)]);
            a.heights[0] == 5 && 3 in a.blocks
  {
    var ops := [Put(5, b), Put(3, b)];
    assert ops[..1] == [Put(5, b)] && ops[..1][..0] == [];
    assert Run(ops[..1]) == Archive(map[5 := b], [5]);
  }

  // ---------- The archive in place ----------

  class StatePruner {
    var blocks: map<nat, Block>
    var heights: seq<nat>
    const cfg: Config

    ghost function State(): (a: Archive)
      reads this
    {
      Archive(blocks, heights)
    }

    constructor (cfg: Config)
      ensures State() == EMPTY && Indexed(State()) && this.cfg == cfg
    {
      blocks, heights, this.cfg := map[], [], cfg;
    }

    method ArchiveBlock(height: nat, b: Block)
      requires Indexed(State())
      modifies this
      ensures State() == Store(old(State()), height, b) && Indexed(State())
    {
      StoreKeepsIndex(State(), height, b);
      blocks := blocks[height := b];
      if height !in heights {
        heights := heights + [height];
      }
    }

    method GetBlocksToPrune(current: nat) returns (r: seq<nat>)
      ensures r == ToPrune(cfg, State(), current)
    {
      if !ShouldPrune(cfg, current) {
        return [];
      }
      r := Below(heights, SaturatingSub(current, cfg.retention));
    }

    method Position(h: nat) returns (pos: nat)
      requires Indexed(State()) && h in blocks
      ensures pos < |heights| && heights[pos] == h
    {
      assert h in Elems(heights);
      pos := 0;
      while heights[pos] != h
        invariant pos < |heights| && h !in heights[..pos]
        decreases |heights| - pos
      {
        assert heights[..pos + 1] == heights[..pos] + [heights[pos]];
        assert heights == heights[..pos + 1] + heights[pos + 1..];
        pos := pos + 1;
      }
    }

    /** One turn of the pruning loop. */
    method PruneHeight(h: nat) returns (removed: bool)
      requires Indexed(State())
      modifies this
      ensures State() == Drop(old(State()), {h}) && Indexed(State())
      ensures removed <==> h in old(blocks)
    {
      DropKeepsIndex(State(), {h});
      removed := h in blocks;
      if removed {
        var pos := Position(h);
        RemoveAt(heights, pos);
        blocks, heights := blocks - {h}, heights[..pos] + heights[pos + 1..];
      } else {
        DropAbsent(State(), h);
      }
    }

    /** Prunes the listed heights that are archived and counts them; repeats and strangers are skipped. */
    method PruneHeights(listed: seq<nat>) returns (count: nat)
      requires Indexed(State())
      modifies this
      ensures State() == Drop(old(State()), Elems(listed)) && Indexed(State())
      ensures count == |old(blocks).Keys * Elems(listed)|
    {
      count := 0;
      ghost var start := State();
      DropNothing(start);
      assert Elems(listed[..0]) == {} && start.blocks.Keys * {} == {};
      for i := 0 to |listed|
        invariant State() == Drop(start, Elems(listed[..i])) && Indexed(State())
        invariant count == |start.blocks.Keys * Elems(listed[..i])|
      {
        DropOne(start, listed, i);
        CountOne(start.blocks.Keys, listed, i);
        var removed := PruneHeight(listed[i]);
        if removed {
          count := count + 1;
        }
      }
      assert listed[..|listed|] == listed;
    }

    method GetStats() returns (s: Stats)
      requires Indexed(State())
      ensures s.total == |blocks| && s.bytes == Sum(Sizes(blocks))
      ensures heights == [] ==> s.earliest == 0 && s.latest == 0
      ensures heights != [] ==> s.earliest == heights[0] && s.latest == heights[|heights| - 1]
      ensures (forall h :: h in blocks ==> s.earliest <= h <= s.latest) <==> EndsRight(State())
      ensures Ascending(heights) ==> forall h :: h in blocks ==> s.earliest <= h <= s.latest
    {
      var bytes := AddUp(Sizes(blocks));
      if heights == [] {
        s := Stats(|blocks|, bytes, 0, 0);
        assert Elems(heights) == {};
      } else {
        s := Stats(|blocks|, bytes, heights[0], heights[|heights| - 1]);
        if Ascending(heights) {
          AscendingEnds(State());
        }
      }
    }
  }

  lemma {:induction false} WithoutNothing(heights: seq<nat>)
    ensures Without(heights, {}) == heights
  {
    if heights != [] {
      WithoutNothing(heights[..|heights| - 1]);
    }
  }

  lemma DropNothing(a: Archive)
    ensures Drop(a, {}) == a
  {
    WithoutNothing(a.heights);
  }

  lemma {:induction false} WithoutTwice(heights: seq<nat>, gone: set<nat>, h: nat)
    ensures Without(heights, gone + {h}) == Without(Without(heights, gone), {h})
  {
    if heights != [] {
      var init, last := heights[..|heights| - 1], heights[|heights| - 1];
      WithoutTwice(init, gone, h);
      if last in gone {
        assert Without(init, gone) + [] == Without(init, gone);
      } else {
        var r := Without(init, gone) + [last];
        assert r[..|r| - 1] == Without(init, gone);
      }
    }
  }

  lemma {:induction false} WithoutAbsent(heights: seq<nat>, h: nat)
    requires h !in heights
    ensures Without(heights, {h}) == heights
  {
    if heights != [] {
      WithoutAbsent(heights[..|heights| - 1], h);
    }
  }

  lemma DropAbsent(a: Archive, h: nat)
    requires Indexed(a) && h !in a.blocks
    ensures Drop(a, {h}) == a
  {
    assert h !in Elems(a.heights);
    WithoutAbsent(a.heights, h);
    assert a.blocks - {h} == a.blocks;
  }

  lemma ElemsNext(listed: seq<nat>, i: nat)
    requires i < |listed|
    ensures Elems(listed[..i + 1]) == Elems(listed[..i]) + {listed[i]}
  {
    assert listed[..i + 1] == listed[..i] + [listed[i]];
  }

  /** Dropping one more listed height. */
  lemma DropOne(a: Archive, listed: seq<nat>, i: nat)
    requires i < |listed|
    ensures Drop(a, Elems(listed[..i + 1])) == Drop(Drop(a, Elems(listed[..i])), {listed[i]})
  {
    var gone := Elems(listed[..i]);
    ElemsNext(listed, i);
    WithoutTwice(a.heights, gone, listed[i]);
    assert a.blocks - (gone + {listed[i]}) == a.blocks - gone - {listed[i]};
  }

  lemma CountOne(keys: set<nat>, listed: seq<nat>, i: nat)
    requires i < |listed|
    ensures |keys * Elems(listed[..i + 1])|
         == |keys * Elems(listed[..i])| + if listed[i] in keys - Elems(listed[..i]) then 1 else 0
  {
    ElemsNext(listed, i);
    var before, after := keys * Elems(listed[..i]), keys * Elems(listed[..i + 1]);
    if listed[i] in keys - Elems(listed[..i]) {
      assert after == before + {listed[i]};
    } else {
      assert after == before;
    }
  }

  lemma {:induction false} RemoveAt(heights: seq<nat>, pos: nat)
    requires Distinct(heights) && pos < |heights|
    ensures Without(heights, {heights[pos]}) == heights[..pos] + heights[pos + 1..]
  {
    var init, last := heights[..|heights| - 1], heights[|heights| - 1];
    assert heights == init + [last];
    if pos == |heights| - 1 {
      WithoutAbsent(init, last);
    } else {
      RemoveAt(init, pos);
      assert heights[pos + 1..] == init[pos + 1..] + [last];
    }
  }
}
