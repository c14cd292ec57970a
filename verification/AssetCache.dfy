/** The tiered asset cache and verifying fetcher of crates/rpack/src/asset.rs. Eviction pops a queue
    that may hold duplicate and stale ids; hashing is an arbitrary function. */
module AssetCache {
  import opened Prelude
  import opened MapSum
  import opened Codec

  type Id = nat
  type Data = seq<Byte>
  type Entries = map<Id, Data>

  // ---------- One bounded tier ----------

  datatype Tier = Tier(entries: Entries, queue: seq<Id>)

  function Lengths(entries: Entries): (m: map<Id, nat>) {
    map id | id in entries :: |entries[id]|
  }

  ghost function Size(entries: Entries): (n: nat) {
    Sum(Lengths(entries))
  }

  lemma SizeRemove(entries: Entries, id: Id)
    requires id in entries
    ensures Size(entries) == |entries[id]| + Size(entries - {id})
  {
    SumRemove(Lengths(entries), id);
    assert Lengths(entries) - {id} == Lengths(entries - {id});
  }

  lemma SizePut(entries: Entries, id: Id, data: Data)
    ensures Size(entries[id := data]) == Size(entries) + |data| - if id in entries then |entries[id]| else 0
  {
    assert Lengths(entries[id := data]) == Lengths(entries)[id := |data|];
    SumPut(Lengths(entries), id, |data|);
  }

  /** What is left after the first k ids of the queue have been evicted. */
  function Survivors(t: Tier, k: nat): (entries: Entries)
    requires k <= |t.queue|
  {
    t.entries - Elems(t.queue[..k])
  }

  /** A put evicts the shortest queue prefix that makes room, or everything; then it inserts, unless
      the data alone exceeds the limit. */
  ghost predicate PutsAfter(t: Tier, max: nat, id: Id, data: Data, t': Tier, ok: bool, k: nat)
    requires k <= |t.queue|
  {
    && (forall j :: 0 <= j < k ==> Size(Survivors(t, j)) + |data| > max)
    && (k == |t.queue| || Size(Survivors(t, k)) + |data| <= max)
    && (ok <==> |data| <= max)
    && t' == if ok then Tier(Survivors(t, k)[id := data], t.queue[k..] + [id])
             else Tier(Survivors(t, k), t.queue[k..])
  }

  ghost predicate Puts(t: Tier, max: nat, id: Id, data: Data, t': Tier, ok: bool) {
    exists k :: 0 <= k <= |t.queue| && PutsAfter(t, max, id, data, t', ok, k)
  }

  /** Within its byte limit, and every cached id is still queued for eviction. */
  ghost predicate TierOk(t: Tier, max: nat) {
    Size(t.entries) <= max && t.entries.Keys <= Elems(t.queue)
  }

  lemma ElemsSplit<T>(s: seq<T>, k: nat)
    requires k <= |s|
    ensures Elems(s) == Elems(s[..k]) + Elems(s[k..])
  {
    assert s == s[..k] + s[k..];
  }

  lemma EmptySize(entries: Entries)
    requires entries == map[]
    ensures Size(entries) == 0
  {
    assert Lengths(entries) == map[];
  }

  lemma SurvivorsQueued(t: Tier, k: nat)
    requires k <= |t.queue| && t.entries.Keys <= Elems(t.queue)
    ensures Survivors(t, k).Keys <= Elems(t.queue[k..])
    ensures k == |t.queue| ==> Survivors(t, k) == map[]
  {
    ElemsSplit(t.queue, k);
    if k == |t.queue| {
      assert t.queue[k..] == [];
    }
  }

  lemma InsertKeepsTier(left: Entries, tail: seq<Id>, max: nat, id: Id, data: Data)
    requires left.Keys <= Elems(tail) && Size(left) + |data| <= max
    ensures TierOk(Tier(left[id := data], tail + [id]), max)
  {
    SizePut(left, id, data);
    assert Elems(tail + [id]) == Elems(tail) + {id};
  }

  /** A put keeps the tier within its limit and every cached id queued; what it keeps it keeps
      unchanged, and data larger than the limit empties the tier without being stored. */
  lemma PutKeepsTier(t: Tier, max: nat, id: Id, data: Data, t': Tier, ok: bool)
    requires TierOk(t, max) && Puts(t, max, id, data, t', ok)
    ensures TierOk(t', max)
    ensures ok ==> id in t'.entries && t'.entries[id] == data
    ensures forall x :: x in t'.entries && x != id ==> x in t.entries && t'.entries[x] == t.entries[x]
    ensures !ok ==> t' == Tier(map[], [])
  {
    var k :| 0 <= k <= |t.queue| && PutsAfter(t, max, id, data, t', ok, k);
    SurvivorsQueued(t, k);
    EmptySize(map[]);
    if ok {
      InsertKeepsTier(Survivors(t, k), t.queue[k..], max, id, data);
    }
  }

  /** The eviction loop: the running size is the true size at every turn, so it never underflows. */
  method MakeRoom(t: Tier, max: nat, size: nat) returns (entries: Entries, queue: seq<Id>, ghost k: nat)
    ensures k <= |t.queue| && queue == t.queue[k..] && entries == Survivors(t, k)
    ensures forall j :: 0 <= j < k ==> Size(Survivors(t, j)) + size > max
    ensures queue == [] || Size(entries) + size <= max
  {
    var current := AddUp(Lengths(t.entries));
    entries, queue, k := t.entries, t.queue, 0;
    assert Survivors(t, 0) == t.entries;
    while current + size > max && queue != []
      invariant k <= |t.queue| && queue == t.queue[k..]
      invariant entries == Survivors(t, k) && current == Size(entries)
      invariant forall j :: 0 <= j < k ==> Size(Survivors(t, j)) + size > max
      decreases |queue|
    {
      var lru := queue[0];
      queue := queue[1..];
      SurvivorsStep(t, k);
      if lru in entries {
        SizeRemove(entries, lru);
        current := current - |entries[lru]|;
        entries := entries - {lru};
      } else {
        assert entries - {lru} == entries;
      }
      k := k + 1;
    }
  }

  lemma SurvivorsStep(t: Tier, k: nat)
    requires k < |t.queue|
    ensures Survivors(t, k + 1) == Survivors(t, k) - {t.queue[k]}
  {
    assert t.queue[..k + 1] == t.queue[..k] + [t.queue[k]];
    assert Elems(t.queue[..k + 1]) == Elems(t.queue[..k]) + {t.queue[k]};
  }

  method EvictAndInsert(t: Tier, max: nat, id: Id, data: Data) returns (t': Tier, ok: bool)
    requires TierOk(t, max)
    ensures Puts(t, max, id, data, t', ok) && TierOk(t', max)
  {
    var entries, queue, k := MakeRoom(t, max, |data|);
    if |data| <= max {
      t', ok := Tier(entries[id := data], queue + [id]), true;
    } else {
      t', ok := Tier(entries, queue), false;
    }
    assert PutsAfter(t, max, id, data, t', ok, k);
    PutKeepsTier(t, max, id, data, t', ok);
  }

  /** The queue without an id. */
  function Retained(queue: seq<Id>, id: Id): (r: seq<Id>)
    ensures Elems(r) == Elems(queue) - {id}
  {
    if queue == [] then []
    else
      var init, last := queue[..|queue| - 1], queue[|queue| - 1];
      assert queue == init + [last];
      assert Elems(queue) == Elems(init) + {last};
      if last == id then Retained(init, id)
      else
        assert Elems(Retained(init, id) + [last]) == Elems(Retained(init, id)) + {last};
        Retained(init, id) + [last]
  }

  function RemoveFrom(t: Tier, id: Id): (t': Tier) {
    if id in t.entries then Tier(t.entries - {id}, Retained(t.queue, id)) else t
  }

  lemma RemoveKeepsTier(t: Tier, max: nat, id: Id)
    requires TierOk(t, max)
    ensures TierOk(RemoveFrom(t, id), max) && id !in RemoveFrom(t, id).entries
    ensures forall x :: x in t.entries && x != id ==>
              x in RemoveFrom(t, id).entries && RemoveFrom(t, id).entries[x] == t.entries[x]
  {
    if id in t.entries {
      SizeRemove(t.entries, id);
    }
  }

  // ---------- The cache ----------

  datatype CacheTier = Memory | Disk | Regional | Network

  datatype Cache = Cache(tier0: Tier, tier1: Tier, tier2: Entries)

  datatype Limits = Limits(max0: nat, max1: nat)

  const EMPTY: Cache := Cache(Tier(map[], []), Tier(map[], []), map[])

  function Lookup(c: Cache, id: Id): (r: Option<Data>) {
    if id in c.tier0.entries then Some(c.tier0.entries[id])
    else if id in c.tier1.entries then Some(c.tier1.entries[id])
    else if id in c.tier2 then Some(c.tier2[id])
    else None
  }

  ghost predicate PutsInto(c: Cache, lim: Limits, id: Id, data: Data, tier: CacheTier, c': Cache, ok: bool) {
    match tier
    case Memory => Puts(c.tier0, lim.max0, id, data, c'.tier0, ok) && c' == c.(tier0 := c'.tier0)
    case Disk => Puts(c.tier1, lim.max1, id, data, c'.tier1, ok) && c' == c.(tier1 := c'.tier1)
    case Regional => ok && c' == c.(tier2 := c.tier2[id := data])
    case Network => !ok && c' == c
  }

  function Discard(c: Cache, id: Id): (c': Cache) {
    Cache(RemoveFrom(c.tier0, id), RemoveFrom(c.tier1, id), c.tier2 - {id})
  }

  ghost predicate CacheOk(c: Cache, lim: Limits) {
    TierOk(c.tier0, lim.max0) && TierOk(c.tier1, lim.max1)
  }

  /** Everything stored hashes to its key. */
  ghost predicate Authentic(c: Cache, hash: Data -> Id) {
    && (forall id :: id in c.tier0.entries ==> hash(c.tier0.entries[id]) == id)
    && (forall id :: id in c.tier1.entries ==> hash(c.tier1.entries[id]) == id)
    && (forall id :: id in c.tier2 ==> hash(c.tier2[id]) == id)
  }

  datatype Op = Put(id: Id, data: Data, tier: CacheTier) | Remove(id: Id)

  ghost predicate Step(c: Cache, lim: Limits, op: Op, c': Cache) {
    match op
    case Put(id, data, tier) => exists ok :: PutsInto(c, lim, id, data, tier, c', ok)
    case Remove(id) => c' == Discard(c, id)
  }

  lemma StepKeepsCache(c: Cache, lim: Limits, op: Op, c': Cache)
    requires CacheOk(c, lim) && Step(c, lim, op, c')
    ensures CacheOk(c', lim)
  {
    match op
    case Remove(id) =>
      RemoveKeepsTier(c.tier0, lim.max0, id);
      RemoveKeepsTier(c.tier1, lim.max1, id);
    case Put(id, data, tier) =>
      var ok :| PutsInto(c, lim, id, data, tier, c', ok);
      if tier == Memory {
        PutKeepsTier(c.tier0, lim.max0, id, data, c'.tier0, ok);
      } else if tier == Disk {
        PutKeepsTier(c.tier1, lim.max1, id, data, c'.tier1, ok);
      }
  }

  /** A store whose data hashes to its key keeps the cache authentic. */
  lemma StepKeepsAuthentic(c: Cache, lim: Limits, op: Op, c': Cache, hash: Data -> Id)
    requires CacheOk(c, lim) && Step(c, lim, op, c') && Authentic(c, hash)
    requires op.Put? ==> hash(op.data) == op.id
    ensures Authentic(c', hash)
  {
    if op.Put? {
      var ok :| PutsInto(c, lim, op.id, op.data, op.tier, c', ok);
      if op.tier == Memory {
        PutKeepsTier(c.tier0, lim.max0, op.id, op.data, c'.tier0, ok);
      } else if op.tier == Disk {
        PutKeepsTier(c.tier1, lim.max1, op.id, op.data, c'.tier1, ok);
      }
    }
  }

  ghost predicate Run(lim: Limits, ops: seq<Op>, cs: seq<Cache>) {
    && |cs| == |ops| + 1 && cs[0] == EMPTY
    && forall i :: 0 <= i < |ops| ==> Step(cs[i], lim, ops[i], cs[i + 1])
  }

  /** In every run of puts and removes each bounded tier stays within its byte limit with every
      cached id queued, and if every put was of matching data, every lookup is authentic. */
  lemma {:induction false} RunKeepsCache(lim: Limits, ops: seq<Op>, cs: seq<Cache>, hash: Data -> Id)
    requires Run(lim, ops, cs)
    ensures CacheOk(cs[|ops|], lim)
    ensures (forall i :: 0 <= i < |ops| && ops[i].Put? ==> hash(ops[i].data) == ops[i].id)
            ==> Authentic(cs[|ops|], hash)
  {
    if ops == [] {
      assert Lengths(map[]) == map[];
    } else {
      var n := |ops| - 1;
      assert Run(lim, ops[..n], cs[..n + 1]) by {
        forall i | 0 <= i < n ensures Step(cs[..n + 1][i], lim, ops[..n][i], cs[..n + 1][i + 1]) {
          assert Step(cs[i], lim, ops[i], cs[i + 1]);
        }
      }
      RunKeepsCache(lim, ops[..n], cs[..n + 1], hash);
      assert Step(cs[n], lim, ops[n], cs[n + 1]);
      StepKeepsCache(cs[n], lim, ops[n], cs[n + 1]);
      if forall i :: 0 <= i < |ops| && ops[i].Put? ==> hash(ops[i].data) == ops[i].id {
        assert forall i :: 0 <= i < n && ops[..n][i].Put? ==> hash(ops[..n][i].data) == ops[..n][i].id;
        StepKeepsAuthentic(cs[n], lim, ops[n], cs[n + 1], hash);
      }
    }
  }

  // ---------- First in, first out ----------

  /** What a put evicts was queued before anything it spares. */
  lemma EvictsOldest(t: Tier, max: nat, id: Id, data: Data, t': Tier, ok: bool, x: Id, y: Id)
    requires Puts(t, max, id, data, t', ok) && TierOk(t, max)
    requires x in t.entries && x !in t'.entries && y in t'.entries && y != id
    ensures exists i :: 0 <= i < |t.queue| && t.queue[i] == x && y !in t.queue[..i + 1]
  {
    var k :| 0 <= k <= |t.queue| && PutsAfter(t, max, id, data, t', ok, k);
    assert x in Elems(t.queue[..k]) && y !in Elems(t.queue[..k]);
    StandsEarlier(t.queue, k, x, y);
  }

  lemma StandsEarlier(queue: seq<Id>, k: nat, x: Id, y: Id)
    requires k <= |queue| && x in queue[..k] && y !in queue[..k]
    ensures exists i :: 0 <= i < |queue| && queue[i] == x && y !in queue[..i + 1]
  {
    var i :| 0 <= i < k && queue[..k][i] == x;
    assert queue[..i + 1] == queue[..k][..i + 1];
    assert queue[i] == x && y !in queue[..i + 1];
  }

  /** A put that fits evicts nothing, and one that does not stops evicting as soon as it fits: with the
      last evicted queue entry still there it would not. */
  lemma EvictsOnlyAsNeeded(t: Tier, max: nat, id: Id, data: Data, t': Tier, ok: bool)
    requires Puts(t, max, id, data, t', ok)
    ensures Size(t.entries) + |data| <= max ==> t'.entries == t.entries[id := data] && t'.queue == t.queue + [id]
    ensures Size(t.entries) + |data| > max && ok ==>
              t.queue == [] || exists j :: 0 <= j < |t.queue| && LastEvicted(t, max, id, data, t', j)
  {
    var k :| 0 <= k <= |t.queue| && PutsAfter(t, max, id, data, t', ok, k);
    assert Survivors(t, 0) == t.entries && t.queue[0..] == t.queue;
    if k > 0 {
      SurvivorsStep(t, k - 1);
      assert ok ==> LastEvicted(t, max, id, data, t', k - 1);
    }
  }

  ghost predicate LastEvicted(t: Tier, max: nat, id: Id, data: Data, t': Tier, j: nat)
    requires j < |t.queue|
  {
    && Size(Survivors(t, j)) + |data| > max
    && t'.entries == (Survivors(t, j) - {t.queue[j]})[id := data]
    && t'.queue == t.queue[j + 1..] + [id]
  }

  lemma {:induction false} RetainedConcat(a: seq<Id>, b: seq<Id>, id: Id)
    ensures Retained(a + b, id) == Retained(a, id) + Retained(b, id)
    decreases |b|
  {
    if b == [] {
      assert a + b == a && Retained(a, id) + [] == Retained(a, id);
    } else {
      var init := b[..|b| - 1];
      RetainedConcat(a, init, id);
      assert (a + b)[..|a + b| - 1] == a + init;
    }
  }

  function TierOf(c: Cache, disk: bool): (t: Tier) {
    if disk then c.tier1 else c.tier0
  }

  function LimitOf(lim: Limits, disk: bool): (max: nat) {
    if disk then lim.max1 else lim.max0
  }

  function NextOrder(lim: Limits, c: Cache, op: Op, disk: bool, before: seq<Id>): (ids: seq<Id>) {
    match op
    case Put(id, data, tier) =>
      if tier == (if disk then Disk else Memory) && |data| <= LimitOf(lim, disk) then before + [id] else before
    case Remove(id) => if id in TierOf(c, disk).entries then Retained(before, id) else before
  }

  /** The ids successfully put into a tier, in the order of the puts, without those removed since. */
  function PutOrder(lim: Limits, ops: seq<Op>, cs: seq<Cache>, disk: bool, n: nat): (ids: seq<Id>)
    requires n <= |ops| && |cs| == |ops| + 1
  {
    if n == 0 then []
    else NextOrder(lim, cs[n - 1], ops[n - 1], disk, PutOrder(lim, ops, cs, disk, n - 1))
  }

  ghost predicate IsSuffix(s: seq<Id>, t: seq<Id>) {
    |s| <= |t| && s == t[|t| - |s|..]
  }

  lemma SuffixPut(queue: seq<Id>, log: seq<Id>, k: nat, id: Id)
    requires IsSuffix(queue, log) && k <= |queue|
    ensures IsSuffix(queue[k..] + [id], log + [id]) && IsSuffix([], log)
  {
    assert log == log[..|log| - |queue|] + queue;
    assert (log + [id])[|log| - |queue| + k..] == queue[k..] + [id];
    assert log[|log|..] == [];
  }

  lemma SuffixRetained(queue: seq<Id>, log: seq<Id>, id: Id)
    requires IsSuffix(queue, log)
    ensures IsSuffix(Retained(queue, id), Retained(log, id))
  {
    var front := log[..|log| - |queue|];
    assert log == front + queue;
    RetainedConcat(front, queue, id);
  }

  lemma TierPut(t: Tier, max: nat, id: Id, data: Data, t': Tier, ok: bool, log: seq<Id>)
    requires Puts(t, max, id, data, t', ok) && TierOk(t, max) && IsSuffix(t.queue, log)
    ensures ok <==> |data| <= max
    ensures IsSuffix(t'.queue, if ok then log + [id] else log)
  {
    PutKeepsTier(t, max, id, data, t', ok);
    var k :| 0 <= k <= |t.queue| && PutsAfter(t, max, id, data, t', ok, k);
    SuffixPut(t.queue, log, k, id);
  }

  lemma StepQueue(c: Cache, lim: Limits, op: Op, c': Cache, disk: bool, log: seq<Id>)
    requires CacheOk(c, lim) && Step(c, lim, op, c') && IsSuffix(TierOf(c, disk).queue, log)
    ensures IsSuffix(TierOf(c', disk).queue, NextOrder(lim, c, op, disk, log))
  {
    match op
    case Remove(id) => SuffixRetained(TierOf(c, disk).queue, log, id);
    case Put(id, data, tier) =>
      var ok :| PutsInto(c, lim, id, data, tier, c', ok);
      if tier == (if disk then Disk else Memory) {
        TierPut(TierOf(c, disk), LimitOf(lim, disk), id, data, TierOf(c', disk), ok, log);
      }
  }

  lemma RunStep(lim: Limits, ops: seq<Op>, cs: seq<Cache>, i: nat, j: nat)
    requires Run(lim, ops, cs) && i < |ops| && j == i + 1
    ensures Step(cs[i], lim, ops[i], cs[j])
  {
  }

  /** In every run a bounded tier's queue is the latest part of its puts, in the order of the puts: what
      is evicted was put first, and reading an asset does not move it back. */
  lemma {:induction false} QueueIsPutOrder(lim: Limits, ops: seq<Op>, cs: seq<Cache>, disk: bool, n: nat)
    requires Run(lim, ops, cs) && n <= |ops|
    ensures CacheOk(cs[n], lim) && IsSuffix(TierOf(cs[n], disk).queue, PutOrder(lim, ops, cs, disk, n))
    decreases n
  {
    if n == 0 {
      EmptySize(map[]);
    } else {
      QueueIsPutOrder(lim, ops, cs, disk, n - 1);
      RunStep(lim, ops, cs, n - 1, n);
      StepKeepsCache(cs[n - 1], lim, ops[n - 1], cs[n]);
      StepQueue(cs[n - 1], lim, ops[n - 1], cs[n], disk, PutOrder(lim, ops, cs, disk, n - 1));
    }
  }

  /** Memory answers before disk and disk before regional: what a successful put into memory stored is
      what a lookup finds, whatever the other tiers hold. */
  lemma PutThenGet(c: Cache, lim: Limits, id: Id, data: Data, tier: CacheTier, c': Cache, ok: bool)
    requires CacheOk(c, lim) && PutsInto(c, lim, id, data, tier, c', ok)
    ensures ok ==> tier != Network
    ensures ok && tier == Memory ==> Lookup(c', id) == Some(data)
    ensures ok && tier == Disk ==> Lookup(c'.(tier0 := Tier(map[], [])), id) == Some(data) && c'.tier0 == c.tier0
    ensures ok && tier == Disk && id in c.tier0.entries ==> Lookup(c', id) == Some(c.tier0.entries[id])
    ensures ok && tier == Regional && id !in c.tier0.entries && id !in c.tier1.entries ==> Lookup(c', id) == Some(data)
    ensures ok && tier == Regional && (id in c.tier0.entries || id in c.tier1.entries)
            ==> Lookup(c', id) == Lookup(c, id)
  {
    if tier == Memory {
      PutKeepsTier(c.tier0, lim.max0, id, data, c'.tier0, ok);
    } else if tier == Disk {
      PutKeepsTier(c.tier1, lim.max1, id, data, c'.tier1, ok);
    }
  }

  // ---------- The in-place cache and the fetcher ----------

  class AssetCache {
    var state: Cache
    const limits: Limits

    ghost predicate Valid()
      reads this
    {
      CacheOk(state, limits)
    }

    constructor (max0Mb: nat, max1Mb: nat)
      ensures state == EMPTY && limits == Limits(max0Mb * 1024 * 1024, max1Mb * 1024 * 1024) && Valid()
    {
      state, limits := EMPTY, Limits(max0Mb * 1024 * 1024, max1Mb * 1024 * 1024);
      assert Lengths(map[]) == map[];
    }

    method Get(id: Id) returns (r: Option<Data>)
      ensures r == Lookup(state, id)
    {
      if id in state.tier0.entries { return Some(state.tier0.entries[id]); }
      if id in state.tier1.entries { return Some(state.tier1.entries[id]); }
      if id in state.tier2 { return Some(state.tier2[id]); }
      return None;
    }

    method Put(id: Id, data: Data, tier: CacheTier) returns (ok: bool)
      requires Valid()
      modifies this
      ensures Valid() && PutsInto(old(state), limits, id, data, tier, state, ok)
    {
      match tier
      case Memory =>
        var t;
        t, ok := EvictAndInsert(state.tier0, limits.max0, id, data);
        state := state.(tier0 := t);
      case Disk =>
        var t;
        t, ok := EvictAndInsert(state.tier1, limits.max1, id, data);
        state := state.(tier1 := t);
      case Regional =>
        state := state.(tier2 := state.tier2[id := data]);
        ok := true;
      case Network =>
        ok := false;
    }

    method RemoveAsset(id: Id) returns (removed: bool)
      requires Valid()
      modifies this
      ensures Valid() && state == Discard(old(state), id) && Lookup(state, id) == None
      ensures removed <==> Lookup(old(state), id) != None
    {
      RemoveKeepsTier(state.tier0, limits.max0, id);
      RemoveKeepsTier(state.tier1, limits.max1, id);
      removed := false;
      if id in state.tier0.entries {
        state := state.(tier0 := Tier(state.tier0.entries - {id}, Retained(state.tier0.queue, id)));
        removed := true;
      }
      if id in state.tier1.entries {
        state := state.(tier1 := Tier(state.tier1.entries - {id}, Retained(state.tier1.queue, id)));
        removed := true;
      }
      if id in state.tier2 {
        removed := true;
      }
      state := state.(tier2 := state.tier2 - {id});
    }
  }

  datatype FetchResult = Found(data: Data) | NotCached | Missing

  class AssetFetcher {
    const cache: AssetCache
    var offline: bool
    const hash: Data -> Id

    ghost predicate Valid()
      reads this, cache
    {
      cache.Valid() && Authentic(cache.state, hash)
    }

    constructor (max0Mb: nat, max1Mb: nat, hash: Data -> Id)
      ensures Valid() && fresh(cache) && cache.state == EMPTY && !offline && this.hash == hash
    {
      cache := new AssetCache(max0Mb, max1Mb);
      offline, this.hash := false, hash;
    }

    method SetOffline(on: bool)
      requires Valid()
      modifies this`offline
      ensures Valid() && offline == on
    {
      offline := on;
    }

    /** Whatever the fetcher returns hashes to the id that was asked for. */
    method FetchAsset(id: Id) returns (r: FetchResult)
      requires Valid()
      ensures r.Found? ==> hash(r.data) == id && Lookup(cache.state, id) == Some(r.data)
      ensures r == Missing <==> Lookup(cache.state, id) == None && offline
    {
      var hit := cache.Get(id);
      if hit.Some? { return Found(hit.value); }
      if offline { return Missing; }
      return NotCached;
    }

    /** Data is stored only under its own hash; anything else changes nothing. */
    method VerifyAndCache(id: Id, data: Data, tier: CacheTier) returns (ok: bool)
      requires Valid()
      modifies cache
      ensures Valid()
      ensures hash(data) != id ==> !ok && cache.state == old(cache.state)
      ensures hash(data) == id ==> PutsInto(old(cache.state), cache.limits, id, data, tier, cache.state, ok)
      ensures ok ==> Lookup(cache.state, id) != None
    {
      if hash(data) != id {
        return false;
      }
      ghost var before := cache.state;
      ok := cache.Put(id, data, tier);
      StepKeepsAuthentic(before, cache.limits, Put(id, data, tier), cache.state, hash);
      if ok && tier == Memory {
        PutKeepsTier(before.tier0, cache.limits.max0, id, data, cache.state.tier0, ok);
      } else if ok && tier == Disk {
        PutKeepsTier(before.tier1, cache.limits.max1, id, data, cache.state.tier1, ok);
      }
    }
  }
}
