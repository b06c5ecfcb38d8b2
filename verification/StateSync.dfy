/** Keeping the snapshot in step with the scheduler cache: all mutations are undone, then the cache copies
    over only what changed, which it tells from the generations of the nodes. */
module StateSync {
  import opened Pods
  import opened Undo
  import opened Operations
  import opened Machine
  import opened Store
  import opened Snapshots

  type Generations = map<NodeName, nat>

  /** The incremental update may keep a node it finds at least as new as the cache's; `more` is what it
      copies although it need not. */
  predicate Kept(gens: Generations, cacheGens: Generations, more: set<NodeName>, n: NodeName) {
    n in gens && n in cacheGens && gens[n] >= cacheGens[n] && n !in more
  }

  function Updated(nodes: Cluster, gens: Generations, cache: Cluster, cacheGens: Generations,
                   more: set<NodeName>): Cluster {
    map n | n in cache :: if n in nodes && Kept(gens, cacheGens, more, n) then nodes[n] else cache[n]
  }

  function UpdatedGenerations(nodes: Cluster, gens: Generations, cache: Cluster, cacheGens: Generations,
                              more: set<NodeName>): Generations
    requires cache.Keys == cacheGens.Keys
  {
    map n | n in cache :: if n in nodes && Kept(gens, cacheGens, more, n) then gens[n] else cacheGens[n]
  }

  /** How far an update gets: to its end, or to an error after it has dealt with the nodes in `done` and
      dropped some that the cache does not have. */
  datatype Reach = Whole | Part(done: set<NodeName>, dropped: set<NodeName>)

  /** A table while the update has dealt with the nodes in `done`, keeping those in `kept`, and not yet
      dropped any. */
  ghost function Mixed<V>(before: map<NodeName, V>, cached: map<NodeName, V>, kept: set<NodeName>,
                          done: set<NodeName>): map<NodeName, V>
    requires kept <= before.Keys && done <= cached.Keys
  {
    map n | n in before.Keys + done :: if n in done - kept then cached[n] else before[n]
  }

  /** The nodes the update keeps. */
  ghost function KeptNodes(nodes: Cluster, gens: Generations, cacheGens: Generations,
                           more: set<NodeName>): set<NodeName> {
    set n | n in nodes && Kept(gens, cacheGens, more, n)
  }

  ghost function PartUpdated(nodes: Cluster, gens: Generations, cache: Cluster, cacheGens: Generations,
                             more: set<NodeName>, reach: Reach): Cluster
    requires reach.Part?
  {
    Mixed(nodes, cache, KeptNodes(nodes, gens, cacheGens, more), reach.done * cache.Keys) - (reach.dropped - cache.Keys)
  }

  ghost function PartUpdatedGenerations(nodes: Cluster, gens: Generations, cache: Cluster, cacheGens: Generations,
                                        more: set<NodeName>, reach: Reach): Generations
    requires reach.Part? && cache.Keys == cacheGens.Keys
  {
    Mixed(gens, cacheGens, KeptNodes(nodes, gens, cacheGens, more),
        reach.done * cache.Keys) - (reach.dropped - cache.Keys)
  }

  // ---- Runs ----

  /** A snapshot with the cache it is synchronised from. `base` is history: the nodes at the last sync. */
  datatype Site = Site(world: World, gens: Generations, cache: Cluster, cacheGens: Generations, clock: nat,
                       base: Cluster)

  datatype Event =
    | CacheSet(node: NodeName, pods: multiset<PodVal>)
    | CacheDrop(node: NodeName)
    | Simulate(call: Call)
    | Sync(more: set<NodeName>, reach: Reach)

  /** Synchronising fails, and changes nothing, while a transaction is open. If the update fails, the
      mutations have been undone and some of the nodes are up to date. */
  ghost function Synced(s: Site, more: set<NodeName>, reach: Reach): (Site, Result<()>)
    requires s.cache.Keys == s.cacheGens.Keys
  {
    var (t, r) := Reset(s.world.core);
    if r.Err? then (s, r)
    else if reach.Whole? then
      (Refreshed(s, t, Updated(t.cluster, s.gens, s.cache, s.cacheGens, more),
                 UpdatedGenerations(t.cluster, s.gens, s.cache, s.cacheGens, more)), Ok(()))
    else
      (Refreshed(s, t, PartUpdated(t.cluster, s.gens, s.cache, s.cacheGens, more, reach),
                 PartUpdatedGenerations(t.cluster, s.gens, s.cache, s.cacheGens, more, reach)), Err(UpdateFailed))
  }

  ghost function Refreshed(s: Site, t: Core, nodes: Cluster, gens: Generations): Site {
    s.(world := s.world.(core := t.(cluster := nodes)), gens := gens, base := nodes)
  }

  ghost function Happens(s: Site, e: Event): Site
    requires s.cache.Keys == s.cacheGens.Keys
  {
    match e
    case CacheSet(n, pods) =>
      s.(cache := s.cache[n := pods], cacheGens := s.cacheGens[n := s.clock + 1], clock := s.clock + 1)
    case CacheDrop(n) => s.(cache := s.cache - {n}, cacheGens := s.cacheGens - {n})
    case Simulate(call) => s.(world := Exec(s.world, call))
    case Sync(more, reach) => Synced(s, more, reach).0
  }

  /** Simulated calls are disciplined, and the cache too holds for each UID the pod it identifies. */
  ghost predicate Orderly(s: Site, e: Event, content: string -> nat) {
    match e
    case CacheSet(_, pods) => forall p :: p in pods ==> p.request == content(p.uid)
    case Simulate(call) => Disciplined(s.world, call, content)
    case _ => true
  }

  /** Nothing in the snapshot is newer than the cache, and a node as new as the cache's was the cache's. */
  ghost predicate InStep(base: Cluster, gens: Generations, cache: Cluster, cacheGens: Generations, clock: nat) {
    && gens.Keys == base.Keys && cacheGens.Keys == cache.Keys
    && (forall n :: n in gens ==> gens[n] <= clock)
    && (forall n :: n in cacheGens ==> cacheGens[n] <= clock)
    && (forall n :: n in gens && n in cacheGens && gens[n] >= cacheGens[n] ==> base[n] == cache[n])
  }

  ghost predicate Tracks(s: Site, content: string -> nat) {
    && s.cache.Keys == s.cacheGens.Keys
    && InStep(s.base, s.gens, s.cache, s.cacheGens, s.clock)
    && Uniform(s.cache, content)
    && Sound(s.world, s.base, content)
  }

  /** No node that is at least as new in the snapshot differs from the cache's. */
  ghost predicate NewerAgree(nodes: Cluster, gens: Generations, cache: Cluster, cacheGens: Generations) {
    forall n :: n in nodes && n in cache && Kept(gens, cacheGens, {}, n) ==> nodes[n] == cache[n]
  }

  lemma AgreeingUpdated(nodes: Cluster, gens: Generations, cache: Cluster, cacheGens: Generations, more: set<NodeName>)
    requires NewerAgree(nodes, gens, cache, cacheGens)
    ensures Updated(nodes, gens, cache, cacheGens, more) == cache
  {
    forall n | n in cache ensures Updated(nodes, gens, cache, cacheGens, more)[n] == cache[n] {
      assert Kept(gens, cacheGens, more, n) ==> Kept(gens, cacheGens, {}, n);
    }
  }

  /** Whatever an update copies beyond what it must, it gives the whole cache view exactly when no node that
      is at least as new in the snapshot differs from the cache's. */
  lemma UpdateExact(nodes: Cluster, gens: Generations, cache: Cluster, cacheGens: Generations)
    ensures (forall more :: Updated(nodes, gens, cache, cacheGens, more) == cache) <==>
        NewerAgree(nodes, gens, cache, cacheGens)
  {
    if NewerAgree(nodes, gens, cache, cacheGens) {
      forall more ensures Updated(nodes, gens, cache, cacheGens, more) == cache {
        AgreeingUpdated(nodes, gens, cache, cacheGens, more);
      }
    } else {
      var n :| n in nodes && n in cache && Kept(gens, cacheGens, {}, n) && nodes[n] != cache[n];
      assert Updated(nodes, gens, cache, cacheGens, {})[n] == nodes[n];
    }
  }

  /** A kept node is one the cache has not touched since, so copying the rest copies everything. */
  lemma UpdateCatchesUp(base: Cluster, gens: Generations, cache: Cluster, cacheGens: Generations, clock: nat,
                        more: set<NodeName>)
    requires InStep(base, gens, cache, cacheGens, clock)
    ensures Updated(base, gens, cache, cacheGens, more) == cache
    ensures InStep(cache, UpdatedGenerations(base, gens, cache, cacheGens, more), cache, cacheGens, clock)
  {}

  /** An update that fails leaves nothing in the snapshot newer than the cache. */
  lemma PartStaysInStep(base: Cluster, gens: Generations, cache: Cluster, cacheGens: Generations, clock: nat,
                        more: set<NodeName>, reach: Reach)
    requires reach.Part? && InStep(base, gens, cache, cacheGens, clock)
    ensures InStep(PartUpdated(base, gens, cache, cacheGens, more, reach),
                   PartUpdatedGenerations(base, gens, cache, cacheGens, more, reach), cache, cacheGens, clock)
  {
    var nodes := PartUpdated(base, gens, cache, cacheGens, more, reach);
    var after := PartUpdatedGenerations(base, gens, cache, cacheGens, more, reach);
    forall n | n in after && n in cacheGens && after[n] >= cacheGens[n] ensures nodes[n] == cache[n] {
      assert n in gens ==> gens[n] <= clock;
    }
  }

  lemma PartStaysUniform(base: Cluster, gens: Generations, cache: Cluster, cacheGens: Generations, more: set<NodeName>,
                         reach: Reach, content: string -> nat)
    requires reach.Part? && Uniform(base, content) && Uniform(cache, content)
    ensures Uniform(PartUpdated(base, gens, cache, cacheGens, more, reach), content)
  {
    var nodes := PartUpdated(base, gens, cache, cacheGens, more, reach);
    forall n, v: PodVal | n in nodes && v in nodes[n] ensures v.request == content(v.uid) {
      assert (n in base && nodes[n] == base[n]) || (n in cache && nodes[n] == cache[n]);
    }
  }

  lemma RefreshedTracks(s: Site, nodes: Cluster, gens: Generations, content: string -> nat)
    requires Tracks(s, content) && s.world.core.tx.NoTx?
    requires InStep(nodes, gens, s.cache, s.cacheGens, s.clock) && Uniform(nodes, content)
    ensures Tracks(Refreshed(s, Reset(s.world.core).0, nodes, gens), content)
  {}

  /** A snapshot with other nodes and nothing to undo; the preemption version is raised if there was something. */
  ghost function Emptied(s: Core, nodes: Cluster): Core {
    s.(cluster := nodes, log := [], version := s.version + if s.log == [] then 0 else 1)
  }

  /** What a sync leaves when its update fails: the cache's view of the nodes it got to, and of the others what was
      there at the last sync. */
  ghost predicate HalfWay(nodes: Cluster, base: Cluster, cache: Cluster, done: set<NodeName>) {
    && (forall n :: n in cache && n in done ==> n in nodes && nodes[n] == cache[n])
    && (forall n :: n in nodes && !(n in cache && n in done) ==> n in base && nodes[n] == base[n])
    && (forall n :: n in base && n in cache ==> n in nodes)
  }

  lemma PartIsHalfWay(base: Cluster, gens: Generations, cache: Cluster, cacheGens: Generations, clock: nat,
                      more: set<NodeName>, reach: Reach)
    requires reach.Part? && InStep(base, gens, cache, cacheGens, clock)
    ensures HalfWay(PartUpdated(base, gens, cache, cacheGens, more, reach), base, cache, reach.done)
  {}

  /** After the sync the snapshot is the whole cache view, whatever the update took the trouble to copy. If
      the update fails, all mutations are undone all the same. */
  lemma SyncCatchesUp(s: Site, more: set<NodeName>, reach: Reach, content: string -> nat)
    requires Tracks(s, content)
    ensures var (t, r) := Synced(s, more, reach);
      && Tracks(t, content)
      && (r.Ok? <==> s.world.core.tx.NoTx? && reach.Whole?)
      && (r.Ok? ==> t.world.core.cluster == s.cache)
      && (s.world.core.tx.NoTx? ==> t.world == s.world.(core := Emptied(s.world.core, t.world.core.cluster)))
      && (s.world.core.tx.NoTx? && r.Err? ==>
            r == Err(UpdateFailed) && HalfWay(t.world.core.cluster, s.base, s.cache, reach.done))
      && (s.world.core.tx.Open? ==> t == s && r == Err(InTransaction))
  {
    if s.world.core.tx.NoTx? {
      assert Reset(s.world.core).0.cluster == s.base;
      if reach.Whole? {
        UpdateCatchesUp(s.base, s.gens, s.cache, s.cacheGens, s.clock, more);
        RefreshedTracks(s, s.cache, UpdatedGenerations(s.base, s.gens, s.cache, s.cacheGens, more), content);
      } else {
        PartStaysInStep(s.base, s.gens, s.cache, s.cacheGens, s.clock, more, reach);
        PartStaysUniform(s.base, s.gens, s.cache, s.cacheGens, more, reach, content);
        PartIsHalfWay(s.base, s.gens, s.cache, s.cacheGens, s.clock, more, reach);
        RefreshedTracks(s, PartUpdated(s.base, s.gens, s.cache, s.cacheGens, more, reach),
                        PartUpdatedGenerations(s.base, s.gens, s.cache, s.cacheGens, more, reach), content);
      }
    }
  }

  lemma CacheSetTracks(s: Site, n: NodeName, pods: multiset<PodVal>, content: string -> nat)
    requires Tracks(s, content) && Orderly(s, CacheSet(n, pods), content)
    ensures Tracks(Happens(s, CacheSet(n, pods)), content)
  {}

  lemma HappensTracks(s: Site, e: Event, content: string -> nat)
    requires Tracks(s, content) && Orderly(s, e, content)
    ensures Tracks(Happens(s, e), content)
  {
    match e
    case CacheSet(n, pods) => CacheSetTracks(s, n, pods, content);
    case CacheDrop(_) =>
    case Simulate(call) => ExecSound(s.world, call, s.base, content);
    case Sync(more, reach) => SyncCatchesUp(s, more, reach, content);
  }

  ghost function History(s: Site, events: seq<Event>): (t: Site)
    requires s.cache.Keys == s.cacheGens.Keys
    ensures t.cache.Keys == t.cacheGens.Keys
  {
    if events == [] then s else Happens(History(s, events[..|events| - 1]), events[|events| - 1])
  }

  ghost predicate OrderlyHistory(s: Site, events: seq<Event>, content: string -> nat)
    requires s.cache.Keys == s.cacheGens.Keys
  {
    events == [] || (
      && OrderlyHistory(s, events[..|events| - 1], content)
      && Orderly(History(s, events[..|events| - 1]), events[|events| - 1], content))
  }

  lemma {:induction false} HistoryTracks(s: Site, events: seq<Event>, content: string -> nat)
    requires Tracks(s, content) && OrderlyHistory(s, events, content)
    ensures Tracks(History(s, events), content)
  {
    if events != [] {
      HistoryTracks(s, events[..|events| - 1], content);
      HappensTracks(History(s, events[..|events| - 1]), events[|events| - 1], content);
    }
  }

  /** Start of everything: an empty snapshot that has never been synchronised, and any cache. */
  ghost predicate Starting(s: Site, content: string -> nat) {
    && Fresh(s.world, map[], content) && s.base == map[] && s.gens == map[]
    && s.cache.Keys == s.cacheGens.Keys && Uniform(s.cache, content)
    && forall n :: n in s.cacheGens ==> s.cacheGens[n] <= s.clock
  }

  /** After any interleaving of cache updates, simulated calls and syncs, failed ones included, a sync outside
      a transaction makes the snapshot equal to the whole cache view, as copying every node would, with nothing
      left to undo. If its own update fails, all mutations are undone and the nodes it got to are the
      cache's; in a transaction nothing changes. */
  lemma SyncEqualsRebuild(s: Site, events: seq<Event>, more: set<NodeName>, reach: Reach, content: string -> nat)
    requires Starting(s, content) && OrderlyHistory(s, events, content)
    ensures var t := History(s, events);
      var (u, r) := Synced(t, more, reach);
      && (r.Ok? <==> t.world.core.tx.NoTx? && reach.Whole?)
      && (r.Ok? ==> u.world == t.world.(core := Emptied(t.world.core, t.cache)) && u.cache == t.cache)
      && (t.world.core.tx.NoTx? && r.Err? ==>
            && r == Err(UpdateFailed) && u.world == t.world.(core := Emptied(t.world.core, u.world.core.cluster))
            && HalfWay(u.world.core.cluster, t.base, t.cache, reach.done))
      && (t.world.core.tx.Open? ==> u == t && r == Err(InTransaction))
  {
    HistoryTracks(s, events, content);
    SyncCatchesUp(History(s, events), more, reach, content);
  }

  /** A sync to the end leaves the whole cache view. */
  ghost predicate SyncCatches(t: Site, more: set<NodeName>)
    requires t.cache.Keys == t.cacheGens.Keys
  {
    Synced(t, more, Whole).0.world.core.cluster == t.cache
  }

  lemma SyncIsUpdate(t: Site, more: set<NodeName>)
    requires t.cache.Keys == t.cacheGens.Keys && t.world.core.tx.NoTx?
    ensures SyncCatches(t, more) <==>
            Updated(Reset(t.world.core).0.cluster, t.gens, t.cache, t.cacheGens, more) == t.cache
  {}

  lemma ResetGivesBase(t: Site, content: string -> nat)
    requires Tracks(t, content) && t.world.core.tx.NoTx?
    ensures Reset(t.world.core).0.cluster == t.base
  {}

  ghost predicate AlwaysCatches(t: Site)
    requires t.cache.Keys == t.cacheGens.Keys
  {
    forall more :: SyncCatches(t, more)
  }

  ghost function WithRaised(t: Site, n: NodeName, g: nat): (r: Site)
    ensures r.cache == t.cache && r.cacheGens == t.cacheGens && r.base == t.base && r.world == t.world
  {
    t.(gens := t.gens[n := g])
  }

  /** The cache changed the pods of node `n` since the last sync, and its generation is not above `g`. */
  ghost predicate Hidden(t: Site, n: NodeName, g: nat) {
    n in t.cache && n in t.cacheGens && n in t.base && t.cache[n] != t.base[n] && t.cacheGens[n] <= g
  }

  /** Why simulated changes have to leave the generations alone. Had anything raised the generation of a
      node in the snapshot, after any history, then the next sync would still give the cache view, whatever
      it copies beyond what it must, exactly unless that hides a change of the cache. */
  lemma RaisedGenerationGoesStale(s: Site, events: seq<Event>, n: NodeName, g: nat, content: string -> nat)
    requires Starting(s, content) && OrderlyHistory(s, events, content)
    requires var t := History(s, events); t.world.core.tx.NoTx? && n in t.gens && t.gens[n] <= g
    ensures AlwaysCatches(WithRaised(History(s, events), n, g)) <==> !Hidden(History(s, events), n, g)
  {
    HistoryTracks(s, events, content);
    RaisedExactly(History(s, events), n, g, content);
  }

  lemma RaisedExactly(t: Site, n: NodeName, g: nat, content: string -> nat)
    requires Tracks(t, content) && t.world.core.tx.NoTx? && n in t.gens && t.gens[n] <= g
    ensures AlwaysCatches(WithRaised(t, n, g)) <==> !Hidden(t, n, g)
  {
    var raised := WithRaised(t, n, g);
    ResetGivesBase(t, content);
    forall more
      ensures SyncCatches(raised, more) <==> Updated(t.base, raised.gens, t.cache, t.cacheGens, more) == t.cache
    {
      SyncIsUpdate(raised, more);
    }
    UpdateExact(t.base, raised.gens, t.cache, t.cacheGens);
    RaisedAgree(t.base, t.gens, t.cache, t.cacheGens, t.clock, n, g);
  }

  lemma RaisedAgree(base: Cluster, gens: Generations, cache: Cluster, cacheGens: Generations, clock: nat, n: NodeName,
                    g: nat)
    requires InStep(base, gens, cache, cacheGens, clock) && n in gens && gens[n] <= g
    ensures NewerAgree(base, gens[n := g], cache, cacheGens) <==>
        (n in cache && cache[n] != base[n] ==> g < cacheGens[n])
  {
    var raised := gens[n := g];
    forall m | m in base && m in cache && m != n && Kept(raised, cacheGens, {}, m) ensures base[m] == cache[m] {
      assert gens[m] >= cacheGens[m];
    }
    if n in cache && cache[n] != base[n] && g >= cacheGens[n] {
      assert Kept(raised, cacheGens, {}, n);
    }
  }

  // ---- The objects ----

  lemma MixedStep<V>(before: map<NodeName, V>, cached: map<NodeName, V>, kept: set<NodeName>, done: set<NodeName>,
                     n: NodeName)
    requires kept <= before.Keys && done <= cached.Keys && n in cached && n !in done
    ensures var now := Mixed(before, cached, kept, done);
      && (n in now <==> n in before) && (n in before ==> now[n] == before[n])
      && Mixed(before, cached, kept, done + {n}) == if n in kept then now else now[n := cached[n]]
  {}

  lemma NothingMixed<V>(before: map<NodeName, V>, cached: map<NodeName, V>, kept: set<NodeName>)
    requires kept <= before.Keys
    ensures Mixed(before, cached, kept, {}) == before
  {}

  function Restricted<V>(m: map<NodeName, V>, names: set<NodeName>): map<NodeName, V> {
    map n | n in m && n in names :: m[n]
  }

  lemma AllMixed(nodes: Cluster, gens: Generations, cache: Cluster, cacheGens: Generations, more: set<NodeName>)
    requires nodes.Keys == gens.Keys && cache.Keys == cacheGens.Keys
    ensures var kept := KeptNodes(nodes, gens, cacheGens, more);
      && Restricted(Mixed(nodes, cache, kept, cache.Keys), cache.Keys) == Updated(nodes, gens, cache, cacheGens, more)
      && Restricted(Mixed(gens, cacheGens, kept, cache.Keys), cache.Keys)
         == UpdatedGenerations(nodes, gens, cache, cacheGens, more)
  {}

  /** The scheduler cache. */
  class Cache {
    var nodes: Cluster
    var generations: Generations

    ghost predicate Valid()
      reads this
    {
      nodes.Keys == generations.Keys
    }

    constructor (nodes: Cluster, generations: Generations)
      requires nodes.Keys == generations.Keys
      ensures Valid() && this.nodes == nodes && this.generations == generations
    {
      this.nodes, this.generations := nodes, generations;
    }

    /** Copies one node unless the snapshot has it and finds it at least as new. */
    method UpdateNode(store: SchedulerSnapshot, n: NodeName, more: set<NodeName>)
      requires Valid() && store.Valid() && n in nodes
      modifies store
      ensures Valid() && store.Valid()
      ensures var keep := n in old(store.nodes) && Kept(old(store.generations), generations, more, n);
        && store.nodes == (if keep then old(store.nodes) else old(store.nodes)[n := nodes[n]])
        && store.generations == (if keep then old(store.generations) else old(store.generations)[n := generations[n]])
    {
      if n !in store.nodes || store.generations[n] < generations[n] || n in more {
        store.nodes := store.nodes[n := nodes[n]];
        store.generations := store.generations[n := generations[n]];
      }
    }

    /** Drops the nodes the cache does not have. */
    method DropUnknown(store: SchedulerSnapshot)
      requires Valid() && store.Valid()
      modifies store
      ensures Valid() && store.Valid()
      ensures store.nodes == Restricted(old(store.nodes), nodes.Keys)
      ensures store.generations == Restricted(old(store.generations), nodes.Keys)
    {
      store.nodes := Restricted(store.nodes, nodes.Keys);
      store.generations := Restricted(store.generations, nodes.Keys);
    }

    /** Drops the given nodes as far as the cache does not have them. */
    method DropSome(store: SchedulerSnapshot, dropped: set<NodeName>)
      requires Valid() && store.Valid()
      modifies store
      ensures Valid() && store.Valid()
      ensures store.nodes == old(store.nodes) - (dropped - nodes.Keys)
      ensures store.generations == old(store.generations) - (dropped - nodes.Keys)
    {
      store.nodes := store.nodes - (dropped - nodes.Keys);
      store.generations := store.generations - (dropped - nodes.Keys);
    }

    /** Copies what changed among the given nodes, one by one in any order. */
    method UpdateNodes(store: SchedulerSnapshot, more: set<NodeName>, goal: set<NodeName>)
      requires Valid() && store.Valid() && goal <= nodes.Keys
      modifies store
      ensures Valid() && store.Valid()
      ensures var kept := KeptNodes(old(store.nodes), old(store.generations), generations, more);
        && store.nodes == Mixed(old(store.nodes), nodes, kept, goal)
        && store.generations == Mixed(old(store.generations), generations, kept, goal)
    {
      var done: set<NodeName> := {};
      ghost var was, gens := store.nodes, store.generations;
      ghost var kept := KeptNodes(was, gens, generations, more);
      NothingMixed(was, nodes, kept);
      NothingMixed(gens, generations, kept);
      while goal - done != {}
        invariant Valid() && store.Valid() && done <= goal
        invariant store.nodes == Mixed(was, nodes, kept, done)
        invariant store.generations == Mixed(gens, generations, kept, done)
        decreases goal - done
      {
        var n :| n in goal - done;
        MixedStep(was, nodes, kept, done, n);
        MixedStep(gens, generations, kept, done, n);
        UpdateNode(store, n, more);
        done := done + {n};
      }
      assert done == goal;
    }

    /** Copies what changed, then drops the rest, unless it fails on the way. */
    method UpdateSnapshot(store: SchedulerSnapshot, more: set<NodeName>, reach: Reach) returns (ok: bool)
      requires Valid() && store.Valid()
      modifies store
      ensures Valid() && store.Valid() && (ok <==> reach.Whole?)
      ensures ok ==>
        && store.nodes == Updated(old(store.nodes), old(store.generations), nodes, generations, more)
        && store.generations == UpdatedGenerations(old(store.nodes), old(store.generations), nodes, generations, more)
      ensures !ok ==>
        && store.nodes == PartUpdated(old(store.nodes), old(store.generations), nodes, generations, more, reach)
        && store.generations == PartUpdatedGenerations(old(store.nodes), old(store.generations), nodes, generations,
            more, reach)
    {
      AllMixed(store.nodes, store.generations, nodes, generations, more);
      UpdateNodes(store, more, if reach.Whole? then nodes.Keys else reach.done * nodes.Keys);
      ok := reach.Whole?;
      if ok {
        DropUnknown(store);
      } else {
        DropSome(store, reach.dropped);
      }
    }
  }

  class ClusterState {
    const cache: Cache
    const snapshot: ClusterSnapshot

    constructor (cache: Cache, snapshot: ClusterSnapshot)
      ensures this.cache == cache && this.snapshot == snapshot
    {
      this.cache, this.snapshot := cache, snapshot;
    }

    method SyncSnapshot(more: set<NodeName>, reach: Reach, ghost world: set<Pod>) returns (r: Result<()>)
      requires cache.Valid() && snapshot.Valid(world)
      modifies snapshot, snapshot.store, snapshot.undoLog
      ensures snapshot.Valid(world) && unchanged(cache)
      ensures r.Ok? <==> Reset(old(snapshot.View(world))).1.Ok? && reach.Whole?
      ensures Reset(old(snapshot.View(world))).1.Err? ==>
        && r == Reset(old(snapshot.View(world))).1
        && snapshot.View(world) == old(snapshot.View(world))
            && snapshot.store.generations == old(snapshot.store.generations)
      ensures r.Ok? ==>
        var t, gens := Reset(old(snapshot.View(world))).0, old(snapshot.store.generations);
        && snapshot.View(world) == t.(cluster := Updated(t.cluster, gens, cache.nodes, cache.generations, more))
        && snapshot.store.generations == UpdatedGenerations(t.cluster, gens, cache.nodes, cache.generations, more)
      ensures Reset(old(snapshot.View(world))).1.Ok? && r.Err? ==>
        var t, gens := Reset(old(snapshot.View(world))).0, old(snapshot.store.generations);
        && r == Err(UpdateFailed)
        && snapshot.View(world) == t.(cluster := PartUpdated(t.cluster, gens, cache.nodes, cache.generations, more,
            reach))
        && snapshot.store.generations == PartUpdatedGenerations(t.cluster, gens, cache.nodes, cache.generations, more,
            reach)
    {
      r := snapshot.ResetMutations(world);
      if r.Ok? {
        var ok := cache.UpdateSnapshot(snapshot.store, more, reach);
        if !ok {
          r := Err(UpdateFailed);
        }
      }
    }
  }
}
