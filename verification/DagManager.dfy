/** The DAG manager, changed in place.  Each call is shown to be a run of the lock sections of
    `Layers`, so what holds of every interleaving holds of it. */
module DagManagerClass {
  import opened Types
  import opened DagModel
  import opened RecentCache
  import opened Layers
  import DagClass
  import CacheFill
  import opened Frontier
  import opened LayersTheorems

  datatype AddOutcome = Done(id: EventId) | Refused(error: AddError)
  datatype Resolution = Resolved(found: seq<ParentInfo>, depth: nat) | Unresolved(error: AddError)

  lemma RunOneMore(n: Node, steps: seq<Step>, step: Step)
    ensures Run(n, steps + [step]) == Next(Run(n, steps), step)
  {
    RunThen(n, steps, [step]);
    RunOne(Run(n, steps), step);
  }

  /** A node whose only call in progress is the adder `a`. */
  ghost function With(n: Node, a: Adder): Node { n.(adders := map[0 := a]) }

  ghost function WithJob(n: Node, j: Job): Node { n.(jobs := map[0 := j]) }

  lemma DagSection(n: Node, a: Adder)
    requires WantsParent(a, AtDag)
    ensures Next(With(n, a), AskDag(0)) == With(n, DagAnswer(n, a))
  {
    assert map[0 := a][0 := DagAnswer(n, a)] == map[0 := DagAnswer(n, a)];
  }

  lemma CacheSection(n: Node, a: Adder)
    requires WantsParent(a, AtCache)
    ensures Next(With(n, a), AskCache(0)) == With(n.(cache := AfterGet(n.cache, Wanted(a))), CacheAnswer(n, a))
  {
    assert map[0 := a][0 := CacheAnswer(n, a)] == map[0 := CacheAnswer(n, a)];
  }

  lemma StoreSection(n: Node, a: Adder)
    requires WantsParent(a, AtStore)
    ensures Next(With(n, a), AskStore(0)) == With(n, StoreAnswer(n, a))
  {
    assert map[0 := a][0 := StoreAnswer(n, a)] == map[0 := StoreAnswer(n, a)];
  }

  lemma MeasureSection(n: Node, a: Adder)
    requires FullyFound(a)
    ensures var b := Measured(a.s, a.found, RawDepth(n.dag, a.found));
            Next(With(n, a), Measure(0)) == With(n, b) && Next(With(n, b), ApplyFloor(0)) == With(n, FloorAnswer(n, b))
  {
    var b := Measured(a.s, a.found, RawDepth(n.dag, a.found));
    assert map[0 := a][0 := b] == map[0 := b];
    assert map[0 := b][0 := FloorAnswer(n, b)] == map[0 := FloorAnswer(n, b)];
  }

  lemma WriteSection(n: Node, a: Adder)
    requires a.Ready? && |a.found| == |a.s.event.parents|
    ensures Next(With(n, a), Write(0)) ==
            match WriteError(n, a)
            case Some(e) => With(n, Failing(e))
            case None => With(Written(n, 0, a), Added)
  {
    var w := With(n, a);
    assert WriteError(w, a) == WriteError(n, a);
    if WriteError(n, a).Some? {
      assert w.adders[0 := Failing(WriteError(n, a).value)] == map[0 := Failing(WriteError(n, a).value)];
    } else {
      assert w.adders[0 := Added] == map[0 := Added];
    }
  }

  // ---- What the layers answer, seen from the caller ----

  /** Every parent is answered by some layer. */
  ghost predicate AllAnswered(n: Node, parents: seq<EventId>) { forall p | p in parents :: Lookup(n, p).Some? }

  /** Parent `i` is the first that no layer has. */
  ghost predicate FirstUnknown(n: Node, parents: seq<EventId>, i: int) {
    0 <= i < |parents| && Lookup(n, parents[i]).None? && forall j | 0 <= j < i :: Lookup(n, parents[j]).Some?
  }

  /** What was found, place by place: from the DAG exactly if the DAG has it, at the depth the layers give. */
  ghost predicate FoundFits(n: Node, parents: seq<EventId>, found: seq<ParentInfo>) {
    && |found| <= |parents|
    && forall i | 0 <= i < |found| ::
         (found[i].InDag? <==> parents[i] in n.dag.depths) && Lookup(n, parents[i]) == Some(found[i].depth)
  }

  /** The depth at which an event enters: not above the floor; one below its deepest parent unless the floor is
      lower still; without parents one below the deepest event, or on top of an empty DAG. */
  ghost predicate EntersAt(n: Node, parents: seq<EventId>, depth: nat) {
    if parents == []
    then depth == Max(n.floor, if n.dag.events == map[] && n.dag.maxDepth == 0 then 0 else n.dag.maxDepth + 1)
    else && n.floor <= depth && (forall p | p in parents :: Lookup(n, p).Some? && Lookup(n, p).value < depth)
         && (depth == n.floor || exists p | p in parents :: Lookup(n, p).Some? && Lookup(n, p).value + 1 == depth)
  }

  /** Parent `i` is the first that has left the DAG and lies too far below `depth`. */
  ghost predicate FirstTooFar(n: Node, parents: seq<EventId>, depth: nat, i: int) {
    && 0 <= i < |parents| && TooFar(n, parents[i], depth)
    && forall j | 0 <= j < i :: !TooFar(n, parents[j], depth)
  }

  ghost predicate TooFar(n: Node, p: EventId, depth: nat) {
    p !in n.dag.depths && Lookup(n, p).Some? && Lookup(n, p).value + n.cfg.maxCrossDepth < depth
  }

  lemma EntryDepth(n: Node, parents: seq<EventId>, found: seq<ParentInfo>, depth: nat)
    requires FoundFits(n, parents, found) && |found| == |parents| && depth == Max(RawDepth(n.dag, found), n.floor)
    ensures EntersAt(n, parents, depth)
  {
    if parents != [] {
      var k := DeepestIs(found);
      assert parents[k] in parents;
      forall p | p in parents ensures Lookup(n, p).Some? && Lookup(n, p).value < depth {
        var i :| 0 <= i < |parents| && parents[i] == p;
        assert found[i].depth <= DeepestFound(found);
      }
    }
  }

  lemma {:induction false} DeepestIs(found: seq<ParentInfo>) returns (k: nat)
    requires found != []
    ensures k < |found| && found[k].depth == DeepestFound(found)
    decreases |found|
  {
    if |found| == 1 || found[0].depth >= DeepestFound(found[1..]) {
      k := 0;
    } else {
      k := DeepestIs(found[1..]);
      k := k + 1;
    }
  }

  lemma TooFarIs(n: Node, parents: seq<EventId>, found: seq<ParentInfo>, depth: nat)
    requires FoundFits(n, parents, found) && |found| == |parents|
    ensures forall i | 0 <= i < |parents| :: TooOldAt(n.cfg, found, depth, i) <==> TooFar(n, parents[i], depth)
  {
  }

  /** `r` is what resolving the parents must end with. */
  ghost predicate ResolvesTo(n: Node, parents: seq<EventId>, r: Resolution) {
    if AllAnswered(n, parents)
    then exists depth :: EntersAt(n, parents, depth)
           && (if exists i :: FirstTooFar(n, parents, depth, i)
               then exists i :: FirstTooFar(n, parents, depth, i) && r == Unresolved(ParentTooOld(parents[i]))
               else r.Resolved? && r.depth == depth && FoundFits(n, parents, r.found) && |r.found| == |parents|)
    else exists i :: FirstUnknown(n, parents, i) && r == Unresolved(MissingParent(parents[i]))
  }

  lemma FloorResolves(n: Node, parents: seq<EventId>, found: seq<ParentInfo>, depth: nat, r: Resolution)
    requires FoundFits(n, parents, found) && |found| == |parents| && EntersAt(n, parents, depth)
    requires var tooOld := FirstTooOld(n.cfg, parents, found, depth);
             r == if tooOld.Some? then Unresolved(ParentTooOld(tooOld.value)) else Resolved(found, depth)
    ensures ResolvesTo(n, parents, r)
  {
    FirstTooOldIs(n.cfg, parents, found, depth);
    TooFarIs(n, parents, found, depth);
    assert AllAnswered(n, parents);
    if r.Unresolved? {
      var i :| TooOldAt(n.cfg, found, depth, i) && parents[i] == r.error.tooOld
               && forall j | 0 <= j < i :: !TooOldAt(n.cfg, found, depth, j);
      assert FirstTooFar(n, parents, depth, i);
    } else {
      forall i ensures !FirstTooFar(n, parents, depth, i) { assert !TooOldAt(n.cfg, found, depth, i); }
    }
  }

  /** Two nodes whose layers answer alike resolve alike. */
  ghost predicate AnswerAlike(n: Node, m: Node) {
    m.dag == n.dag && m.floor == n.floor && m.cfg == n.cfg && forall x :: Lookup(m, x) == Lookup(n, x)
  }

  lemma GetAnswersAlike(n: Node, id: EventId)
    requires Unique(n.cache)
    ensures AnswerAlike(n, n.(cache := AfterGet(n.cache, id)))
  {
    var m := n.(cache := AfterGet(n.cache, id));
    forall x ensures Lookup(m, x) == Lookup(n, x) { GetKeepsFound(n.cache, id, x); }
  }

  lemma AlikeAgain(n: Node, m: Node, k: Node)
    requires AnswerAlike(n, m) && AnswerAlike(m, k)
    ensures AnswerAlike(n, k)
  {
  }

  lemma OneMoreFits(n: Node, m: Node, parents: seq<EventId>, found: seq<ParentInfo>, info: ParentInfo)
    requires FoundFits(n, parents, found) && |found| < |parents| && AnswerAlike(n, m)
    requires Lookup(m, parents[|found|]) == Some(info.depth) && (info.InDag? <==> parents[|found|] in m.dag.depths)
    ensures FoundFits(n, parents, found + [info])
  {
  }

  lemma UnknownAt(n: Node, m: Node, parents: seq<EventId>, found: seq<ParentInfo>)
    requires FoundFits(n, parents, found) && |found| < |parents| && AnswerAlike(n, m)
    requires Lookup(m, parents[|found|]).None?
    ensures FirstUnknown(n, parents, |found|)
  {
  }

  class DagManager {
    const cfg: Settings
    const dag: DagClass.Dag
    const cache: RecentEventCache
    var store: map<EventId, nat>
    var minDepth: nat
    ghost var born: map<EventId, Birth>
    ghost var awaiting: set<EventId>

    ghost predicate Valid()
      reads this, dag, cache
    {
      dag.Valid() && cache.Valid() && cache.capacity == cfg.capacity
    }

    ghost function View(): Node
      reads this, dag, cache
    {
      Node(cfg, dag.State(), cache.lines, store, minDepth, map[], map[], born, awaiting)
    }

    constructor (cfg: Settings, dag: DagClass.Dag)
      requires cfg.capacity > 0 && dag.Valid() && dag.State() == EMPTY
      ensures Valid() && this.dag == dag && fresh(cache) && View() == Start(cfg)
    {
      this.cfg, this.dag := cfg, dag;
      cache := new RecentEventCache(cfg.capacity);
      store, minDepth, born, awaiting := map[], 0, map[], {};
    }

    /** All layers are asked; none changes. */
    method Exists(id: EventId) returns (r: bool)
      ensures r <==> LayersTheorems.Exists(View(), id)
    {
      if id in dag.events { return true; }
      if Find(cache.lines, id).Some? { return true; }
      r := cfg.diskFallback && id in store;
    }

    method QueryParent(id: EventId, ghost a: Adder) returns (r: Option<ParentInfo>, ghost steps: seq<Step>)
      requires Valid() && WantsParent(a, AtDag) && Wanted(a) == id
      modifies cache
      ensures Valid()
      ensures (if r.Some? then Some(r.value.depth) else None) == LayersTheorems.Lookup(old(View()), id)
      ensures r.Some? ==> (r.value.InDag? <==> id in old(View()).dag.depths)
      ensures AnswerAlike(old(View()), View())
      ensures Run(old(With(View(), a)), steps) ==
              With(View(), if r.Some? then Found(a, r.value) else Failing(MissingParent(id)))
    {
      ghost var n := View();
      steps := [AskDag(0)];
      DagSection(n, a);
      RunOneMore(With(n, a), [], AskDag(0));
      assert [] + [AskDag(0)] == steps;
      if id in dag.depths { return Some(InDag(dag.depths[id])), steps; }
      ghost var b := DagAnswer(n, a);
      CacheSection(n, b);
      RunOneMore(With(n, a), steps, AskCache(0));
      steps := steps + [AskCache(0)];
      GetAnswersAlike(n, id);
      var meta := cache.Get(id);
      if meta.Some? { return Some(InCache(meta.value.depth, meta.value.anchor)), steps; }
      if !cfg.diskFallback { return None, steps; }
      ghost var c := CacheAnswer(n, b);
      StoreSection(View(), c);
      RunOneMore(With(n, a), steps, AskStore(0));
      steps := steps + [AskStore(0)];
      r := if id in store then Some(InStore(store[id])) else None;
    }

    /** Asks for every parent in turn. */
    method FindParents(s: Stored) returns (r: Resolution, ghost steps: seq<Step>)
      requires Valid()
      modifies cache
      ensures Valid()
      ensures r.Resolved? ==> |r.found| == |s.event.parents|
      ensures Run(old(With(View(), Asking(s, [], AtDag, false))), steps) ==
              With(View(), if r.Resolved? then Asking(s, r.found, AtDag, false) else Failing(r.error))
      ensures r.Resolved? ==> r.depth == DeepestFound(r.found) && FoundFits(old(View()), s.event.parents, r.found)
      ensures r.Unresolved? ==> exists i :: FirstUnknown(old(View()), s.event.parents, i)
                                            && r.error == MissingParent(s.event.parents[i])
      ensures AnswerAlike(old(View()), View())
    {
      ghost var start := With(View(), Asking(s, [], AtDag, false));
      var found, deepest := [], 0;
      steps := [];
      for i := 0 to |s.event.parents|
        invariant Valid() && |found| == i && deepest == DeepestFound(found)
        invariant Run(start, steps) == With(View(), Asking(s, found, AtDag, false))
        invariant FoundFits(old(View()), s.event.parents, found) && AnswerAlike(old(View()), View())
      {
        ghost var a, n := Asking(s, found, AtDag, false), View();
        var info, more := QueryParent(s.event.parents[i], a);
        RunThen(start, steps, more);
        steps := steps + more;
        AlikeAgain(old(View()), n, View());
        if info.None? {
          UnknownAt(old(View()), n, s.event.parents, found);
          return Unresolved(MissingParent(s.event.parents[i])), steps;
        }
        DeepestOneMore(found, info.value);
        OneMoreFits(old(View()), n, s.event.parents, found, info.value);
        deepest := if deepest < info.value.depth then info.value.depth else deepest;
        found := found + [info.value];
      }
      r := Resolved(found, deepest);
    }

    method ResolveParents(s: Stored) returns (r: Resolution, ghost steps: seq<Step>)
      requires Valid()
      modifies cache
      ensures Valid()
      ensures r.Resolved? ==> |r.found| == |s.event.parents|
      ensures Run(old(With(View(), Asking(s, [], AtDag, false))), steps) ==
              With(View(), if r.Resolved? then Ready(s, r.found, r.depth) else Failing(r.error))
      ensures ResolvesTo(old(View()), s.event.parents, r) && AnswerAlike(old(View()), View())
    {
      ghost var start := With(View(), Asking(s, [], AtDag, false));
      r, steps := FindParents(s);
      if r.Unresolved? {
        assert !AllAnswered(old(View()), s.event.parents);
        return;
      }
      var raw := if r.found != [] then r.depth + 1
                 else if dag.events == map[] && dag.maxDepth == 0 then 0 else dag.maxDepth + 1;
      ghost var a := Asking(s, r.found, AtDag, false);
      MeasureSection(View(), a);
      RunOneMore(start, steps, Measure(0));
      RunOneMore(start, steps + [Measure(0)], ApplyFloor(0));
      steps := steps + [Measure(0)] + [ApplyFloor(0)];
      var depth := Max(raw, minDepth);
      var tooOld := FirstTooOld(cfg, s.event.parents, r.found, depth);
      EntryDepth(old(View()), s.event.parents, r.found, depth);
      ghost var found := r.found;
      r := if tooOld.Some? then Unresolved(ParentTooOld(tooOld.value)) else Resolved(r.found, depth);
      FloorResolves(old(View()), s.event.parents, found, depth, r);
    }

    /** Resolve, then write. */
    method AddEvent(s: Stored) returns (r: AddOutcome, ghost steps: seq<Step>)
      requires Valid()
      modifies this, dag, cache
      ensures Valid()
      ensures Run(old(View()), steps) == With(View(), if r.Done? then Added else Failing(r.error))
      ensures steps != [] && steps[0] == StartAdd(0, s)
      ensures exists resolved :: ResolvesTo(old(View()), s.event.parents, resolved)
                && (r == if resolved.Unresolved? then Refused(resolved.error)
                         else if s.event.id in old(dag.State()).events then Refused(DuplicateEvent(s.event.id))
                         else Done(s.event.id))
                && dag.State() == (if r.Done? then Inserted(old(dag.State()), s, resolved.depth) else old(dag.State()))
    {
      ghost var n := View();
      var resolved, rest := ResolveParents(s);
      StartSection(n, s, rest);
      steps := [StartAdd(0, s)] + rest;
      if resolved.Unresolved? { return Refused(resolved.error), steps; }
      NoneGone(View().dag, s.event.parents, resolved.found);
      RunOneMore(n, steps, Write(0));
      steps := steps + [Write(0)];
      r := WriteResolved(s, resolved.found, resolved.depth);
    }

    /** The write section: the parents found in the DAG must still be there. */
    method WriteResolved(s: Stored, found: seq<ParentInfo>, depth: nat) returns (r: AddOutcome)
      requires Valid() && |found| == |s.event.parents|
      modifies this, dag
      ensures Valid() && View().cache == old(View()).cache && store == old(store) && minDepth == old(minDepth)
      ensures Next(old(With(View(), Ready(s, found, depth))), Write(0))
              == With(View(), if r.Done? then Added else Failing(r.error))
      ensures var gone := FirstGone(old(dag.State()).events.Keys, s.event.parents, found);
              r == if gone.Some? then Refused(ParentGCed(gone.value))
                   else if s.event.id in old(dag.State()).events then Refused(DuplicateEvent(s.event.id))
                   else Done(s.event.id)
      ensures dag.State() == (if r.Done? then Inserted(old(dag.State()), s, depth) else old(dag.State()))
    {
      WriteSection(View(), Ready(s, found, depth));
      var gone := FirstGone(dag.events.Keys, s.event.parents, found);
      if gone.Some? { return Refused(ParentGCed(gone.value)); }
      var added := dag.AddEventWithDepth(s, depth);
      if added.Err? { return Refused(DuplicateEvent(s.event.id)); }
      born := born[s.event.id := Birth(s.event, depth, FoundInDag(s.event.parents, found))];
      r := Done(s.event.id);
    }

    method UpdateMinDepth(depth: nat)
      modifies this`minDepth
      ensures old(minDepth) <= minDepth && depth <= minDepth && (minDepth == old(minDepth) || minDepth == depth)
      ensures View() == Next(old(View()), RaiseFloorTo(depth))
    {
      minDepth := Max(minDepth, depth);
    }

    method FillFromDag(anchor: Anchor, now: nat)
      requires Valid()
      modifies cache
      ensures Valid()
      ensures cache.lines == FilledFromDag(old(cache.lines), cfg.capacity, dag.State(), anchor, anchor.eventIds, now)
    {
      var ids := anchor.eventIds;
      for i := 0 to |ids|
        invariant Valid()
        invariant cache.lines == FilledFromDag(old(cache.lines), cfg.capacity, dag.State(), anchor, ids[..i], now)
      {
        assert ids[..i + 1][..i] == ids[..i];
        if ids[i] in dag.events {
          var evicted := cache.Put(ids[i], Meta(dag.depths[ids[i]], anchor.id, now, dag.events[ids[i]].event.parents));
        }
      }
      assert ids[..|ids|] == ids;
    }

    /** Called once the anchor is persisted: raise the floor, mark, fill the cache, sweep. */
    method OnAnchorFinalized(anchor: Anchor, now: nat) returns (removed: nat, retained: nat)
      requires Valid()
      modifies this, dag, cache
      ensures Valid()
      ensures WithJob(View(), Swept) == FourSections(old(View()), anchor, now)
      ensures removed == |GcSet(FinalizedIn(old(dag.State()), IdSet(anchor.eventIds)), IdSet(anchor.eventIds))|
      ensures retained == 0 <==> forall t | t in anchor.eventIds :: t !in dag.events
      ensures old(minDepth) <= minDepth && anchor.depth < minDepth
      ensures minDepth == old(minDepth) || minDepth == anchor.depth + 1
      ensures forall i | 0 <= i < |anchor.eventIds| && |anchor.eventIds| - i <= cfg.capacity ::
                var id, d := anchor.eventIds[i], old(dag.State());
                id in d.events ==>
                  Find(cache.lines, id) == Some(Meta(d.depths[id], anchor.id, now, d.events[id].event.parents))
    {
      CachesAnchor(View(), anchor, now);
      SectionsAre(View(), anchor, now);
      removed, retained := MarkFillSweep(anchor, now);
    }

    method MarkFillSweep(anchor: Anchor, now: nat) returns (removed: nat, retained: nat)
      requires Valid()
      modifies this, dag, cache
      ensures Valid() && View() == AfterSweep(old(View()), anchor, now)
      ensures removed == |GcSet(FinalizedIn(old(dag.State()), IdSet(anchor.eventIds)), IdSet(anchor.eventIds))|
      ensures retained == 0 <==> forall t | t in anchor.eventIds :: t !in dag.events
    {
      minDepth := Max(minDepth, anchor.depth + 1);
      dag.FinalizeEvents(anchor.eventIds);
      FillFromDag(anchor, now);
      removed, retained := dag.GcFinalizedEvents(anchor.eventIds);
      awaiting := awaiting + IdSet(anchor.eventIds) - IdSet(anchor.eventIds);
    }
  }

  lemma NoneGone(d: DagState, parents: seq<EventId>, found: seq<ParentInfo>)
    requires d.Consistent() && |found| == |parents|
    requires forall i | 0 <= i < |found| && found[i].InDag? :: parents[i] in d.depths
    ensures FirstGone(d.events.Keys, parents, found).None?
    decreases |found|
  {
    if found != [] { NoneGone(d, parents[1..], found[1..]); }
  }

  lemma CachesAnchor(n: Node, a: Anchor, now: nat)
    requires Unique(n.cache) && n.dag.Consistent()
    ensures forall i | 0 <= i < |a.eventIds| && |a.eventIds| - i <= n.cfg.capacity && a.eventIds[i] in n.dag.events ::
              var id := a.eventIds[i];
              Find(AfterSweep(n, a, now).cache, id)
              == Some(Meta(n.dag.depths[id], a.id, now, n.dag.events[id].event.parents))
  {
    forall i | 0 <= i < |a.eventIds| && |a.eventIds| - i <= n.cfg.capacity && a.eventIds[i] in n.dag.events
      ensures var id := a.eventIds[i];
              Find(AfterSweep(n, a, now).cache, id)
              == Some(Meta(n.dag.depths[id], a.id, now, n.dag.events[id].event.parents))
    {
      CacheFill.AnchorIsCached(n.cache, n.cfg.capacity, FinalizedIn(n.dag, IdSet(a.eventIds)), a, now, i);
    }
  }

  ghost function FourSections(n: Node, a: Anchor, now: nat): Node {
    Run(WithJob(n, Persisted(a)), [RaiseFloor(0), Flag(0), FillCache(0, now), Sweep(0)])
  }

  ghost function AfterSweep(n: Node, a: Anchor, now: nat): Node {
    var ids := IdSet(a.eventIds);
    var d := FinalizedIn(n.dag, ids);
    n.(floor := Max(n.floor, a.depth + 1), dag := Collected(d, ids), awaiting := n.awaiting + ids - ids,
       cache := FilledFromDag(n.cache, n.cfg.capacity, d, a, a.eventIds, now))
  }

  lemma FloorSection(n: Node, a: Anchor)
    ensures Next(WithJob(n, Persisted(a)), RaiseFloor(0)) == WithJob(n.(floor := Max(n.floor, a.depth + 1)), Floored(a))
  {
    assert map[0 := Persisted(a)][0 := Floored(a)] == map[0 := Floored(a)];
  }

  lemma FlagSection(n: Node, a: Anchor)
    ensures var ids := IdSet(a.eventIds);
            Next(WithJob(n, Floored(a)), Flag(0)) ==
            WithJob(n.(dag := FinalizedIn(n.dag, ids), awaiting := n.awaiting + ids), Flagged(a))
  {
    assert map[0 := Floored(a)][0 := Flagged(a)] == map[0 := Flagged(a)];
  }

  lemma FillSection(n: Node, a: Anchor, now: nat)
    ensures Next(WithJob(n, Flagged(a)), FillCache(0, now)) ==
            WithJob(n.(cache := FilledFromDag(n.cache, n.cfg.capacity, n.dag, a, a.eventIds, now)), Cached(a))
  {
    assert map[0 := Flagged(a)][0 := Cached(a)] == map[0 := Cached(a)];
  }

  lemma SweepSection(n: Node, a: Anchor)
    ensures var ids := IdSet(a.eventIds);
            Next(WithJob(n, Cached(a)), Sweep(0)) ==
            WithJob(n.(dag := Collected(n.dag, ids), awaiting := n.awaiting - ids), Swept)
  {
    assert map[0 := Cached(a)][0 := Swept] == map[0 := Swept];
  }

  lemma RunFour(n: Node, a: Step, b: Step, c: Step, d: Step)
    ensures Run(n, [a, b, c, d]) == Next(Next(Next(Next(n, a), b), c), d)
  {
    RunOneMore(n, [a, b, c], d);
    RunOneMore(n, [a, b], c);
    RunOneMore(n, [a], b);
    RunOneMore(n, [], a);
    assert [a, b, c, d] == [a, b, c] + [d];
    assert [a, b, c] == [a, b] + [c];
    assert [a, b] == [a] + [b];
    assert [a] == [] + [a];
  }

  lemma SectionsAre(n: Node, a: Anchor, now: nat)
    ensures FourSections(n, a, now) == WithJob(AfterSweep(n, a, now), Swept)
  {
    RunFour(WithJob(n, Persisted(a)), RaiseFloor(0), Flag(0), FillCache(0, now), Sweep(0));
    FloorSection(n, a);
    var n1 := n.(floor := Max(n.floor, a.depth + 1));
    FlagSection(n1, a);
    var n2 := n1.(dag := FinalizedIn(n1.dag, IdSet(a.eventIds)), awaiting := n1.awaiting + IdSet(a.eventIds));
    FillSection(n2, a, now);
    SweepSection(n2.(cache := FilledFromDag(n2.cache, n2.cfg.capacity, n2.dag, a, a.eventIds, now)), a);
  }

  lemma {:induction false} DeepestOneMore(found: seq<ParentInfo>, info: ParentInfo)
    ensures DeepestFound(found + [info]) == Max(DeepestFound(found), info.depth)
    decreases |found|
  {
    if found == [] {
      assert [info][1..] == [];
    } else {
      DeepestOneMore(found[1..], info);
      assert (found + [info])[1..] == found[1..] + [info];
    }
  }

  lemma StartSection(n: Node, s: Stored, rest: seq<Step>)
    requires n.adders == map[]
    ensures Run(n, [StartAdd(0, s)] + rest) == Run(With(n, Asking(s, [], AtDag, false)), rest)
  {
    assert ([StartAdd(0, s)] + rest)[1..] == rest;
    assert n.adders[0 := Asking(s, [], AtDag, false)] == map[0 := Asking(s, [], AtDag, false)];
  }
}
