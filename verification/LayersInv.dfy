/** What every run of the layered store keeps. */
module LayersInv {
  import opened Types
  import opened DagModel
  import opened RecentCache
  import opened Layers

  type History = map<EventId, Birth>

  /** The DAG holds events as they were inserted, at the depth they were inserted with. */
  ghost predicate DagAgrees(d: DagState, born: History) {
    && d.Consistent()
    && forall id | id in d.events ::
         id in born && d.events[id].event == born[id].event && d.depths[id] == born[id].depth
  }

  /** Parents were inserted first and lie strictly higher. */
  ghost predicate BornSound(born: History) {
    forall c, p | c in born && p in born[c].event.parents :: p in born && born[p].depth < born[c].depth
  }

  ghost predicate StoreAgrees(store: map<EventId, nat>, born: History) {
    forall id | id in store :: id in born && store[id] == born[id].depth
  }

  ghost predicate CacheAgrees(c: Lines, store: map<EventId, nat>) {
    forall l | l in c :: l.id in store && l.meta.depth == store[l.id]
  }

  ghost predicate Resolved(found: seq<ParentInfo>, parents: seq<EventId>, born: History) {
    && |found| <= |parents|
    && forall i | 0 <= i < |found| :: parents[i] in born && found[i].depth == born[parents[i]].depth
  }

  ghost predicate AdderOk(a: Adder, born: History) {
    match a
    case Asking(s, found, _, _) => s.status != Finalized && Resolved(found, s.event.parents, born)
    case Measured(s, found, raw) =>
      && s.status != Finalized && Resolved(found, s.event.parents, born) && |found| == |s.event.parents|
      && forall i | 0 <= i < |found| :: found[i].depth < raw
    case Ready(s, found, depth) =>
      && s.status != Finalized && Resolved(found, s.event.parents, born) && |found| == |s.event.parents|
      && forall i | 0 <= i < |found| :: found[i].depth < depth
    case _ => true
  }

  ghost predicate JobOk(j: Job, d: DagState, store: map<EventId, nat>, born: History) {
    match j
    case Gathered(a, entries) =>
      entries.Keys == IdSet(a.eventIds) && forall id | id in entries :: id in born && entries[id] == born[id].depth
    case Persisted(a) => forall id | id in a.eventIds :: id in store
    case Floored(a) => forall id | id in a.eventIds :: id in store
    case Flagged(a) => forall id | id in a.eventIds :: id in store && !d.Active(id)
    case Cached(a) => forall id | id in a.eventIds :: id in store && !d.Active(id)
    case _ => true
  }

  /** An active event keeps the parents it found in the DAG, and they keep it in their index. */
  ghost predicate Protected(d: DagState, born: History) {
    forall e, p | d.Active(e) && e in born && p in born[e].inDag :: p in d.events && e in d.ChildrenOf(p)
  }

  /** A Finalized event whose anchor's sweep has run still has a child in the DAG. */
  ghost predicate NoneStranded(d: DagState, awaiting: set<EventId>) {
    forall x | d.Settled(x) && x !in awaiting :: d.ChildrenOf(x) != {}
  }

  /** An in-DAG parent has each of its in-DAG children in its index. */
  ghost predicate FullyIndexed(d: DagState) {
    forall c, p | c in d.events && p in d.events && p in d.ParentsOf(c) :: c in d.ChildrenOf(p)
  }

  ghost predicate PendingIsActive(d: DagState) { forall id :: id in d.pending <==> d.Active(id) }

  ghost predicate DagInv(d: DagState, born: History, awaiting: set<EventId>) {
    && DagAgrees(d, born) && Protected(d, born) && FullyIndexed(d)
    && NoneStranded(d, awaiting) && PendingIsActive(d)
  }

  ghost predicate Inv(n: Node) {
    && DagInv(n.dag, n.born, n.awaiting)
    && BornSound(n.born)
    && StoreAgrees(n.store, n.born)
    && CacheAgrees(n.cache, n.store)
    && (forall pid | pid in n.adders :: AdderOk(n.adders[pid], n.born))
    && (forall j | j in n.jobs :: JobOk(n.jobs[j], n.dag, n.store, n.born))
  }

  lemma StartInv(cfg: Settings)
    ensures Inv(Start(cfg))
  {
  }

  // ---- The DAG: insertion, finalization, sweep ----

  lemma InsertKeeps(d: DagState, born: History, awaiting: set<EventId>, s: Stored, depth: nat, inDag: set<EventId>)
    requires DagInv(d, born, awaiting)
    requires BornSound(born) && s.event.id !in d.events && s.event.id !in born && s.status != Finalized
    requires s.event.id !in s.event.parents
    requires forall p | p in inDag :: p in s.event.parents && p in d.events
    ensures DagInv(Inserted(d, s, depth), born[s.event.id := Birth(s.event, depth, inDag)], awaiting)
  {
    var e := s.event;
    var n, b := Inserted(d, s, depth), born[e.id := Birth(e, depth, inDag)];
    InsertedConsistent(d, s, depth);
    assert DagAgrees(n, b);
    InsertProtects(d, born, s, depth, inDag);
    InsertIndexes(d, born, s, depth);
    InsertStrandsNone(d, awaiting, s, depth);
  }

  lemma InsertProtects(d: DagState, born: History, s: Stored, depth: nat, inDag: set<EventId>)
    requires Protected(d, born) && s.event.id !in d.events
    requires forall p | p in inDag :: p in s.event.parents && p in d.events
    ensures Protected(Inserted(d, s, depth), born[s.event.id := Birth(s.event, depth, inDag)])
  {
    var e := s.event;
    var n, b := Inserted(d, s, depth), born[e.id := Birth(e, depth, inDag)];
    InsertKeepsChildren(d, s, depth);
    forall x, p | n.Active(x) && x in b && p in b[x].inDag ensures p in n.events && x in n.ChildrenOf(p) {
      if x != e.id { assert d.Active(x) && x in d.ChildrenOf(p); }
    }
  }

  lemma InsertStrandsNone(d: DagState, awaiting: set<EventId>, s: Stored, depth: nat)
    requires NoneStranded(d, awaiting) && PendingIsActive(d) && s.status != Finalized
    ensures NoneStranded(Inserted(d, s, depth), awaiting) && PendingIsActive(Inserted(d, s, depth))
  {
    var n := Inserted(d, s, depth);
    InsertKeepsChildren(d, s, depth);
    forall x | n.Settled(x) && x !in awaiting ensures n.ChildrenOf(x) != {} {
      assert d.Settled(x);
      assert d.ChildrenOf(x) <= n.ChildrenOf(x);
    }
    forall id ensures id in n.pending <==> n.Active(id) { assert id != s.event.id ==> n.Active(id) == d.Active(id); }
  }

  lemma InsertKeepsChildren(d: DagState, s: Stored, depth: nat)
    ensures forall x :: d.ChildrenOf(x) <= Inserted(d, s, depth).ChildrenOf(x)
    ensures forall p | p in s.event.parents && p in d.events :: s.event.id in Inserted(d, s, depth).ChildrenOf(p)
  {
  }

  lemma InsertIndexes(d: DagState, born: History, s: Stored, depth: nat)
    requires DagAgrees(d, born) && BornSound(born) && FullyIndexed(d)
    requires s.event.id !in born && s.event.id !in s.event.parents
    ensures FullyIndexed(Inserted(d, s, depth))
  {
    var n := Inserted(d, s, depth);
    InsertKeepsChildren(d, s, depth);
    forall c, p | c in n.events && p in n.events && p in n.ParentsOf(c) ensures c in n.ChildrenOf(p) {
      if c == s.event.id {
        assert p in d.events;
      } else {
        ParentsAreOld(d, born, s, depth, c, p);
        assert d.ChildrenOf(p) <= n.ChildrenOf(p);
      }
    }
  }

  /** No event that was there before names the new one as a parent. */
  lemma ParentsAreOld(d: DagState, born: History, s: Stored, depth: nat, c: EventId, p: EventId)
    requires DagAgrees(d, born) && BornSound(born) && FullyIndexed(d) && s.event.id !in born
    requires var n := Inserted(d, s, depth); c in n.events && p in n.events && p in n.ParentsOf(c)
    requires c != s.event.id
    ensures c in d.ChildrenOf(p)
  {
    assert c in d.events && p in d.ParentsOf(c);
    assert p in born;
  }

  lemma FinalizeKeeps(d: DagState, born: History, awaiting: set<EventId>, ids: set<EventId>)
    requires DagInv(d, born, awaiting)
    ensures DagInv(FinalizedIn(d, ids), born, awaiting + ids)
    ensures forall id | id in ids :: !FinalizedIn(d, ids).Active(id)
    ensures forall id :: FinalizedIn(d, ids).Active(id) ==> d.Active(id)
  {
    var n := FinalizedIn(d, ids);
    FinalizedInConsistent(d, ids);
    assert n.events.Keys == d.events.Keys;
    forall c, p | c in n.events && p in n.events && p in n.ParentsOf(c) ensures c in n.ChildrenOf(p) {
      assert p in d.ParentsOf(c) && c in d.ChildrenOf(p);
    }
    forall x, p | n.Active(x) && x in born && p in born[x].inDag ensures p in n.events && x in n.ChildrenOf(p) {
      assert d.Active(x) && x in d.ChildrenOf(p);
    }
    forall x | n.Settled(x) && x !in awaiting + ids ensures n.ChildrenOf(x) != {} { assert d.Settled(x); }
  }

  /** The sweep leaves every active event and every in-DAG parent of one, still indexed. */
  lemma SweepIsSafe(d: DagState, ids: set<EventId>, p: EventId, c: EventId)
    requires d.Active(c)
    ensures var n := Collected(d, ids);
            && n.Active(c)
            && (c in d.ChildrenOf(p) ==> c in n.ChildrenOf(p) && (p in d.events ==> p in n.events))
  {
    GcSetCollectable(d, ids);
    assert c !in GcSet(d, ids);
    if c in d.ChildrenOf(p) { assert d.HasActiveChildren(p); }
  }

  /** What a sweep leaves behind of an event's children. */
  lemma SweepLeavesChild(d: DagState, ids: set<EventId>, x: EventId)
    requires d.Consistent() && Collected(d, ids).Settled(x)
    requires x in ids || d.ChildrenOf(x) != {}
    ensures Collected(d, ids).ChildrenOf(x) != {}
  {
    if d.HasActiveChildren(x) {
      var c :| c in d.ChildrenOf(x) && d.Active(c);
      SweepIsSafe(d, ids, x, c);
    } else {
      assert Collectable(d, x);
      GcSetClosed(d, ids);
      var c :| c in d.ChildrenOf(x);
      assert x in d.ParentsOf(c);
      assert c in Collected(d, ids).ChildrenOf(x);
    }
  }

  lemma SweepProtects(d: DagState, born: History, ids: set<EventId>)
    requires Protected(d, born)
    ensures Protected(Collected(d, ids), born)
  {
    var n := Collected(d, ids);
    forall x, p | n.Active(x) && x in born && p in born[x].inDag ensures p in n.events && x in n.ChildrenOf(p) {
      assert d.Active(x) && x in d.ChildrenOf(p);
      SweepIsSafe(d, ids, p, x);
    }
  }

  lemma SweepIndexes(d: DagState, ids: set<EventId>)
    requires FullyIndexed(d)
    ensures FullyIndexed(Collected(d, ids))
  {
    var n := Collected(d, ids);
    forall c, p | c in n.events && p in n.events && p in n.ParentsOf(c) ensures c in n.ChildrenOf(p) {
      assert c in d.ChildrenOf(p);
    }
  }

  lemma SweepStrandsNone(d: DagState, awaiting: set<EventId>, ids: set<EventId>)
    requires d.Consistent() && NoneStranded(d, awaiting)
    ensures NoneStranded(Collected(d, ids), awaiting - ids)
  {
    var n := Collected(d, ids);
    forall x | n.Settled(x) && x !in awaiting - ids ensures n.ChildrenOf(x) != {} {
      assert d.Settled(x);
      SweepLeavesChild(d, ids, x);
    }
  }

  lemma SweepKeeps(d: DagState, born: History, awaiting: set<EventId>, ids: set<EventId>)
    requires DagInv(d, born, awaiting)
    ensures DagInv(Collected(d, ids), born, awaiting - ids)
    ensures forall id :: Collected(d, ids).Active(id) ==> d.Active(id)
  {
    WithoutConsistent(d, GcSet(d, ids));
    GcSetCollectable(d, ids);
    SweepIndexes(d, ids);
    SweepProtects(d, born, ids);
    SweepStrandsNone(d, awaiting, ids);
  }

  // ---- The cache ----

  lemma PutKeeps(c: Lines, cap: nat, id: EventId, m: Meta, store: map<EventId, nat>)
    requires CacheAgrees(c, store) && id in store && m.depth == store[id]
    ensures CacheAgrees(AfterPut(c, cap, id, m), store)
  {
  }

  lemma {:induction false} FillKeeps(c: Lines, cap: nat, d: DagState, a: Anchor, ids: seq<EventId>, now: nat,
                                     store: map<EventId, nat>, born: History)
    requires CacheAgrees(c, store) && DagAgrees(d, born) && StoreAgrees(store, born)
    requires forall id | id in ids :: id in store
    ensures CacheAgrees(FilledFromDag(c, cap, d, a, ids, now), store)
    decreases |ids|
  {
    if ids != [] {
      var k := |ids| - 1;
      FillKeeps(c, cap, d, a, ids[..k], now, store, born);
      assert ids[k] in ids;
      if ids[k] in d.events {
        PutKeeps(FilledFromDag(c, cap, d, a, ids[..k], now), cap, ids[k],
                 Meta(d.depths[ids[k]], a.id, now, d.ParentsOf(ids[k])), store);
      }
    }
  }

  lemma {:induction false} StoreFillKeeps(c: Lines, cap: nat, store: map<EventId, nat>, born: History, a: Anchor,
                                          ids: seq<EventId>)
    requires CacheAgrees(c, store)
    ensures CacheAgrees(FilledFromStore(c, cap, store, born, a, ids), store)
    decreases |ids|
  {
    if ids != [] {
      var k := |ids| - 1;
      StoreFillKeeps(c, cap, store, born, a, ids[..k]);
      if ids[k] in store && ids[k] in born {
        PutKeeps(FilledFromStore(c, cap, store, born, a, ids[..k]), cap, ids[k],
                 Meta(store[ids[k]], a.id, a.timestamp, born[ids[k]].event.parents), store);
      }
    }
  }

  lemma {:induction false} WarmKeeps(c: Lines, cap: nat, store: map<EventId, nat>, born: History, anchors: seq<Anchor>)
    requires CacheAgrees(c, store)
    ensures CacheAgrees(Warmed(c, cap, store, born, anchors), store)
    decreases |anchors|
  {
    if anchors != [] {
      var k := |anchors| - 1;
      WarmKeeps(c, cap, store, born, anchors[..k]);
      StoreFillKeeps(Warmed(c, cap, store, born, anchors[..k]), cap, store, born, anchors[k], anchors[k].eventIds);
    }
  }

  // ---- Changing one part ----

  lemma AdderKeeps(n: Node, pid: nat, a: Adder)
    requires Inv(n) && AdderOk(a, n.born)
    ensures Inv(n.(adders := n.adders[pid := a]))
  {
  }

  lemma CacheKeeps(n: Node, c: Lines)
    requires Inv(n) && CacheAgrees(c, n.store)
    ensures Inv(n.(cache := c))
  {
  }

  lemma JobKeeps(n: Node, job: nat, j: Job)
    requires Inv(n) && JobOk(j, n.dag, n.store, n.born)
    ensures Inv(n.(jobs := n.jobs[job := j]))
  {
  }

  // ---- Adders ----

  lemma AskDagKeeps(n: Node, a: Adder)
    requires Inv(n) && AdderOk(a, n.born) && WantsParent(a, AtDag)
    ensures AdderOk(DagAnswer(n, a), n.born)
  {
  }

  lemma AskCacheKeeps(n: Node, a: Adder)
    requires Inv(n) && AdderOk(a, n.born) && WantsParent(a, AtCache)
    ensures AdderOk(CacheAnswer(n, a), n.born) && CacheAgrees(AfterGet(n.cache, Wanted(a)), n.store)
  {
  }

  lemma AskStoreKeeps(n: Node, a: Adder)
    requires Inv(n) && AdderOk(a, n.born) && WantsParent(a, AtStore)
    ensures AdderOk(StoreAnswer(n, a), n.born)
  {
  }

  lemma MeasureKeeps(n: Node, a: Adder)
    requires AdderOk(a, n.born)
    ensures FullyFound(a) ==> AdderOk(Measured(a.s, a.found, RawDepth(n.dag, a.found)), n.born)
    ensures a.Measured? ==> AdderOk(FloorAnswer(n, a), n.born)
  {
  }

  lemma BirthKeepsSound(born: History, a: Adder)
    requires BornSound(born) && a.Ready? && AdderOk(a, born) && a.s.event.id !in born
    ensures BornSound(born[a.s.event.id := Birth(a.s.event, a.depth, FoundInDag(a.s.event.parents, a.found))])
  {
    var e := a.s.event;
    var b := born[e.id := Birth(e, a.depth, FoundInDag(e.parents, a.found))];
    forall c, p | c in b && p in b[c].event.parents ensures p in b && b[p].depth < b[c].depth {
      if c == e.id {
        var i :| 0 <= i < |e.parents| && e.parents[i] == p;
        assert a.found[i].depth == born[p].depth;
      }
    }
  }

  lemma OthersSurviveBirth(n: Node, s: Stored, depth: nat, b: Birth)
    requires Inv(n) && s.event.id !in n.born
    ensures var born := n.born[s.event.id := b];
            && (forall q | q in n.adders :: AdderOk(n.adders[q], born))
            && (forall j | j in n.jobs :: JobOk(n.jobs[j], Inserted(n.dag, s, depth), n.store, born))
  {
    var born, d := n.born[s.event.id := b], Inserted(n.dag, s, depth);
    forall q | q in n.adders ensures AdderOk(n.adders[q], born) { assert AdderOk(n.adders[q], n.born); }
    forall j | j in n.jobs ensures JobOk(n.jobs[j], d, n.store, born) {
      assert JobOk(n.jobs[j], n.dag, n.store, n.born);
      assert forall id | id in n.born :: d.Active(id) == n.dag.Active(id);
    }
  }

  lemma WriteFacts(n: Node, a: Adder)
    requires a.Ready? && |a.found| == |a.s.event.parents| && WriteError(n, a).None?
    ensures a.s.event.id !in n.dag.events
    ensures forall p | p in FoundInDag(a.s.event.parents, a.found) :: p in a.s.event.parents && p in n.dag.events
  {
  }

  lemma BirthKeeps(n: Node, a: Adder)
    requires Inv(n) && a.Ready? && AdderOk(a, n.born)
    requires a.s.event.id !in n.dag.events && a.s.event.id !in n.born
    requires forall p | p in FoundInDag(a.s.event.parents, a.found) :: p in a.s.event.parents && p in n.dag.events
    ensures Inv(n.(dag := Inserted(n.dag, a.s, a.depth),
                   born := n.born[a.s.event.id := Birth(a.s.event, a.depth, FoundInDag(a.s.event.parents, a.found))]))
  {
    var inDag := FoundInDag(a.s.event.parents, a.found);
    assert a.s.event.id !in a.s.event.parents;
    InsertKeeps(n.dag, n.born, n.awaiting, a.s, a.depth, inDag);
    BirthKeepsSound(n.born, a);
    OthersSurviveBirth(n, a.s, a.depth, Birth(a.s.event, a.depth, inDag));
  }

  lemma WriteKeeps(n: Node, pid: nat)
    requires Inv(n) && pid in n.adders && n.adders[pid].Ready? && AdderOk(n.adders[pid], n.born)
    requires Allowed(n, Write(pid)) && WriteError(n, n.adders[pid]).None?
    ensures Inv(Written(n, pid, n.adders[pid]))
  {
    var a := n.adders[pid];
    WriteFacts(n, a);
    BirthKeeps(n, a);
    AdderKeeps(n.(dag := Inserted(n.dag, a.s, a.depth),
                  born := n.born[a.s.event.id := Birth(a.s.event, a.depth, FoundInDag(a.s.event.parents, a.found))]),
               pid, Added);
  }

  // ---- Every step ----

  ghost predicate IsAdderStep(step: Step) {
    || step.StartAdd? || step.AskDag? || step.AskCache? || step.AskStore?
    || step.Measure? || step.ApplyFloor? || step.Write?
  }

  lemma AdderStepKeeps(n: Node, step: Step)
    requires Inv(n) && Allowed(n, step) && IsAdderStep(step)
    ensures Inv(Next(n, step))
  {
    var pid := step.pid;
    if step.StartAdd? {
      AdderKeeps(n, pid, Asking(step.s, [], AtDag, false));
    } else if pid in n.adders {
      var a := n.adders[pid];
      assert AdderOk(a, n.born);
      AdderAdvances(n, step, pid, a);
    }
  }

  lemma AdderAdvances(n: Node, step: Step, pid: nat, a: Adder)
    requires Inv(n) && Allowed(n, step) && IsAdderStep(step) && !step.StartAdd?
    requires pid == step.pid && pid in n.adders && a == n.adders[pid] && AdderOk(a, n.born)
    ensures Inv(Next(n, step))
  {
    match step
    case AskDag(_) => if WantsParent(a, AtDag) { AskDagKeeps(n, a); AdderKeeps(n, pid, DagAnswer(n, a)); }
    case AskCache(_) =>
      if WantsParent(a, AtCache) {
        AskCacheKeeps(n, a);
        AdderKeeps(n, pid, CacheAnswer(n, a));
        CacheKeeps(n.(adders := n.adders[pid := CacheAnswer(n, a)]), AfterGet(n.cache, Wanted(a)));
      }
    case AskStore(_) => if WantsParent(a, AtStore) { AskStoreKeeps(n, a); AdderKeeps(n, pid, StoreAnswer(n, a)); }
    case Measure(_) =>
      MeasureKeeps(n, a);
      if FullyFound(a) { AdderKeeps(n, pid, Measured(a.s, a.found, RawDepth(n.dag, a.found))); }
    case ApplyFloor(_) =>
      MeasureKeeps(n, a);
      if a.Measured? { AdderKeeps(n, pid, FloorAnswer(n, a)); }
    case Write(_) =>
      if a.Ready? {
        if WriteError(n, a).None? { WriteKeeps(n, pid); }
        else { AdderKeeps(n, pid, Failing(WriteError(n, a).value)); }
      }
  }

  lemma JobsSurvive(n: Node, d: DagState)
    requires forall j | j in n.jobs :: JobOk(n.jobs[j], n.dag, n.store, n.born)
    requires forall id :: d.Active(id) ==> n.dag.Active(id)
    ensures forall j | j in n.jobs :: JobOk(n.jobs[j], d, n.store, n.born)
  {
    forall j | j in n.jobs ensures JobOk(n.jobs[j], d, n.store, n.born) {
      assert JobOk(n.jobs[j], n.dag, n.store, n.born);
    }
  }

  lemma DagStepKeeps(n: Node, step: Step)
    requires Inv(n)
    requires step.MarkFinalized? || step.Flag? || step.Sweep?
    ensures Inv(Next(n, step))
  {
    if step.MarkFinalized? { MarkStepKeeps(n, step.ids); }
    else if step.Flag? { FlagStepKeeps(n, step.job); }
    else { SweepStepKeeps(n, step.job); }
  }

  lemma MarkStepKeeps(n: Node, ids: seq<EventId>)
    requires Inv(n)
    ensures Inv(Next(n, MarkFinalized(ids)))
  {
    FinalizeKeeps(n.dag, n.born, n.awaiting, IdSet(ids));
    JobsSurvive(n, Next(n, MarkFinalized(ids)).dag);
  }

  lemma FlagStepKeeps(n: Node, job: nat)
    requires Inv(n)
    ensures Inv(Next(n, Flag(job)))
  {
    if job in n.jobs {
      assert JobOk(n.jobs[job], n.dag, n.store, n.born);
      FinalizeKeeps(n.dag, n.born, n.awaiting, IdSet(JobIds(n.jobs[job])));
      JobsSurvive(n, Next(n, Flag(job)).dag);
    }
  }

  lemma SweepStepKeeps(n: Node, job: nat)
    requires Inv(n)
    ensures Inv(Next(n, Sweep(job)))
  {
    if job in n.jobs {
      assert JobOk(n.jobs[job], n.dag, n.store, n.born);
      SweepKeeps(n.dag, n.born, n.awaiting, IdSet(JobIds(n.jobs[job])));
      JobsSurvive(n, Next(n, Sweep(job)).dag);
    }
  }

  lemma PersistKeeps(n: Node, job: nat)
    requires Inv(n) && job in n.jobs && n.jobs[job].Gathered?
    ensures Inv(Next(n, Persist(job)))
  {
    var m := Next(n, Persist(job));
    assert JobOk(n.jobs[job], n.dag, n.store, n.born);
    forall id | id in n.store ensures m.store[id] == n.store[id] { }
    forall l | l in m.cache ensures l.id in m.store && l.meta.depth == m.store[l.id] {
      assert l.id in n.store && l.meta.depth == n.store[l.id];
    }
    forall j | j in m.jobs ensures JobOk(m.jobs[j], m.dag, m.store, m.born) {
      if j != job { assert JobOk(n.jobs[j], n.dag, n.store, n.born); }
    }
  }

  lemma OtherStepKeeps(n: Node, step: Step)
    requires Inv(n) && !IsAdderStep(step) && !step.MarkFinalized? && !step.Flag? && !step.Sweep?
    ensures Inv(Next(n, step))
  {
    if step.WarmUp? {
      WarmKeeps(n.cache, n.cfg.capacity, n.store, n.born, step.anchors);
      CacheKeeps(n, Warmed(n.cache, n.cfg.capacity, n.store, n.born, step.anchors));
    } else if step.Gather? {
      GatherKeeps(n, step.job, step.anchor);
    } else if !step.RaiseFloorTo? && step.job in n.jobs {
      JobAdvances(n, step, step.job);
    }
  }

  lemma GatherKeeps(n: Node, job: nat, anchor: Anchor)
    requires Inv(n)
    ensures Inv(Next(n, Gather(job, anchor)))
  {
    if forall id | id in anchor.eventIds :: id in n.dag.events && id in n.dag.depths {
      JobKeeps(n, job, Gathered(anchor, map id | id in anchor.eventIds :: n.dag.depths[id]));
    } else {
      JobKeeps(n, job, Aborted);
    }
  }

  lemma JobAdvances(n: Node, step: Step, job: nat)
    requires Inv(n) && (step.Persist? || step.Abort? || step.RaiseFloor? || step.FillCache?)
    requires job == step.job && job in n.jobs
    ensures Inv(Next(n, step))
  {
    var j := n.jobs[job];
    assert JobOk(j, n.dag, n.store, n.born);
    if step.Persist? {
      if j.Gathered? { PersistKeeps(n, job); }
    } else if step.Abort? {
      JobKeeps(n, job, Aborted);
    } else if step.RaiseFloor? {
      if j.Persisted? { JobKeeps(n, job, Floored(j.anchor)); }
    } else if j.Flagged? {
      FillCacheKeeps(n, job, step.now);
    }
  }

  lemma FillCacheKeeps(n: Node, job: nat, now: nat)
    requires Inv(n) && job in n.jobs && n.jobs[job].Flagged? && JobOk(n.jobs[job], n.dag, n.store, n.born)
    ensures Inv(Next(n, FillCache(job, now)))
  {
    var a := n.jobs[job].anchor;
    var c := FilledFromDag(n.cache, n.cfg.capacity, n.dag, a, a.eventIds, now);
    FillKeeps(n.cache, n.cfg.capacity, n.dag, a, a.eventIds, now, n.store, n.born);
    CacheKeeps(n, c);
    JobKeeps(n.(cache := c), job, Cached(a));
  }

  lemma StepKeeps(n: Node, step: Step)
    requires Inv(n) && Allowed(n, step)
    ensures Inv(Next(n, step))
  {
    if step.MarkFinalized? || step.Flag? || step.Sweep? {
      DagStepKeeps(n, step);
    } else if IsAdderStep(step) {
      AdderStepKeeps(n, step);
    } else {
      OtherStepKeeps(n, step);
    }
  }

  lemma {:induction false} RunKeeps(n: Node, steps: seq<Step>)
    requires Inv(n) && AllowedRun(n, steps)
    ensures Inv(Run(n, steps))
    decreases |steps|
  {
    if steps != [] {
      StepKeeps(n, steps[0]);
      RunKeeps(Next(n, steps[0]), steps[1..]);
    }
  }
}
