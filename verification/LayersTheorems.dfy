/** What a user of the layered store may rely on over whole runs. */
module LayersTheorems {
  import opened Types
  import opened DagModel
  import opened RecentCache
  import opened Layers
  import opened LayersInv

  // ---- The collector never leaks ----

  ghost predicate ChildPath(d: DagState, path: seq<EventId>) {
    && path != []
    && (forall i | 0 <= i < |path| :: path[i] in d.events)
    && (forall i | 0 <= i < |path| - 1 :: path[i + 1] in d.ChildrenOf(path[i]))
  }

  /** Something that still has a reason to be in the DAG: unfinalized, or not yet swept. */
  ghost predicate Live(n: Node, id: EventId) {
    n.dag.Active(id) || (n.dag.Settled(id) && id in n.awaiting)
  }

  ghost predicate HeldByLive(n: Node, x: EventId) {
    exists path :: ChildPath(n.dag, path) && path[0] == x && Live(n, path[|path| - 1])
  }

  ghost function Deeper(d: DagState, x: EventId): set<EventId>
    requires x in d.depths
  {
    set y | y in d.depths && d.depths[x] < d.depths[y]
  }

  lemma EdgesDeepen(n: Node, p: EventId, c: EventId)
    requires Inv(n) && c in n.dag.events && p in n.dag.ParentsOf(c)
    ensures p in n.born && n.born[p].depth < n.dag.depths[c]
    ensures p in n.dag.events ==> n.dag.depths[p] < n.dag.depths[c] && c in n.dag.ChildrenOf(p)
  {
    assert c in n.born && p in n.born[c].event.parents;
  }

  lemma DeeperChild(n: Node, x: EventId) returns (c: EventId)
    requires Inv(n) && x in n.dag.events && !Live(n, x)
    ensures c in n.dag.ChildrenOf(x) && c in n.dag.events
    ensures Deeper(n.dag, c) < Deeper(n.dag, x)
  {
    assert n.dag.ChildrenOf(x) != {};
    c :| c in n.dag.ChildrenOf(x);
    assert c in n.dag.events && x in n.dag.ParentsOf(c);
    EdgesDeepen(n, x, c);
    assert c in Deeper(n.dag, x) && c !in Deeper(n.dag, c);
  }

  lemma {:induction false} FollowChildren(n: Node, x: EventId)
    requires Inv(n) && x in n.dag.events
    ensures HeldByLive(n, x)
    decreases Deeper(n.dag, x)
  {
    if Live(n, x) {
      assert ChildPath(n.dag, [x]);
    } else {
      var c := DeeperChild(n, x);
      FollowChildren(n, c);
      var path :| ChildPath(n.dag, path) && path[0] == c && Live(n, path[|path| - 1]);
      PathGrows(n.dag, x, path);
      assert ([x] + path)[|path|] == path[|path| - 1];
    }
  }

  lemma PathGrows(d: DagState, x: EventId, path: seq<EventId>)
    requires x in d.events && ChildPath(d, path) && path[0] in d.ChildrenOf(x)
    ensures ChildPath(d, [x] + path)
  {
    var longer := [x] + path;
    forall i | 0 <= i < |longer| - 1 ensures longer[i + 1] in d.ChildrenOf(longer[i]) {
      if i > 0 { assert longer[i] == path[i - 1] && longer[i + 1] == path[i]; }
    }
  }

  /** Over every run, nothing stays in the DAG without a live event below it. */
  lemma GcNeverLeaks(cfg: Settings, steps: seq<Step>, x: EventId)
    requires AllowedRun(Start(cfg), steps)
    requires x in Run(Start(cfg), steps).dag.events
    ensures HeldByLive(Run(Start(cfg), steps), x)
  {
    StartInv(cfg);
    RunKeeps(Start(cfg), steps);
    FollowChildren(Run(Start(cfg), steps), x);
  }

  // ---- Adding while the collector runs ----

  /** However the sections interleave: an active event still has the parents it found in the DAG,
      indexed above it, and every in-DAG edge leads strictly deeper. */
  lemma AddIsSafe(cfg: Settings, steps: seq<Step>, e: EventId, p: EventId)
    requires AllowedRun(Start(cfg), steps)
    requires e in Run(Start(cfg), steps).dag.events
    ensures var n := Run(Start(cfg), steps);
            && e in n.born
            && (n.dag.Active(e) && p in n.born[e].inDag ==> p in n.dag.events)
            && (p in n.dag.events && p in n.dag.ParentsOf(e) ==>
                  && e in n.dag.ChildrenOf(p)
                  && p in n.dag.depths && e in n.dag.depths && n.dag.depths[p] < n.dag.depths[e])
  {
    var n := Run(Start(cfg), steps);
    StartInv(cfg);
    RunKeeps(Start(cfg), steps);
    if p in n.dag.ParentsOf(e) { EdgesDeepen(n, p, e); }
  }

  /** The sweep takes no active event and no parent of one. */
  lemma SweepKeepsActive(n: Node, job: nat, e: EventId, p: EventId)
    requires Inv(n) && n.dag.Active(e)
    ensures var m := Next(n, Sweep(job));
            && m.dag.Active(e)
            && (p in n.dag.events && p in n.dag.ParentsOf(e) ==> p in m.dag.events && e in m.dag.ChildrenOf(p))
  {
    if job in n.jobs { SweepIsSafe(n.dag, IdSet(JobIds(n.jobs[job])), p, e); }
  }

  // ---- Three layers, one map ----

  /** `query_parent` asked in one go: DAG, then cache, then store. */
  function Lookup(n: Node, id: EventId): Option<nat> {
    if id in n.dag.depths then Some(n.dag.depths[id])
    else if Find(n.cache, id).Some? then Some(Find(n.cache, id).value.depth)
    else if n.cfg.diskFallback && id in n.store then Some(n.store[id])
    else None
  }

  predicate Exists(n: Node, id: EventId) {
    id in n.dag.events || Find(n.cache, id).Some? || (n.cfg.diskFallback && id in n.store)
  }

  /** Nothing inserted has been lost. */
  ghost predicate Complete(n: Node) { forall id | id in n.born :: id in n.dag.events || id in n.store }

  /** A layer never answers with another depth than the one first recorded. */
  lemma LookupSound(n: Node, id: EventId)
    requires Inv(n) && Lookup(n, id).Some?
    ensures id in n.born && Lookup(n, id) == Some(n.born[id].depth)
  {
    if id !in n.dag.depths && Find(n.cache, id).Some? {
      assert Line(id, Find(n.cache, id).value) in n.cache;
    }
  }

  lemma LookupExact(n: Node, id: EventId)
    requires Inv(n) && Complete(n) && n.cfg.diskFallback
    ensures Lookup(n, id) == if id in n.born then Some(n.born[id].depth) else None
    ensures Exists(n, id) <==> id in n.born
  {
    if Lookup(n, id).Some? { LookupSound(n, id); }
  }

  /** No walk from the job's events along parent edges, through final events without active
      children, leads to an event that is not persisted. */
  ghost predicate SweepGuard(n: Node, job: nat) {
    job in n.jobs && n.jobs[job].Cached? ==>
      forall x | Reached(n.dag, IdSet(JobIds(n.jobs[job])), x) :: x in n.store
  }

  /** A sweep loses nothing exactly when all it can walk to is already in the store. */
  lemma SweepLosesNothingIff(n: Node, job: nat)
    requires Inv(n) && Complete(n)
    ensures Complete(Next(n, Sweep(job))) <==> SweepGuard(n, job)
  {
    if job in n.jobs && n.jobs[job].Cached? {
      var ids := IdSet(JobIds(n.jobs[job]));
      forall x ensures x in GcSet(n.dag, ids) <==> Reached(n.dag, ids, x) { GcSetIsReached(n.dag, ids, x); }
      if Complete(Next(n, Sweep(job))) {
        forall x | Reached(n.dag, ids, x) ensures x in n.store { assert x in n.born; }
      }
    }
  }

  lemma AnswersAreComplete(n: Node)
    requires Inv(n) && n.cfg.diskFallback
    ensures (forall id | id in n.born :: Lookup(n, id) == Some(n.born[id].depth)) <==> Complete(n)
  {
    if Complete(n) {
      forall id | id in n.born ensures Lookup(n, id) == Some(n.born[id].depth) { LookupExact(n, id); }
    } else {
      var id :| id in n.born && id !in n.dag.events && id !in n.store;
      assert forall l | l in n.cache :: l.id in n.store;
      assert Lookup(n, id).None?;
    }
  }

  /** And then, and only then, every inserted id is still answered with its first depth. */
  lemma SweepKeepsAnswersIff(n: Node, job: nat)
    requires Inv(n) && Complete(n) && n.cfg.diskFallback
    ensures SweepGuard(n, job) <==>
            forall id | id in n.born :: Lookup(Next(n, Sweep(job)), id) == Some(n.born[id].depth)
  {
    StepKeeps(n, Sweep(job));
    AnswersAreComplete(Next(n, Sweep(job)));
    SweepLosesNothingIff(n, job);
  }

  // ---- What the surroundings can see to ----

  /** Every event marked final whose sweep has not run is persisted. */
  ghost predicate MarkedPersisted(n: Node) { forall x | x in n.awaiting && x in n.dag.events :: x in n.store }

  /** A final event that has been swept once is persisted, wherever it still is. */
  ghost predicate SweptStored(n: Node) { forall x | n.dag.Settled(x) && x !in n.awaiting :: x in n.store }

  lemma AdderKeepsSwept(n: Node, step: Step)
    requires Inv(n) && SweptStored(n) && IsAdderStep(step)
    ensures SweptStored(Next(n, step))
  {
    if step.Write? && step.pid in n.adders { WriteKeepsSwept(n, step.pid); } else { AskingKeepsLayers(n, step); }
  }

  lemma AskingKeepsLayers(n: Node, step: Step)
    requires IsAdderStep(step) && (step.Write? ==> step.pid !in n.adders)
    ensures var m := Next(n, step); m.dag == n.dag && m.store == n.store && m.awaiting == n.awaiting
  {
  }

  lemma WriteKeepsSwept(n: Node, pid: nat)
    requires Inv(n) && SweptStored(n) && pid in n.adders
    ensures SweptStored(Next(n, Write(pid)))
  {
    var a := n.adders[pid];
    assert AdderOk(a, n.born);
    if a.Ready? && |a.found| == |a.s.event.parents| { InsertKeepsSwept(n, Written(n, pid, a), a.s, a.depth); }
  }

  lemma InsertKeepsSwept(n: Node, m: Node, s: Stored, depth: nat)
    requires SweptStored(n) && s.status != Finalized
    requires m.dag == Inserted(n.dag, s, depth) && m.store == n.store && m.awaiting == n.awaiting
    ensures SweptStored(m)
  {
    forall x | m.dag.Settled(x) && x !in m.awaiting ensures x in m.store { assert n.dag.Settled(x); }
  }

  lemma MarkingKeepsSwept(n: Node, ids: set<EventId>)
    requires SweptStored(n)
    ensures SweptStored(n.(dag := FinalizedIn(n.dag, ids), awaiting := n.awaiting + ids))
  {
    var m := n.(dag := FinalizedIn(n.dag, ids), awaiting := n.awaiting + ids);
    forall x | m.dag.Settled(x) && x !in m.awaiting ensures x in m.store { assert n.dag.Settled(x); }
  }

  lemma SweepKeepsSwept(n: Node, ids: set<EventId>)
    requires SweptStored(n) && ids <= n.store.Keys
    ensures SweptStored(n.(dag := Collected(n.dag, ids), awaiting := n.awaiting - ids))
  {
    var m := n.(dag := Collected(n.dag, ids), awaiting := n.awaiting - ids);
    forall x | m.dag.Settled(x) && x !in m.awaiting ensures x in m.store { assert n.dag.Settled(x); }
  }

  lemma SweptStoredKept(n: Node, step: Step)
    requires Inv(n) && Allowed(n, step) && SweptStored(n)
    ensures SweptStored(Next(n, step))
  {
    if IsAdderStep(step) {
      AdderKeepsSwept(n, step);
    } else if step.MarkFinalized? {
      MarkingKeepsSwept(n, IdSet(step.ids));
    } else if step.Flag? && step.job in n.jobs {
      MarkingKeepsSwept(n, IdSet(JobIds(n.jobs[step.job])));
    } else if step.Sweep? && step.job in n.jobs && n.jobs[step.job].Cached? {
      assert JobOk(n.jobs[step.job], n.dag, n.store, n.born);
      SweepKeepsSwept(n, IdSet(JobIds(n.jobs[step.job])));
    }
  }

  lemma MarksGiveGuard(n: Node, job: nat)
    requires SweptStored(n) && MarkedPersisted(n)
    ensures SweepGuard(n, job)
  {
    if job in n.jobs {
      forall x | Reached(n.dag, IdSet(JobIds(n.jobs[job])), x) ensures x in n.store { assert n.dag.Settled(x); }
    }
  }

  ghost predicate Guarded(n: Node, step: Step) { step.Sweep? ==> SweepGuard(n, step.job) }

  ghost predicate GuardedRun(n: Node, steps: seq<Step>)
    decreases |steps|
  {
    steps == [] || (Allowed(n, steps[0]) && Guarded(n, steps[0]) && GuardedRun(Next(n, steps[0]), steps[1..]))
  }

  /** A parent inserted before the DAG was asked will be found further down. */
  ghost predicate AskerKnows(a: Adder, store: map<EventId, nat>) {
    (WantsParent(a, AtCache) || WantsParent(a, AtStore)) && a.known ==> Wanted(a) in store
  }

  ghost predicate KnownStored(n: Node) { forall pid | pid in n.adders :: AskerKnows(n.adders[pid], n.store) }

  ghost predicate FullInv(n: Node) { Inv(n) && Complete(n) && KnownStored(n) }

  /** Only a sweep takes anything away. */
  ghost predicate Grows(n: Node, m: Node) {
    && n.dag.events.Keys <= m.dag.events.Keys
    && n.store.Keys <= m.store.Keys
    && forall id | id in m.born :: id in n.born || id in m.dag.events
  }

  lemma AdderStepGrows(n: Node, step: Step)
    requires IsAdderStep(step)
    ensures Grows(n, Next(n, step))
  {
  }

  lemma OtherStepGrows(n: Node, step: Step)
    requires !IsAdderStep(step) && !step.Sweep?
    ensures Grows(n, Next(n, step))
  {
  }

  lemma CompleteKept(n: Node, step: Step)
    requires Inv(n) && Complete(n) && Guarded(n, step)
    ensures Complete(Next(n, step))
  {
    if step.Sweep? { SweepLosesNothingIff(n, step.job); }
    else if IsAdderStep(step) { AdderStepGrows(n, step); }
    else { OtherStepGrows(n, step); }
  }

  lemma KnownStoredKept(n: Node, step: Step)
    requires FullInv(n)
    ensures KnownStored(Next(n, step))
  {
    if IsAdderStep(step) { AskerStillKnows(n, step); }
    else if !step.Sweep? { OtherStepGrows(n, step); }
  }

  lemma AnswersKnow(n: Node, a: Adder)
    requires Inv(n) && Complete(n) && AskerKnows(a, n.store)
    ensures WantsParent(a, AtDag) ==> AskerKnows(DagAnswer(n, a), n.store)
    ensures WantsParent(a, AtCache) ==> AskerKnows(CacheAnswer(n, a), n.store)
    ensures WantsParent(a, AtStore) ==> AskerKnows(StoreAnswer(n, a), n.store)
  {
  }

  lemma AskerStillKnows(n: Node, step: Step)
    requires FullInv(n) && IsAdderStep(step)
    ensures KnownStored(Next(n, step))
  {
    if step.pid in n.adders {
      AnswersKnow(n, n.adders[step.pid]);
    }
    OnlyOneAdder(n, step);
  }

  /** An adder's section changes that adder only, and leaves the store alone. */
  lemma OnlyOneAdder(n: Node, step: Step)
    requires IsAdderStep(step)
    ensures Next(n, step).store == n.store
    ensures forall q | q in Next(n, step).adders && q != step.pid ::
              q in n.adders && Next(n, step).adders[q] == n.adders[q]
  {
  }

  lemma SettingsKept(n: Node, step: Step)
    ensures Next(n, step).cfg == n.cfg
  {
  }

  lemma GuardedStepKeeps(n: Node, step: Step)
    requires FullInv(n) && Allowed(n, step) && Guarded(n, step)
    ensures FullInv(Next(n, step)) && Next(n, step).cfg == n.cfg
  {
    StepKeeps(n, step);
    CompleteKept(n, step);
    KnownStoredKept(n, step);
    SettingsKept(n, step);
  }

  lemma {:induction false} GuardedRunKeeps(n: Node, steps: seq<Step>)
    requires FullInv(n) && GuardedRun(n, steps)
    ensures FullInv(Run(n, steps)) && Run(n, steps).cfg == n.cfg
    decreases |steps|
  {
    if steps != [] {
      GuardedStepKeeps(n, steps[0]);
      GuardedRunKeeps(Next(n, steps[0]), steps[1..]);
    }
  }

  /** A run in which every sweep starts with all marked events persisted. */
  ghost predicate PersistedRun(n: Node, steps: seq<Step>)
    decreases |steps|
  {
    steps == [] || (Allowed(n, steps[0]) && (steps[0].Sweep? ==> MarkedPersisted(n))
                    && PersistedRun(Next(n, steps[0]), steps[1..]))
  }

  lemma {:induction false} PersistedIsGuarded(n: Node, steps: seq<Step>)
    requires Inv(n) && SweptStored(n) && PersistedRun(n, steps)
    ensures GuardedRun(n, steps)
    decreases |steps|
  {
    if steps != [] {
      if steps[0].Sweep? { MarksGiveGuard(n, steps[0].job); }
      StepKeeps(n, steps[0]);
      SweptStoredKept(n, steps[0]);
      PersistedIsGuarded(Next(n, steps[0]), steps[1..]);
    }
  }

  /** Through insertions, sweeps, evictions and warm-up, the three layers answer as one map
      from each inserted id to its first depth. */
  lemma LayersRefineOneMap(cfg: Settings, steps: seq<Step>, id: EventId)
    requires cfg.diskFallback && PersistedRun(Start(cfg), steps)
    ensures var n := Run(Start(cfg), steps);
            && Lookup(n, id) == (if id in n.born then Some(n.born[id].depth) else None)
            && (Exists(n, id) <==> id in n.born)
  {
    StartInv(cfg);
    PersistedIsGuarded(Start(cfg), steps);
    GuardedRunKeeps(Start(cfg), steps);
    LookupExact(Run(Start(cfg), steps), id);
  }

  /** Query and existence test answer as one map from each inserted id to its first depth. */
  ghost predicate OneMap(n: Node) {
    forall id ::
      && Lookup(n, id) == (if id in n.born then Some(n.born[id].depth) else None)
      && (Exists(n, id) <==> id in n.born)
  }

  /** At every point of the run. */
  ghost predicate AlwaysOneMap(n: Node, steps: seq<Step>)
    decreases |steps|
  {
    OneMap(n) && (steps == [] || AlwaysOneMap(Next(n, steps[0]), steps[1..]))
  }

  lemma OneMapIsComplete(n: Node)
    requires Inv(n) && n.cfg.diskFallback
    ensures OneMap(n) <==> Complete(n)
  {
    if Complete(n) {
      forall id
        ensures Lookup(n, id) == (if id in n.born then Some(n.born[id].depth) else None)
        ensures Exists(n, id) <==> id in n.born
      {
        LookupExact(n, id);
      }
    } else {
      AnswersAreComplete(n);
    }
  }

  lemma {:induction false} OneMapIff(n: Node, steps: seq<Step>)
    requires Inv(n) && Complete(n) && n.cfg.diskFallback && AllowedRun(n, steps)
    ensures AlwaysOneMap(n, steps) <==> GuardedRun(n, steps)
    decreases |steps|
  {
    OneMapIsComplete(n);
    if steps != [] {
      StepKeeps(n, steps[0]);
      SettingsKept(n, steps[0]);
      OneMapIsComplete(Next(n, steps[0]));
      if Guarded(n, steps[0]) {
        CompleteKept(n, steps[0]);
        OneMapIff(Next(n, steps[0]), steps[1..]);
      } else {
        SweepLosesNothingIff(n, steps[0].job);
      }
    }
  }

  /** Over any run of the code, the layers answer as one map throughout exactly when no sweep of it
      could walk to an event that was not persisted. */
  lemma RefinesOneMapIff(cfg: Settings, steps: seq<Step>)
    requires cfg.diskFallback && AllowedRun(Start(cfg), steps)
    ensures AlwaysOneMap(Start(cfg), steps) <==> GuardedRun(Start(cfg), steps)
  {
    StartInv(cfg);
    OneMapIff(Start(cfg), steps);
  }

  /** Also when the three sections of a query are interleaved with everything else, a parent that
      was there when the query began is not reported missing. */
  lemma NoFalseMiss(cfg: Settings, steps: seq<Step>, pid: nat)
    requires cfg.diskFallback && PersistedRun(Start(cfg), steps)
    requires var n := Run(Start(cfg), steps);
             pid in n.adders && n.adders[pid].Asking? && n.adders[pid].known
             && (WantsParent(n.adders[pid], AtCache) || WantsParent(n.adders[pid], AtStore))
    ensures var n := Run(Start(cfg), steps);
            var a := n.adders[pid];
            && (a.section.AtCache? ==> !CacheAnswer(n, a).Failing?)
            && Wanted(a) in n.born
            && (a.section.AtStore? ==> StoreAnswer(n, a) == Found(a, InStore(n.born[Wanted(a)].depth)))
  {
    StartInv(cfg);
    PersistedIsGuarded(Start(cfg), steps);
    GuardedRunKeeps(Start(cfg), steps);
  }
}
