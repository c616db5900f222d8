/** How long a pending event can be passed over. */
module Wait {
  import opened Types
  import opened Order
  import opened FoldPolicy
  import opened DagModel
  import opened BuilderModel
  import opened ManagerModel
  import opened Lifecycle
  import opened Calls
  import opened LifecycleRuns
  import opened Once

  function PendingEvents(d: DagState): set<Event> {
    set id | id in d.pending && id in d.events :: d.events[id].event
  }

  // ---- What a build takes ----

  lemma {:induction false} EligibleAll(listing: seq<Event>)
    ensures Eligible(listing, {}) == listing
    decreases |listing|
  {
    if listing != [] { EligibleAll(listing[1..]); }
  }

  /** With room for one event and a minimum of at most one, a build over pending events succeeds as
      soon as its time guard is met. */
  lemma RoundSucceeds(b: Builder, listing: seq<Event>, maxDepth: nat, time: nat, interval: nat, timestamp: nat)
    requires b.cfg.maxEvents >= 1 && b.cfg.minEvents <= 1 && listing != []
    ensures var built := Ready(PrepareFrom(b, Select(b.cfg, listing, {}), time, maxDepth, timestamp));
            && (Delta(b, time) >= b.cfg.deltaThreshold <==> Prepare(b, listing, maxDepth, time, {}, timestamp) == built)
            && ((b.lastFoldAt.Some? ==> timestamp >= b.lastFoldAt.value + interval) <==>
                PrepareHeartbeat(b, listing, maxDepth, time, interval, {}, timestamp) == built)
  {
    EligibleAll(listing);
    SmallestIsKept(listing);
  }

  lemma FirstIsSmallest(listing: seq<Event>, sorted: seq<Event>, e: Event)
    requires multiset(sorted) == multiset(listing) && Sorted(sorted) && DistinctIds(listing) && e in listing
    ensures sorted != [] && sorted[0] in listing && (sorted[0] == e || Before(sorted[0], e))
  {
    SameElements(listing, sorted);
    DistinctKept(listing, sorted);
    var k :| 0 <= k < |sorted| && sorted[k] == e;
    assert sorted[0] in sorted;
  }

  /** Every build takes the smallest pending event. */
  lemma SmallestIsTaken(cfg: Config, listing: seq<Event>)
    requires cfg.maxEvents >= 1 && listing != []
    ensures SortByVlc(listing)[0] in Select(cfg, listing, {})
  {
    EligibleAll(listing);
    SmallestIsKept(listing);
    assert Select(cfg, listing, {})[0] == SortByVlc(listing)[0];
  }

  /** The pending events that may be folded before `e`, and `e` itself; none once `e` is folded. */
  function LeadIds(d: DagState, e: Event): set<EventId> {
    if e in PendingEvents(d) then (set x | x in PendingEvents(d) && (x == e || Before(x, e)) :: x.id) else {}
  }

  lemma PreparedTakes(m: Manager, p: Proposal)
    requires InFlight(m) == {} && PrepareProposal(m, p).Ready?
    ensures PrepareProposal(m, p).build.anchor.eventIds == IdsOf(Select(m.builder.cfg, p.pending, {}))
  {
  }

  /** Proposals are made with no frame's events in flight. */
  ghost predicate Quiet(n: Node, step: Step) { step.Engine? && step.t.call.Create? ==> n.m.frameEvents == map[] }

  lemma ProposesLead(n: Node, call: Call, e: Event)
    requires Admits(n, call) && n.m.builder.cfg.maxEvents >= 1 && (call.Create? ==> n.m.frameEvents == map[])
    ensures Proposes(n.m, call, LeadIds(n.dag, e))
  {
    if call.Create? && e in PendingEvents(n.dag) && n.m.builds == map[] && PrepareProposal(n.m, call.p).Ready? {
      assert InFlight(n.m) == {};
      PreparedTakes(n.m, call.p);
      SomeLeadIsTaken(n.dag, n.m.builder.cfg, call.p.pending, e);
    }
  }

  lemma SomeLeadIsTaken(d: DagState, cfg: Config, listing: seq<Event>, e: Event)
    requires Lists(d, listing) && cfg.maxEvents >= 1 && e in PendingEvents(d)
    ensures exists id :: id in LeadIds(d, e) && id in IdsOf(Select(cfg, listing, {}))
  {
    assert e in listing;
    FirstIsSmallest(listing, SortByVlc(listing), e);
    SmallestIsTaken(cfg, listing);
    var x := SortByVlc(listing)[0];
    assert x in PendingEvents(d) && x.id in LeadIds(d, e);
    IdsAre(Select(cfg, listing, {}));
    assert x.id in IdSet(IdsOf(Select(cfg, listing, {})));
  }

  // ---- Steps ----

  /** The open build, or the one about to be marked, brings `e` forward. */
  ghost predicate Waiting(n: Node, e: Event) {
    && (e.id in n.dag.events ==> n.dag.events[e.id].event == e) && e.id in n.added
    && Owned(n.m, Free(n), LeadIds(n.dag, e))
    && (n.unmarked.Some? && n.built ==> Leads(n.unmarked.value, LeadIds(n.dag, e)))
  }

  ghost predicate Leads(a: Anchor, lead: set<EventId>) { lead != {} ==> exists id :: id in lead && id in a.eventIds }

  /** One round: an anchor the node has built became final and is marked in the DAG. */
  function RoundsIn(n: Node, step: Step): nat { if step.Mark? && n.unmarked.Some? && n.built then 1 else 0 }

  ghost predicate Progress(n: Node, step: Step, e: Event) {
    var r := Once.Next(n, step);
    && Waiting(r, e) && r.m.builder.cfg == n.m.builder.cfg
    && (e in PendingEvents(r.dag) ==>
          && e in PendingEvents(n.dag)
          && |Smaller(PendingEvents(r.dag), e)| + RoundsIn(n, step) <= |Smaller(PendingEvents(n.dag), e)|)
  }

  lemma Fewer(a: set<Event>, b: set<Event>, x: Event)
    requires a <= b && x in b && x !in a
    ensures |a| < |b|
  {
    Subset(a, b - {x});
  }

  lemma Subset(a: set<Event>, b: set<Event>)
    requires a <= b
    ensures |a| <= |b|
  {
    assert b == a + (b - a);
  }

  lemma InsertedPending(d: DagState, s: Stored, depth: nat, e: Event)
    requires d.Consistent() && s.event.id !in d.events && s.event.id != e.id && !Before(s.event, e)
    ensures var r := Inserted(d, s, depth);
            && (e in PendingEvents(r) <==> e in PendingEvents(d))
            && Smaller(PendingEvents(r), e) == Smaller(PendingEvents(d), e) && LeadIds(r, e) == LeadIds(d, e)
  {
    var r := Inserted(d, s, depth);
    forall y | y != s.event ensures y in PendingEvents(r) <==> y in PendingEvents(d) {
      if y in PendingEvents(r) {
        var id :| id in r.pending && id in r.events && r.events[id].event == y;
        assert id != s.event.id;
      }
      if y in PendingEvents(d) {
        var id :| id in d.pending && id in d.events && d.events[id].event == y;
        assert id in r.pending && r.events[id].event == y;
      }
    }
  }

  /** More free events, same leaders: the builds still fit. */
  lemma FreerOwned(m: Manager, free: set<EventId>, more: set<EventId>, must: set<EventId>)
    requires Owned(m, free, must) && free <= more
    ensures Owned(m, more, must)
  {
  }

  lemma AddWaits(n: Node, s: Stored, depth: nat, e: Event)
    requires Once.Inv(n) && Waiting(n, e) && Once.Allowed(n, Add(s, depth)) && !Before(s.event, e)
    ensures Progress(n, Add(s, depth), e)
  {
    InsertedPending(n.dag, s, depth, e);
    var r := Once.Next(n, Add(s, depth));
    FreerOwned(n.m, Free(n), Free(r), LeadIds(n.dag, e));
  }

  lemma ApartOwned(m: Manager, free: set<EventId>, ids: set<EventId>, must: set<EventId>)
    requires Owned(m, free, must) && forall id | id in m.builds :: IdSet(m.builds[id].anchor.eventIds) !! ids
    ensures Owned(m, free - ids, must)
  {
  }

  lemma FinalApart(n: Node, t: Turn, lead: set<EventId>)
    requires Once.Inv(n) && Once.Allowed(n, Engine(t)) && Careful(n, t) && Do(n.m, t).1.Finalizes?
    requires Tidy(n.m, t.call, Do(n.m, t).0, Free(n), lead) && FinalFits(n.m, t, Free(n), lead)
    ensures Owned(Do(n.m, t).0, Free(n) - IdSet(Target(n.m, t).value.eventIds), lead)
  {
    var r := Do(n.m, t).0;
    var ids := IdSet(Target(n.m, t).value.eventIds);
    forall id | id in r.builds ensures IdSet(r.builds[id].anchor.eventIds) !! ids {
      assert !HasBuild(n.m, t.call);
      assert r.builds[id] == n.m.builds[id];
    }
    ApartOwned(r, Free(n), ids, lead);
  }

  /** After an engine call the DAG is as before, so only the manager's side has to be shown. */
  lemma SameDagWaits(n: Node, r: Node, e: Event)
    requires Waiting(n, e) && r.dag == n.dag && r.added == n.added && r.m.builder.cfg == n.m.builder.cfg
    requires Owned(r.m, Free(r), LeadIds(n.dag, e))
    requires r.unmarked.Some? && r.built ==> Leads(r.unmarked.value, LeadIds(n.dag, e))
    ensures Waiting(r, e)
  {
  }

  lemma QuietWaiting(n: Node, t: Turn, e: Event)
    requires Waiting(n, e) && n.unmarked.None? && !Do(n.m, t).1.Finalizes?
    requires Tidy(n.m, t.call, Do(n.m, t).0, Free(n), LeadIds(n.dag, e))
    ensures Waiting(Once.Next(n, Engine(t)), e)
  {
    SameDagWaits(n, Once.Next(n, Engine(t)), e);
  }

  lemma FinalWaiting(n: Node, t: Turn, e: Event)
    requires Once.Inv(n) && Waiting(n, e) && Once.Allowed(n, Engine(t)) && Careful(n, t) && Do(n.m, t).1.Finalizes?
    requires Tidy(n.m, t.call, Do(n.m, t).0, Free(n), LeadIds(n.dag, e))
    requires FinalFits(n.m, t, Free(n), LeadIds(n.dag, e))
    ensures Waiting(Once.Next(n, Engine(t)), e)
  {
    FinalApart(n, t, LeadIds(n.dag, e));
    var a := Target(n.m, t).value;
    FinalWaits(n, n.(m := Do(n.m, t).0, log := n.log + NewAnchor(n.m, t), unmarked := Some(a),
                     built := HasBuild(n.m, t.call), proposed := n.proposed + Opened(n.m, t.call)), a, e);
  }

  lemma FinalWaits(n: Node, r: Node, a: Anchor, e: Event)
    requires Waiting(n, e) && n.unmarked.None? && r.dag == n.dag && r.added == n.added && r.unmarked == Some(a)
    requires Owned(r.m, Free(n) - IdSet(a.eventIds), LeadIds(n.dag, e)) && r.m.builder.cfg == n.m.builder.cfg
    requires r.built ==> Fits(a, Free(n), LeadIds(n.dag, e))
    ensures Waiting(r, e)
  {
    assert Free(r) == Free(n) - IdSet(a.eventIds);
    SameDagWaits(n, r, e);
  }

  lemma EngineWaiting(n: Node, t: Turn, e: Event)
    requires Once.Inv(n) && Waiting(n, e) && Once.Allowed(n, Engine(t)) && Careful(n, t) && Quiet(n, Engine(t))
    requires n.m.builder.cfg.maxEvents >= 1
    ensures Waiting(Once.Next(n, Engine(t)), e) && Do(n.m, t).0.builder.cfg == n.m.builder.cfg
  {
    ProposesLead(n, t.call, e);
    EngineTidy(n, t, LeadIds(n.dag, e));
    if Do(n.m, t).1.Finalizes? {
      EngineFinal(n, t, LeadIds(n.dag, e));
      FinalWaiting(n, t, e);
    } else {
      QuietWaiting(n, t, e);
    }
  }

  lemma EngineWaits(n: Node, t: Turn, e: Event)
    requires Once.Inv(n) && Waiting(n, e) && Once.Allowed(n, Engine(t)) && Careful(n, t) && Quiet(n, Engine(t))
    requires n.m.builder.cfg.maxEvents >= 1
    ensures Progress(n, Engine(t), e)
  {
    EngineWaiting(n, t, e);
    assert Once.Next(n, Engine(t)).dag == n.dag;
  }

  lemma MarkedPending(d: DagState, ids: set<EventId>, e: Event)
    requires d.Consistent() && e in PendingEvents(FinalizedIn(d, ids))
    ensures e in PendingEvents(d)
    ensures PendingEvents(FinalizedIn(d, ids)) <= PendingEvents(d)
    ensures forall x | x in PendingEvents(d) :: x in PendingEvents(FinalizedIn(d, ids)) <==> x.id !in ids
  {
    var r := FinalizedIn(d, ids);
    forall y | y in PendingEvents(r) ensures y in PendingEvents(d) && y.id !in ids {
      var id :| id in r.pending && id in r.events && r.events[id].event == y;
      assert d.events[id].event == y && y.id == id;
    }
    forall x | x in PendingEvents(d) && x.id !in ids ensures x in PendingEvents(r) {
      var id :| id in d.pending && id in d.events && d.events[id].event == x;
      assert id == x.id && id in r.pending && r.events[id].event == x;
    }
  }

  /** Marking leaves those leaders whose events it does not take. */
  lemma MarkedLeads(d: DagState, ids: set<EventId>, e: Event)
    requires d.Consistent() && e in PendingEvents(FinalizedIn(d, ids))
    ensures LeadIds(FinalizedIn(d, ids), e) == LeadIds(d, e) - ids
    ensures |Smaller(PendingEvents(FinalizedIn(d, ids)), e)| <= |Smaller(PendingEvents(d), e)|
    ensures (exists id :: id in LeadIds(d, e) && id in ids) ==>
              |Smaller(PendingEvents(FinalizedIn(d, ids)), e)| < |Smaller(PendingEvents(d), e)|
  {
    MarkedPending(d, ids, e);
    var a, b := Smaller(PendingEvents(FinalizedIn(d, ids)), e), Smaller(PendingEvents(d), e);
    Subset(a, b);
    if id :| id in LeadIds(d, e) && id in ids {
      var x :| x in PendingEvents(d) && (x == e || Before(x, e)) && x.id == id;
      Fewer(a, b, x);
    }
  }

  lemma LessMust(m: Manager, free: set<EventId>, lead: set<EventId>, ids: set<EventId>)
    requires Owned(m, free, lead) && free !! ids
    ensures Owned(m, free, lead - ids)
  {
    forall id | id in m.builds ensures Fits(m.builds[id].anchor, free, lead - ids) {
      var a := m.builds[id].anchor;
      if lead - ids != {} {
        var x :| x in lead && x in a.eventIds;
        assert x in IdSet(a.eventIds);
      }
    }
  }

  lemma MarkWaits(n: Node, e: Event)
    requires Once.Inv(n) && Waiting(n, e)
    ensures Progress(n, Mark, e)
  {
    if n.unmarked.Some? {
      var ids := IdSet(n.unmarked.value.eventIds);
      var r := Once.Next(n, Mark);
      assert Free(r) == Free(n) && Free(n) !! ids;
      if e in PendingEvents(r.dag) {
        MarkedLeads(n.dag, ids, e);
        LessMust(n.m, Free(n), LeadIds(n.dag, e), ids);
        assert e.id in LeadIds(n.dag, e) by { MarkedPending(n.dag, ids, e); }
      } else {
        assert LeadIds(r.dag, e) == {};
      }
    }
  }

  lemma SweepWaits(n: Node, targets: set<EventId>, e: Event)
    requires Once.Inv(n) && Waiting(n, e)
    ensures Progress(n, Sweep(targets), e)
  {
    GcSetCollectable(n.dag, targets);
    assert GcSet(n.dag, targets) !! n.dag.pending;
    SweptOk(n.dag, n.added, targets);
    assert Free(Once.Next(n, Sweep(targets))) == Free(n);
    SweptPending(n.dag, GcSet(n.dag, targets));
  }

  lemma SweptPending(d: DagState, gone: set<EventId>)
    requires d.Consistent() && gone !! d.pending
    ensures PendingEvents(Without(d, gone)) == PendingEvents(d)
  {
    var r := Without(d, gone);
    forall y ensures y in PendingEvents(r) <==> y in PendingEvents(d) {
      if y in PendingEvents(d) {
        var id :| id in d.pending && id in d.events && d.events[id].event == y;
        assert id in r.pending && r.events[id].event == y;
      }
      if y in PendingEvents(r) {
        var id :| id in r.pending && id in r.events && r.events[id].event == y;
        assert id in d.pending && d.events[id].event == y;
      }
    }
  }

  // ---- Runs ----

  ghost predicate NoSmallerArrives(steps: seq<Step>, e: Event) {
    forall i | 0 <= i < |steps| && steps[i].Add? :: !Before(steps[i].s.event, e)
  }

  ghost function Rounds(n: Node, steps: seq<Step>): nat {
    if steps == [] then 0
    else Rounds(n, steps[..|steps| - 1]) + RoundsIn(After(n, steps[..|steps| - 1]), steps[|steps| - 1])
  }

  ghost predicate QuietRun(n: Node, steps: seq<Step>) {
    steps == [] || (QuietRun(n, steps[..|steps| - 1]) && Quiet(After(n, steps[..|steps| - 1]), steps[|steps| - 1]))
  }

  lemma CheckWaits(n: Node, f: Frame, e: Event)
    requires Waiting(n, e)
    ensures Progress(n, Check(f), e)
  {
  }

  lemma StepWaits(n: Node, step: Step, e: Event)
    requires Once.Inv(n) && Waiting(n, e) && Once.Allowed(n, step) && CarefulStep(n, step) && Quiet(n, step)
    requires n.m.builder.cfg.maxEvents >= 1
    requires step.Add? ==> !Before(step.s.event, e)
    ensures Progress(n, step, e)
  {
    match step
    case Add(s, depth) => AddWaits(n, s, depth, e);
    case Check(f) => CheckWaits(n, f, e);
    case Engine(t) => EngineWaits(n, t, e);
    case Mark => MarkWaits(n, e);
    case Sweep(targets) => SweepWaits(n, targets, e);
  }

  lemma {:induction false} RunWaits(n: Node, steps: seq<Step>, e: Event)
    requires Once.Inv(n) && Waiting(n, e) && AllowedRun(n, steps) && CarefulRun(n, steps) && QuietRun(n, steps)
    requires n.m.builder.cfg.maxEvents >= 1 && NoSmallerArrives(steps, e)
    ensures var r := After(n, steps);
            && Once.Inv(r) && Waiting(r, e) && r.m.builder.cfg == n.m.builder.cfg
            && (e in PendingEvents(r.dag) ==>
                  |Smaller(PendingEvents(r.dag), e)| + Rounds(n, steps) <= |Smaller(PendingEvents(n.dag), e)|)
    decreases |steps|
  {
    if steps != [] {
      var before, last := steps[..|steps| - 1], steps[|steps| - 1];
      RunWaits(n, before, e);
      StepWaits(After(n, before), last, e);
      StepKeeps(After(n, before), last);
    }
  }

  lemma StartsWaiting(n: Node, e: Event)
    requires Once.Inv(n) && n.m.builds == map[] && n.unmarked.None? && e in PendingEvents(n.dag)
    ensures Waiting(n, e) && e.id in n.dag.pending
  {
  }

  /** From a state with nothing in flight, an event with k smaller ones pending is in a final anchor
      after k + 1 rounds, if no smaller one arrives; failed builds, rejections, timeouts, frames of
      other proposers, later arrivals and sweeps in between do not matter. */
  lemma BoundedWait(n: Node, steps: seq<Step>, e: Event)
    requires Once.Inv(n) && n.m.builds == map[] && n.unmarked.None? && e in PendingEvents(n.dag)
    requires n.m.builder.cfg.maxEvents >= 1 && NoSmallerArrives(steps, e)
    requires AllowedRun(n, steps) && CarefulRun(n, steps) && QuietRun(n, steps)
    requires Rounds(n, steps) > |Smaller(PendingEvents(n.dag), e)|
    ensures e.id !in After(n, steps).dag.pending && e.id in Folded(After(n, steps).log)
  {
    StartsWaiting(n, e);
    RunWaits(n, steps, e);
    var r := After(n, steps);
    assert r.added == r.dag.pending + Folded(r.log);
    assert e.id in r.added;
    assert e.id in r.dag.pending ==> e in PendingEvents(r.dag);
  }

  // ---- The pending set ----

  /** An anchor the node has built and is about to mark is not empty. */
  ghost predicate NotEmpty(n: Node) { n.unmarked.Some? && n.built ==> n.unmarked.value.eventIds != [] }

  lemma Shrinks(a: set<EventId>, ids: set<EventId>)
    requires ids <= a
    ensures |a - ids| + |ids| == |a|
  {
    assert a == (a - ids) + ids;
  }

  lemma MarkDrains(n: Node)
    requires Once.Inv(n) && NotEmpty(n)
    ensures |Once.Next(n, Mark).dag.pending| + RoundsIn(n, Mark) <= |n.dag.pending|
  {
    if n.unmarked.Some? {
      var a := n.unmarked.value;
      Shrinks(n.dag.pending, IdSet(a.eventIds));
      if n.built { assert a.eventIds[0] in IdSet(a.eventIds); }
    }
  }

  lemma EngineNotEmpty(n: Node, t: Turn)
    requires Once.Inv(n) && Once.Allowed(n, Engine(t)) && Careful(n, t)
    ensures NotEmpty(Once.Next(n, Engine(t)))
  {
    if Do(n.m, t).1.Finalizes? { EngineFinal(n, t, {}); }
  }

  lemma StepDrains(n: Node, step: Step)
    requires Once.Inv(n) && NotEmpty(n) && Once.Allowed(n, step) && CarefulStep(n, step) && !step.Add?
    ensures NotEmpty(Once.Next(n, step)) && |Once.Next(n, step).dag.pending| + RoundsIn(n, step) <= |n.dag.pending|
  {
    match step
    case Check(f) =>
    case Engine(t) => EngineNotEmpty(n, t);
    case Mark => MarkDrains(n);
    case Sweep(targets) => SweptOk(n.dag, n.added, targets);
  }

  /** Left alone, the pending set loses an event in every round, so it is empty after at most as many
      rounds as it had events. */
  lemma {:induction false} PendingDrains(n: Node, steps: seq<Step>)
    requires Once.Inv(n) && NotEmpty(n) && (forall s | s in steps :: !s.Add?)
    requires AllowedRun(n, steps) && CarefulRun(n, steps)
    ensures Once.Inv(After(n, steps)) && NotEmpty(After(n, steps))
    ensures |After(n, steps).dag.pending| + Rounds(n, steps) <= |n.dag.pending|
    decreases |steps|
  {
    if steps != [] {
      var before, last := steps[..|steps| - 1], steps[|steps| - 1];
      PendingDrains(n, before);
      StepDrains(After(n, before), last);
      StepKeeps(After(n, before), last);
    }
  }
}
