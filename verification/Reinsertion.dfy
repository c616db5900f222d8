/** Insertion looks for a duplicate in the DAG only.  What happens to the depth of an event that is
    inserted again after it has left the DAG. */
module Reinsertion {
  import opened Types
  import opened DagModel
  import opened Layers
  import opened LayersInv
  import opened LayersTheorems
  import opened LostEvent

  // ---- Depths over runs ----

  /** The deepest of the given events, by first depth. */
  function DeepestBorn(born: History, parents: seq<EventId>): nat {
    if parents == [] then 0
    else Max(if parents[0] in born then born[parents[0]].depth else 0, DeepestBorn(born, parents[1..]))
  }

  /** One below the deepest parent, unless a floor raised it. */
  predicate Lands(depth: nat, raw: nat, floor: nat) { raw <= depth && (depth == raw || depth <= floor) }

  ghost predicate BornLanded(born: History, maxDepth: nat, floor: nat) {
    forall id | id in born ::
      && born[id].depth <= maxDepth
      && (born[id].event.parents != [] ==> Lands(born[id].depth, DeepestBorn(born, born[id].event.parents) + 1, floor))
  }

  ghost predicate AdderLands(a: Adder, floor: nat) {
    match a
    case Measured(s, found, raw) => found != [] ==> raw == DeepestFound(found) + 1
    case Ready(s, found, depth) => found != [] ==> Lands(depth, DeepestFound(found) + 1, floor)
    case _ => true
  }

  ghost predicate Landed(n: Node) {
    && BornLanded(n.born, n.dag.maxDepth, n.floor)
    && (forall pid | pid in n.adders :: AdderLands(n.adders[pid], n.floor))
  }

  lemma {:induction false} FoundIsBorn(found: seq<ParentInfo>, parents: seq<EventId>, born: History)
    requires Resolved(found, parents, born) && |found| == |parents|
    ensures DeepestFound(found) == DeepestBorn(born, parents)
    decreases |found|
  {
    if found != [] {
      assert found[0].depth == born[parents[0]].depth;
      assert Resolved(found[1..], parents[1..], born);
      FoundIsBorn(found[1..], parents[1..], born);
    }
  }

  lemma {:induction false} BirthIsLater(born: History, parents: seq<EventId>, id: EventId, b: Birth)
    requires forall p | p in parents :: p in born
    requires id !in born
    ensures DeepestBorn(born[id := b], parents) == DeepestBorn(born, parents)
    decreases |parents|
  {
    if parents != [] {
      assert parents[0] in parents;
      BirthIsLater(born, parents[1..], id, b);
    }
  }

  lemma BirthLands(born: History, id: EventId, b: Birth, maxDepth: nat, floor: nat)
    requires BornLanded(born, maxDepth, floor) && BornSound(born) && id !in born
    requires forall p | p in b.event.parents :: p in born
    requires b.event.parents != [] ==> Lands(b.depth, DeepestBorn(born, b.event.parents) + 1, floor)
    ensures BornLanded(born[id := b], Max(maxDepth, b.depth), floor)
  {
    var now := born[id := b];
    forall x | x in now && now[x].event.parents != []
      ensures Lands(now[x].depth, DeepestBorn(now, now[x].event.parents) + 1, floor)
    {
      BirthIsLater(born, now[x].event.parents, id, b);
    }
  }

  lemma HigherFloor(n: Node, floor: nat)
    requires Landed(n) && n.floor <= floor
    ensures Landed(n.(floor := floor))
  {
    forall pid | pid in n.adders ensures AdderLands(n.adders[pid], floor) { assert AdderLands(n.adders[pid], n.floor); }
  }

  lemma OneAdderLands(n: Node, pid: nat, a: Adder)
    requires Landed(n) && AdderLands(a, n.floor)
    ensures Landed(n.(adders := n.adders[pid := a]))
  {
  }

  lemma WriteLands(n: Node, pid: nat)
    requires Inv(n) && Landed(n) && Allowed(n, Write(pid)) && pid in n.adders && n.adders[pid].Ready?
    ensures Landed(Next(n, Write(pid)))
  {
    var a := n.adders[pid];
    assert AdderOk(a, n.born) && AdderLands(a, n.floor);
    match WriteError(n, a)
    case Some(e) => OneAdderLands(n, pid, Failing(e));
    case None =>
      var e := a.s.event;
      FoundIsBorn(a.found, e.parents, n.born);
      forall p | p in e.parents ensures p in n.born { var i :| 0 <= i < |e.parents| && e.parents[i] == p; }
      BirthLands(n.born, e.id, Birth(e, a.depth, FoundInDag(e.parents, a.found)), n.dag.maxDepth, n.floor);
      OneAdderLands(n.(dag := Written(n, pid, a).dag, born := Written(n, pid, a).born), pid, Added);
  }

  lemma AdderStepLands(n: Node, step: Step)
    requires Inv(n) && Landed(n) && Allowed(n, step) && IsAdderStep(step)
    ensures Landed(Next(n, step))
  {
    if step.Write? {
      if step.pid in n.adders && n.adders[step.pid].Ready? { WriteLands(n, step.pid); }
    } else if step.pid in n.adders {
      assert AdderLands(n.adders[step.pid], n.floor) && AdderOk(n.adders[step.pid], n.born);
    }
  }

  lemma StepLands(n: Node, step: Step)
    requires Inv(n) && Landed(n) && Allowed(n, step)
    ensures Landed(Next(n, step))
  {
    if IsAdderStep(step) { AdderStepLands(n, step); } else { OtherStepLands(n, step); }
  }

  lemma OtherStepLands(n: Node, step: Step)
    requires Landed(n) && !IsAdderStep(step)
    ensures Landed(Next(n, step))
  {
    var m := Next(n, step);
    assert m.born == n.born && m.adders == n.adders && m.dag.maxDepth == n.dag.maxDepth && n.floor <= m.floor;
    HigherFloor(n, m.floor);
  }

  lemma {:induction false} RunLands(n: Node, steps: seq<Step>)
    requires Inv(n) && Landed(n) && AllowedRun(n, steps)
    ensures Inv(Run(n, steps)) && Landed(Run(n, steps))
    decreases |steps|
  {
    if steps != [] {
      StepKeeps(n, steps[0]);
      StepLands(n, steps[0]);
      RunLands(Next(n, steps[0]), steps[1..]);
    }
  }

  // ---- Writing an id again ----

  /** The rest of an add whose parents are all found, undisturbed. */
  ghost function Finished(n: Node, pid: nat): Node { Next(Next(Next(n, Measure(pid)), ApplyFloor(pid)), Write(pid)) }

  /** An adder has found all parents of an event that was inserted before and has left the DAG. */
  ghost predicate Returns(n: Node, pid: nat) {
    && pid in n.adders && FullyFound(n.adders[pid])
    && var e := n.adders[pid].s.event;
       e.id in n.born && n.born[e.id].event == e && e.id !in n.dag.events
  }

  /** That add succeeds. */
  ghost predicate Succeeds(n: Node, pid: nat) {
    Returns(n, pid) && pid in Finished(n, pid).adders && Finished(n, pid).adders[pid].Added?
  }

  lemma MeasuredAt(n: Node, pid: nat)
    requires pid in n.adders && FullyFound(n.adders[pid])
    ensures var a := n.adders[pid];
            var b := Measured(a.s, a.found, RawDepth(n.dag, a.found));
            && Next(n, Measure(pid)) == n.(adders := n.adders[pid := b])
            && Next(Next(n, Measure(pid)), ApplyFloor(pid)).adders == n.adders[pid := b][pid := FloorAnswer(n, b)]
            && Next(Next(n, Measure(pid)), ApplyFloor(pid)).dag == n.dag
  {
  }

  lemma WrittenDepth(n: Node, pid: nat)
    requires pid in n.adders && n.adders[pid].Ready? && |n.adders[pid].found| == |n.adders[pid].s.event.parents|
    requires pid in Next(n, Write(pid)).adders && Next(n, Write(pid)).adders[pid].Added?
    ensures Lookup(Next(n, Write(pid)), n.adders[pid].s.event.id) == Some(n.adders[pid].depth)
  {
  }

  lemma FailedStays(n: Node, pid: nat)
    requires pid in n.adders && n.adders[pid].Failing?
    ensures Next(n, Write(pid)) == n
  {
  }

  lemma FinishedDepth(n: Node, pid: nat)
    requires Succeeds(n, pid)
    ensures var a := n.adders[pid];
            Lookup(Finished(n, pid), a.s.event.id) == Some(Max(RawDepth(n.dag, a.found), n.floor))
  {
    MeasuredAt(n, pid);
    var m := Next(Next(n, Measure(pid)), ApplyFloor(pid));
    if m.adders[pid].Failing? { FailedStays(m, pid); } else { WrittenDepth(m, pid); }
  }

  lemma SameDepthIff(n: Node, pid: nat)
    requires Inv(n) && Landed(n) && Returns(n, pid)
    ensures var a := n.adders[pid];
            var e := a.s.event;
            Max(RawDepth(n.dag, a.found), n.floor) == n.born[e.id].depth <==>
            if e.parents != [] then n.floor <= n.born[e.id].depth
            else n.dag.events == map[] && n.dag.maxDepth == 0 && n.floor == 0
  {
    var a := n.adders[pid];
    assert AdderOk(a, n.born);
    FoundIsBorn(a.found, a.s.event.parents, n.born);
  }

  /** The first depth is kept exactly when the floor has not risen above it; an event without
      parents keeps it only in a DAG that is still as at the start. */
  lemma ReinsertionKeepsDepthIff(cfg: Settings, steps: seq<Step>, pid: nat)
    requires AllowedRun(Start(cfg), steps) && Succeeds(Run(Start(cfg), steps), pid)
    ensures var n := Run(Start(cfg), steps);
            var e := n.adders[pid].s.event;
            Lookup(Finished(n, pid), e.id) == Some(n.born[e.id].depth) <==>
            if e.parents != [] then n.floor <= n.born[e.id].depth
            else n.dag.events == map[] && n.dag.maxDepth == 0 && n.floor == 0
  {
    StartInv(cfg);
    RunLands(Start(cfg), steps);
    FinishedDepth(Run(Start(cfg), steps), pid);
    SameDepthIff(Run(Start(cfg), steps), pid);
  }

  // ---- A run in which the depth changes ----

  const OWN_ANCHOR := Anchor(Zero, [1], 1, None, None, 0, 0)

  ghost predicate Alone(n: Node, status: EventStatus, floor: nat) {
    && n.dag.events == map[1 := Stored(PARENT, status)] && n.dag.depths == map[1 := 0] && n.dag.children == map[]
    && n.born.Keys == {1} && n.born[1].event == PARENT && n.born[1].depth == 0 && n.floor == floor
  }

  lemma GathersOwn(n: Node)
    requires Alone(n, Pending, 0) && n.store == map[]
    ensures Alone(Next(n, Gather(0, OWN_ANCHOR)), Pending, 0)
    ensures JobAt(Next(n, Gather(0, OWN_ANCHOR)), Gathered(OWN_ANCHOR, map[1 := 0]), map[])
  {
    var entries := map id | id in OWN_ANCHOR.eventIds :: n.dag.depths[id];
    assert entries == map[1 := 0];
  }

  lemma StoresOwn(n: Node)
    requires Alone(n, Pending, 0) && JobAt(n, Gathered(OWN_ANCHOR, map[1 := 0]), map[])
    ensures Alone(Next(n, Persist(0)), Pending, 0) && JobAt(Next(n, Persist(0)), Persisted(OWN_ANCHOR), map[1 := 0])
  {
    assert n.store + map[1 := 0] == map[1 := 0];
  }

  lemma FloorsOwn(n: Node)
    requires Alone(n, Pending, 0) && JobAt(n, Persisted(OWN_ANCHOR), map[1 := 0])
    ensures Alone(Next(n, RaiseFloor(0)), Pending, 1) && JobAt(Next(n, RaiseFloor(0)), Floored(OWN_ANCHOR), map[1 := 0])
  {
  }

  lemma FlagsOwn(n: Node)
    requires Alone(n, Pending, 1) && JobAt(n, Floored(OWN_ANCHOR), map[1 := 0])
    ensures Alone(Next(n, Flag(0)), Finalized, 1) && JobAt(Next(n, Flag(0)), Flagged(OWN_ANCHOR), map[1 := 0])
  {
    assert IdSet([1]) == {1};
    assert Marked(n.dag.events, {1}) == map[1 := Stored(PARENT, Finalized)];
  }

  lemma FillsOwn(n: Node)
    requires Alone(n, Finalized, 1) && JobAt(n, Flagged(OWN_ANCHOR), map[1 := 0])
    ensures Alone(Next(n, FillCache(0, 0)), Finalized, 1)
    ensures JobAt(Next(n, FillCache(0, 0)), Cached(OWN_ANCHOR), map[1 := 0])
  {
  }

  ghost predicate Gone(n: Node) {
    n.dag.events == map[] && n.born.Keys == {1} && n.born[1].event == PARENT && n.born[1].depth == 0 && n.floor == 1
  }

  lemma SweepsOwn(n: Node)
    requires Alone(n, Finalized, 1) && JobAt(n, Cached(OWN_ANCHOR), map[1 := 0])
    ensures Gone(Next(n, Sweep(0)))
  {
    assert IdSet([1]) == {1};
    assert Collectable(n.dag, 1);
    assert SweepPath(n.dag, {1}, [1]);
    GcSetIsReached(n.dag, {1}, 1);
    assert n.dag.events - GcSet(n.dag, {1}) == map[];
  }

  lemma AsksAgain(n: Node)
    requires Gone(n)
    ensures var m := Next(n, StartAdd(1, Stored(PARENT, Pending)));
            Gone(m) && Returns(m, 1) && m.adders[1] == Asking(Stored(PARENT, Pending), [], AtDag, false)
  {
  }

  lemma LandsDeeper(n: Node)
    requires Gone(n) && Returns(n, 1) && n.adders[1] == Asking(Stored(PARENT, Pending), [], AtDag, false)
    ensures Succeeds(n, 1) && 1 in n.born && Lookup(Finished(n, 1), 1) != Some(n.born[1].depth)
  {
    var m := Next(Next(n, Measure(1)), ApplyFloor(1));
    assert m.adders[1].Ready? && m.adders[1].found == [];
    assert m.dag.events == map[];
    FinishedDepth(n, 1);
  }

  /** An event is folded, persisted and swept, and inserted again under the floor its own anchor
      has raised: it comes back at another depth. */
  lemma ReinsertionCanChangeDepth(cfg: Settings) returns (steps: seq<Step>)
    ensures AllowedRun(Start(cfg), steps)
    ensures var n := Run(Start(cfg), steps);
            Succeeds(n, 1) && 1 in n.born && Lookup(Finished(n, 1), 1) != Some(n.born[1].depth)
  {
    var s0 := Start(cfg);
    StartInv(cfg);
    steps := AddParent(cfg);
    RunKeeps(s0, steps);
    assert Alone(Run(s0, steps), Pending, 0);
    GathersOwn(Run(s0, steps));
    steps := Extend(s0, steps, Gather(0, OWN_ANCHOR));
    StoresOwn(Run(s0, steps));
    steps := Extend(s0, steps, Persist(0));
    FloorsOwn(Run(s0, steps));
    steps := Extend(s0, steps, RaiseFloor(0));
    FlagsOwn(Run(s0, steps));
    steps := Extend(s0, steps, Flag(0));
    FillsOwn(Run(s0, steps));
    steps := Extend(s0, steps, FillCache(0, 0));
    SweepsOwn(Run(s0, steps));
    steps := Extend(s0, steps, Sweep(0));
    AsksAgain(Run(s0, steps));
    steps := Extend(s0, steps, StartAdd(1, Stored(PARENT, Pending)));
    LandsDeeper(Run(s0, steps));
  }
}
