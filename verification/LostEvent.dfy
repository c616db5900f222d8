/** A run in which a sweep takes an event that no layer has kept: two frames are final, the
    child's anchor is persisted and swept first, and the sweep cascades to the parent. */
module LostEvent {
  import opened Types
  import opened DagModel
  import opened Layers
  import opened LayersTheorems

  const PARENT := Event(1, Transfer, [], None, 1, None)
  const CHILD := Event(2, Transfer, [1], None, 2, None)
  const CHILD_ANCHOR := Anchor(Zero, [2], 2, None, None, 1, 0)

  /** Runs one more step. */
  lemma Extend(n: Node, steps: seq<Step>, s: Step) returns (more: seq<Step>)
    requires AllowedRun(n, steps) && Allowed(Run(n, steps), s)
    ensures AllowedRun(n, more) && Run(n, more) == Next(Run(n, steps), s)
  {
    more := steps + [s];
    RunThen(n, steps, [s]);
    RunOne(Run(n, steps), s);
  }

  ghost predicate ParentIn(n: Node) {
    && n.dag.events == map[1 := Stored(PARENT, Pending)] && n.dag.depths == map[1 := 0]
    && n.dag.children == map[] && n.store == map[] && n.born.Keys == {1} && n.floor == 0
  }

  ghost predicate Holds(n: Node, a: Adder) { 0 in n.adders && n.adders[0] == a }

  lemma AddParent(cfg: Settings) returns (steps: seq<Step>)
    ensures AllowedRun(Start(cfg), steps) && ParentIn(Run(Start(cfg), steps))
  {
    var s0 := Start(cfg);
    steps := [];
    steps := Extend(s0, steps, StartAdd(0, Stored(PARENT, Pending)));
    steps := Extend(s0, steps, Measure(0));
    steps := Extend(s0, steps, ApplyFloor(0));
    assert Holds(Run(s0, steps), Ready(Stored(PARENT, Pending), [], 0));
    steps := Extend(s0, steps, Write(0));
  }

  lemma ChildAsks(n: Node)
    requires ParentIn(n) && Holds(n, Asking(Stored(CHILD, Pending), [], AtDag, false))
    ensures ParentIn(Next(n, AskDag(0)))
    ensures Holds(Next(n, AskDag(0)), Asking(Stored(CHILD, Pending), [InDag(0)], AtDag, false))
  {
    assert [] + [InDag(0)] == [InDag(0)];
  }

  lemma ChildMeasures(n: Node)
    requires ParentIn(n) && Holds(n, Asking(Stored(CHILD, Pending), [InDag(0)], AtDag, false))
    ensures ParentIn(Next(n, Measure(0)))
    ensures Holds(Next(n, Measure(0)), Measured(Stored(CHILD, Pending), [InDag(0)], 1))
  {
    assert DeepestFound([InDag(0)]) == 0;
  }

  lemma ChildReady(n: Node)
    requires ParentIn(n) && Holds(n, Measured(Stored(CHILD, Pending), [InDag(0)], 1))
    ensures ParentIn(Next(n, ApplyFloor(0)))
    ensures Holds(Next(n, ApplyFloor(0)), Ready(Stored(CHILD, Pending), [InDag(0)], 1))
  {
    assert FirstTooOld(n.cfg, [1], [InDag(0)], 1).None?;
  }

  ghost predicate BothIn(n: Node, status: EventStatus) {
    && n.dag.events == map[1 := Stored(PARENT, status), 2 := Stored(CHILD, status)]
    && n.dag.depths == map[1 := 0, 2 := 1] && n.dag.children == map[1 := {2}] && n.born.Keys == {1, 2}
  }

  lemma ChildWrites(n: Node)
    requires ParentIn(n) && Holds(n, Ready(Stored(CHILD, Pending), [InDag(0)], 1))
    ensures BothIn(Next(n, Write(0)), Pending) && Next(n, Write(0)).store == map[]
  {
    assert FirstGone({1}, [1], [InDag(0)]).None?;
    var l := Linked(map[], {1}, [1], 2);
    assert Known([1], {1}) == {1};
    assert l.Keys == {1} && l[1] == {2};
    assert l == map[1 := {2}];
    assert n.dag.events.Keys == {1};
    assert WriteError(n, n.adders[0]).None?;
    var m := Next(n, Write(0));
    assert m.dag == Inserted(n.dag, Stored(CHILD, Pending), 1);
    assert m.dag.children == l;
    assert m.born.Keys == {1, 2};
  }

  lemma AddChild(cfg: Settings) returns (steps: seq<Step>)
    ensures AllowedRun(Start(cfg), steps)
    ensures BothIn(Run(Start(cfg), steps), Pending) && Run(Start(cfg), steps).store == map[]
  {
    var s0 := Start(cfg);
    steps := AddParent(cfg);
    steps := Extend(s0, steps, StartAdd(0, Stored(CHILD, Pending)));
    ChildAsks(Run(s0, steps));
    steps := Extend(s0, steps, AskDag(0));
    ChildMeasures(Run(s0, steps));
    steps := Extend(s0, steps, Measure(0));
    ChildReady(Run(s0, steps));
    steps := Extend(s0, steps, ApplyFloor(0));
    ChildWrites(Run(s0, steps));
    steps := Extend(s0, steps, Write(0));
  }

  ghost predicate JobAt(n: Node, j: Job, store: map<EventId, nat>) { 0 in n.jobs && n.jobs[0] == j && n.store == store }

  lemma Marks(n: Node)
    requires BothIn(n, Pending)
    ensures BothIn(Next(n, MarkFinalized([1, 2])), Finalized)
  {
    assert IdSet([1, 2]) == {1, 2};
  }

  lemma Gathers(n: Node)
    requires BothIn(n, Finalized) && n.store == map[]
    ensures BothIn(Next(n, Gather(0, CHILD_ANCHOR)), Finalized)
    ensures JobAt(Next(n, Gather(0, CHILD_ANCHOR)), Gathered(CHILD_ANCHOR, map[2 := 1]), map[])
  {
    var entries := map id | id in CHILD_ANCHOR.eventIds :: n.dag.depths[id];
    assert entries == map[2 := 1];
  }

  lemma Flags(n: Node)
    requires BothIn(n, Finalized) && JobAt(n, Floored(CHILD_ANCHOR), map[2 := 1])
    ensures BothIn(Next(n, Flag(0)), Finalized) && JobAt(Next(n, Flag(0)), Flagged(CHILD_ANCHOR), map[2 := 1])
  {
    assert Marked(n.dag.events, IdSet([2])) == n.dag.events;
  }

  lemma Stores(n: Node)
    requires BothIn(n, Finalized) && JobAt(n, Gathered(CHILD_ANCHOR, map[2 := 1]), map[])
    ensures BothIn(Next(n, Persist(0)), Finalized) && JobAt(Next(n, Persist(0)), Persisted(CHILD_ANCHOR), map[2 := 1])
  {
    assert n.store + map[2 := 1] == map[2 := 1];
  }

  lemma Floors(n: Node)
    requires BothIn(n, Finalized) && JobAt(n, Persisted(CHILD_ANCHOR), map[2 := 1])
    ensures BothIn(Next(n, RaiseFloor(0)), Finalized)
    ensures JobAt(Next(n, RaiseFloor(0)), Floored(CHILD_ANCHOR), map[2 := 1])
  {
  }

  lemma Fills(n: Node)
    requires BothIn(n, Finalized) && JobAt(n, Flagged(CHILD_ANCHOR), map[2 := 1])
    ensures BothIn(Next(n, FillCache(0, 0)), Finalized)
    ensures JobAt(Next(n, FillCache(0, 0)), Cached(CHILD_ANCHOR), map[2 := 1])
  {
  }

  /** Both frames are final; the child's anchor has been persisted, flagged and cached. */
  lemma ChildCached(cfg: Settings) returns (steps: seq<Step>)
    ensures AllowedRun(Start(cfg), steps)
    ensures var n := Run(Start(cfg), steps); BothIn(n, Finalized) && JobAt(n, Cached(CHILD_ANCHOR), map[2 := 1])
  {
    var s0 := Start(cfg);
    steps := AddChild(cfg);
    Marks(Run(s0, steps));
    steps := Extend(s0, steps, MarkFinalized([1, 2]));
    Gathers(Run(s0, steps));
    steps := Extend(s0, steps, Gather(0, CHILD_ANCHOR));
    Stores(Run(s0, steps));
    steps := Extend(s0, steps, Persist(0));
    Floors(Run(s0, steps));
    steps := Extend(s0, steps, RaiseFloor(0));
    Flags(Run(s0, steps));
    steps := Extend(s0, steps, Flag(0));
    Fills(Run(s0, steps));
    steps := Extend(s0, steps, FillCache(0, 0));
  }

  /** The parent is in no layer after the sweep, although it was inserted. */
  lemma SweepCanLoseAnEvent(cfg: Settings) returns (steps: seq<Step>)
    ensures AllowedRun(Start(cfg), steps)
    ensures var n := Run(Start(cfg), steps);
            1 in n.born && 1 !in n.dag.events && 1 !in n.store && !Complete(n)
  {
    var s0 := Start(cfg);
    steps := ChildCached(cfg);
    var n := Run(s0, steps);
    var d := n.dag;
    steps := Extend(s0, steps, Sweep(0));
    assert IdSet([2]) == {2};
    assert Collectable(d, 2) && Collectable(d, 1);
    forall s: set<EventId> | GcClosed(d, {2}, s) ensures 1 in s {
      assert 2 in s && 1 in d.ParentsOf(2);
    }
    assert 1 in GcSet(d, {2});
  }
}
