/** What becomes of every event a node is given: it stays pending until exactly one final anchor
    names it, as long as the node looks before it makes a frame final that it has no build for. */
module Once {
  import opened Types
  import opened DagModel
  import opened BuilderModel
  import opened ManagerModel
  import opened Lifecycle
  import opened Calls
  import opened LifecycleRuns

  /** `added`, `log` and `proposed` are history: the ids ever added, the anchors that became final,
      those the node has built.  `cleared` are the frames that have passed the chain-root check, which is
      a lock section of its own.  While `unmarked` holds an anchor, the engine still has the manager
      locked and is about to mark the anchor's events in the DAG; `built` says whether the node had a
      build for it. */
  datatype Node = Node(dag: DagState, m: Manager, added: set<EventId>, log: seq<Anchor>, unmarked: Option<Anchor>,
                       built: bool, cleared: set<Frame>, proposed: set<Anchor>)

  datatype Step = Add(s: Stored, depth: nat) | Check(f: Frame) | Engine(t: Turn) | Mark | Sweep(targets: set<EventId>)

  function Newest(fs: seq<Frame>): Option<Anchor> { if fs == [] then None else Some(fs[|fs| - 1].anchor) }

  /** The proposer marks the anchor it has just built, every other path the newest finalized one. */
  function ToMark(m: Manager, t: Turn): Option<Anchor> {
    if !Do(m, t).1.Finalizes? then None
    else if t.call.Create? then Target(m, t)
    else Newest(Do(m, t).0.finalized)
  }

  /** The frame of the call is one the node has an open build for. */
  predicate HasBuild(m: Manager, call: Call) {
    match call
    case Create(_) => true
    case Receive(_, f) => f.id in m.builds
    case ReceiveFinal(_, f, _) => f.id in m.builds
    case VoteArrives(v) => v.frame in m.builds
    case _ => false
  }

  function Opened(m: Manager, call: Call): set<Anchor> {
    if call.Create? && m.builds == map[] && PrepareProposal(m, call.p).Ready?
    then {PrepareProposal(m, call.p).build.anchor} else {}
  }

  predicate ChainMatches(m: Manager, a: Anchor) { a.roots.None? || a.roots.value.chain == m.builder.meta.chainRoot }

  ghost function Next(n: Node, step: Step): Node {
    match step
    case Add(s, depth) => n.(dag := Inserted(n.dag, s, depth), added := n.added + {s.event.id})
    case Check(f) => if ChainMatches(n.m, f.anchor) then n.(cleared := n.cleared + {f}) else n
    case Engine(t) =>
      n.(m := Do(n.m, t).0, log := n.log + NewAnchor(n.m, t), unmarked := ToMark(n.m, t),
         built := HasBuild(n.m, t.call), proposed := n.proposed + Opened(n.m, t.call))
    case Mark =>
      if n.unmarked.None? then n
      else n.(dag := FinalizedIn(n.dag, IdSet(n.unmarked.value.eventIds)), unmarked := None)
    case Sweep(targets) => n.(dag := Collected(n.dag, targets))
  }

  /** An id is added once.  A frame the node does not have, be it one of its own that it has given up,
      must have passed the chain-root check. */
  ghost predicate Allowed(n: Node, step: Step) {
    match step
    case Add(s, _) => s.event.id !in n.added && s.status != Finalized
    case Engine(t) => n.unmarked.None? && Sensible(n.m, t) && Admits(n, t.call)
    case _ => true
  }

  ghost predicate Admits(n: Node, call: Call) {
    match call
    case Create(p) => Lists(n.dag, p.pending)
    case Receive(d, f) => d == n.dag && (HasFrame(n.m, f.id) || f in n.cleared)
    case ReceiveFinal(d, f, _) => d == n.dag && (HasFrame(n.m, f.id) || f in n.cleared)
    case _ => true
  }

  ghost predicate Distinct(ids: seq<EventId>) { forall i, j | 0 <= i < j < |ids| :: ids[i] != ids[j] }

  // ---- The condition ----

  /** The anchor names no event twice, all are still pending, and none is in the open build. */
  ghost predicate Untaken(n: Node, a: Anchor) {
    && Distinct(a.eventIds) && IdSet(a.eventIds) <= n.dag.pending
    && (forall id | id in n.m.builds :: IdSet(n.m.builds[id].anchor.eventIds) !! IdSet(a.eventIds))
  }

  /** Trimming will leave the frame with this anchor as the newest finalized one. */
  predicate NewestStays(m: Manager, a: Anchor) {
    || |m.finalized| < MAX_FINALIZED || a.id !in m.persisted
    || PersistedCount(m.finalized, m.persisted) > |m.finalized| - MAX_FINALIZED
  }

  /** What the engine can look at, under the locks it holds, before a call makes a frame final: that the
      frame will be the newest, by which the engine finds what to mark, and, if it has no build for the
      frame, that the events are untaken. */
  ghost predicate Careful(n: Node, t: Turn) {
    Do(n.m, t).1.Finalizes? && Target(n.m, t).Some? ==>
      && (!t.call.Create? ==> NewestStays(n.m, Target(n.m, t).value))
      && (!HasBuild(n.m, t.call) ==> Untaken(n, Target(n.m, t).value))
  }

  ghost predicate CarefulStep(n: Node, step: Step) { step.Engine? ==> Careful(n, step.t) }

  // ---- The invariant ----

  function Folded(log: seq<Anchor>): set<EventId> {
    if log == [] then {} else Folded(log[..|log| - 1]) + IdSet(log[|log| - 1].eventIds)
  }

  ghost predicate Disjoint(log: seq<Anchor>) {
    forall i, j | 0 <= i < j < |log| :: IdSet(log[i].eventIds) !! IdSet(log[j].eventIds)
  }

  /** The events of an anchor that is final but not yet marked. */
  function Marking(n: Node): set<EventId> { if n.unmarked.Some? then IdSet(n.unmarked.value.eventIds) else {} }

  function Free(n: Node): set<EventId> { n.dag.pending - Marking(n) }

  /** An anchor over some free events, each named once, with one of `must` if there are any. */
  ghost predicate Fits(a: Anchor, free: set<EventId>, must: set<EventId>) {
    && a.eventIds != [] && Distinct(a.eventIds) && IdSet(a.eventIds) <= free
    && (must != {} ==> exists id :: id in must && id in a.eventIds)
  }

  ghost predicate Owned(m: Manager, free: set<EventId>, must: set<EventId>) {
    forall id | id in m.builds :: Fits(m.builds[id].anchor, free, must)
  }

  /** Pending events and folded ones make up all events; they overlap only in what is being marked. */
  ghost predicate Balanced(n: Node) {
    && n.added == n.dag.pending + Folded(n.log)
    && Marking(n) <= n.dag.pending && Marking(n) <= Folded(n.log)
    && Free(n) !! Folded(n.log)
  }

  /** No event is named twice, by two anchors or by one. */
  ghost predicate LogOk(log: seq<Anchor>) { Disjoint(log) && forall i | 0 <= i < |log| :: Distinct(log[i].eventIds) }

  ghost predicate DagOk(d: DagState, added: set<EventId>) {
    d.Consistent() && (forall id | id in d.pending :: d.Active(id)) && d.events.Keys <= added
  }

  ghost predicate Inv(n: Node) {
    && DagOk(n.dag, n.added)
    && Lifecycle.Inv(n.m)
    && Owned(n.m, Free(n), {})
    && Balanced(n)
    && LogOk(n.log)
  }

  // ---- The log ----

  lemma {:induction false} FoldedHas(log: seq<Anchor>, i: nat, e: EventId)
    requires i < |log| && e in log[i].eventIds
    ensures e in Folded(log)
    decreases |log|
  {
    if i < |log| - 1 { FoldedHas(log[..|log| - 1], i, e); }
  }

  lemma {:induction false} FoldedFrom(log: seq<Anchor>, e: EventId) returns (i: nat)
    requires e in Folded(log)
    ensures i < |log| && e in log[i].eventIds
    decreases |log|
  {
    if e in log[|log| - 1].eventIds { i := |log| - 1; } else { i := FoldedFrom(log[..|log| - 1], e); }
  }

  lemma FoldedMore(log: seq<Anchor>, a: Anchor)
    ensures Folded(log + [a]) == Folded(log) + IdSet(a.eventIds)
  {
    assert (log + [a])[..|log|] == log;
  }

  lemma LogGrows(log: seq<Anchor>, a: Anchor)
    requires LogOk(log) && Distinct(a.eventIds) && IdSet(a.eventIds) !! Folded(log)
    ensures LogOk(log + [a])
  {
    var more := log + [a];
    forall i, j | 0 <= i < j < |more| ensures IdSet(more[i].eventIds) !! IdSet(more[j].eventIds) {
      if j == |log| {
        forall e | e in log[i].eventIds ensures e in Folded(log) { FoldedHas(log, i, e); }
      }
    }
  }

  // ---- Before the classification ----

  lemma PreparedIsNamed(d: DagState, m: Manager, p: Proposal)
    requires Lists(d, p.pending) && PrepareProposal(m, p).Ready?
    ensures var a := PrepareProposal(m, p).build.anchor;
            && a.eventIds != [] && Distinct(a.eventIds) && IdSet(a.eventIds) <= d.pending
            && a.id.AnchorIdOf? && a.id.eventIds == a.eventIds
  {
    var events := Select(m.builder.cfg, p.pending, InFlight(m));
    SelectedAreDistinct(m.builder.cfg, p.pending, InFlight(m));
    var a := PrepareProposal(m, p).build.anchor;
    assert a.eventIds == IdsOf(events);
    IdsAre(events);
  }

  /** A proposal made now contains one of `must`. */
  ghost predicate Proposes(m: Manager, call: Call, must: set<EventId>) {
    call.Create? && must != {} && m.builds == map[] && PrepareProposal(m, call.p).Ready? ==>
      exists id :: id in must && id in PrepareProposal(m, call.p).build.anchor.eventIds
  }

  lemma PreparedFits(n: Node, call: Call, must: set<EventId>)
    requires n.unmarked.None? && Admits(n, call) && Proposes(n.m, call, must) && call.Create? && n.m.builds == map[]
    requires PrepareProposal(n.m, call.p).Ready?
    ensures Fits(PrepareProposal(n.m, call.p).build.anchor, Free(n), must)
  {
    PreparedIsNamed(n.dag, n.m, call.p);
  }

  lemma ReachOwned(n: Node, t: Turn, must: set<EventId>)
    requires Inv(n) && Allowed(n, Engine(t)) && Owned(n.m, Free(n), must) && Proposes(n.m, t.call, must)
    ensures Owned(Reach(n.m, t).0, Free(n), must)
  {
    ReachIs(n.m, t);
    var (c, about) := Reach(n.m, t);
    forall x | x in c.builds ensures Fits(c.builds[x].anchor, Free(n), must) {
      if c.builds != n.m.builds && t.call.Create? { PreparedFits(n, t.call, must); }
    }
  }

  lemma AboutBuild(m: Manager, t: Turn)
    requires Lifecycle.Inv(m) && Sensible(m, t) && Reach(m, t).1.Some?
    ensures Reach(m, t).1.value in Reach(m, t).0.builds <==> HasBuild(m, t.call)
  {
    ReachIs(m, t);
  }

  // ---- The classification ----

  lemma LastIs(fs: seq<Frame>, f: Frame, persisted: set<Digest>)
    requires NoRepeats(fs) && (forall g | g in fs :: g.id != f.id)
    requires var r := Trimmed(fs + [f], persisted); r != [] && r[|r| - 1].id == f.id
    ensures Newest(Trimmed(fs + [f], persisted)) == Some(f.anchor)
  {
    OneMoreFinal(fs, f);
    TrimIsPart(fs + [f], persisted);
    var r := Trimmed(fs + [f], persisted);
    assert r[|r| - 1] in fs + [f];
  }

  lemma NewestIs(m: Manager, t: Turn)
    requires Lifecycle.Inv(m) && Sensible(m, t) && Do(m, t).1.Finalizes? && Target(m, t).Some?
    requires NewestStays(m, Target(m, t).value)
    ensures Newest(Do(m, t).0.finalized) == Target(m, t)
  {
    FinalIsNew(m, t, Do(m, t).1.id);
    var f := FinalFrame(m, t);
    assert forall g | g in m.finalized :: g.id in FinalizedIds(m);
    NewestAfterTrim(m.finalized, m.persisted, f);
    LastIs(m.finalized, f, m.persisted);
  }

  /** The manager after a call, as far as this module cares. */
  ghost predicate Tidy(m: Manager, call: Call, r: Manager, free: set<EventId>, must: set<EventId>) {
    && Owned(r, free, must) && r.builder.cfg == m.builder.cfg
    && (forall x | x in r.builds :: call.Create? || (x in m.builds && r.builds[x] == m.builds[x]))
  }

  lemma EngineTidy(n: Node, t: Turn, must: set<EventId>)
    requires Inv(n) && Allowed(n, Engine(t)) && Owned(n.m, Free(n), must) && Proposes(n.m, t.call, must)
    ensures Tidy(n.m, t.call, Do(n.m, t).0, Free(n), must)
  {
    DoIsReach(n.m, t);
    ReachIs(n.m, t);
    ReachOwned(n, t, must);
    var (c, about) := Reach(n.m, t);
    ReachTidy(n.m, t, c, about, Free(n), must);
    if about.Some? {
      ClassifyShape(c, about.value, t.storageOk, t.now);
      StaysTidy(n.m, t.call, c, Classify(c, about.value, t.storageOk, t.now).0, Free(n), must);
    }
  }

  lemma ReachTidy(m: Manager, t: Turn, c: Manager, about: Option<Digest>, free: set<EventId>, must: set<EventId>)
    requires ReachedAt(m, t, c, about) && Owned(c, free, must)
    ensures Tidy(m, t.call, c, free, must)
  {
  }

  lemma StaysTidy(m: Manager, call: Call, c: Manager, r: Manager, free: set<EventId>, must: set<EventId>)
    requires Tidy(m, call, c, free, must) && r.builder.cfg == c.builder.cfg
    requires forall x | x in r.builds :: x in c.builds && r.builds[x] == c.builds[x]
    ensures Tidy(m, call, r, free, must)
  {
  }

  /** What the call makes final is its target, and that is what will be marked. */
  ghost predicate FinalFits(m: Manager, t: Turn, free: set<EventId>, must: set<EventId>) {
    && Target(m, t).Some? && ToMark(m, t) == Target(m, t) && Distinct(Target(m, t).value.eventIds)
    && (HasBuild(m, t.call) ==> Do(m, t).0.builds == map[] && Fits(Target(m, t).value, free, must))
  }

  lemma BuiltFinal(n: Node, t: Turn, must: set<EventId>)
    requires Inv(n) && Allowed(n, Engine(t)) && Owned(n.m, Free(n), must) && Proposes(n.m, t.call, must)
    requires Do(n.m, t).1.Finalizes? && HasBuild(n.m, t.call)
    ensures Target(n.m, t).Some? && Do(n.m, t).0.builds == map[] && Fits(Target(n.m, t).value, Free(n), must)
  {
    DoIsReach(n.m, t);
    ReachKeeps(n.m, t);
    ReachIs(n.m, t);
    ReachOwned(n, t, must);
    AboutBuild(n.m, t);
    var (c, about) := Reach(n.m, t);
    GuardReleased(c, about.value, t.storageOk, t.now);
  }

  lemma FinalHasTarget(m: Manager, t: Turn)
    requires Lifecycle.Inv(m) && Sensible(m, t) && Do(m, t).1.Finalizes?
    ensures Target(m, t).Some?
  {
    DoIsReach(m, t);
    ReachIs(m, t);
  }

  /** The anchor an engine call makes final is the one that will be marked, and names free events. */
  lemma EngineFinal(n: Node, t: Turn, must: set<EventId>)
    requires Inv(n) && Allowed(n, Engine(t)) && Careful(n, t)
    requires Owned(n.m, Free(n), must) && Proposes(n.m, t.call, must)
    requires Do(n.m, t).1.Finalizes?
    ensures FinalFits(n.m, t, Free(n), must) && IdSet(Target(n.m, t).value.eventIds) <= Free(n)
  {
    FinalHasTarget(n.m, t);
    if HasBuild(n.m, t.call) { BuiltFinal(n, t, must); }
    if !t.call.Create? { NewestIs(n.m, t); }
  }

  // ---- Steps ----

  /** The parts of the invariant that a call without a final frame touches. */
  lemma QuietKeeps(n: Node, t: Turn, r: Manager)
    requires Inv(n) && n.unmarked.None? && Lifecycle.Inv(r) && Tidy(n.m, t.call, r, Free(n), {})
    ensures forall b, p :: Inv(n.(m := r, built := b, proposed := p))
  {
  }

  /** And those that one with a final frame touches. */
  lemma FinalKeeps(n: Node, call: Call, r: Manager, a: Anchor)
    requires Inv(n) && n.unmarked.None? && Lifecycle.Inv(r) && Tidy(n.m, call, r, Free(n), {})
    requires Distinct(a.eventIds) && IdSet(a.eventIds) <= n.dag.pending
    requires forall id | id in r.builds :: IdSet(r.builds[id].anchor.eventIds) !! IdSet(a.eventIds)
    ensures forall b, p :: Inv(n.(m := r, log := n.log + [a], unmarked := Some(a), built := b, proposed := p))
  {
    LogGrows(n.log, a);
    FoldedMore(n.log, a);
  }

  lemma EngineKeeps(n: Node, t: Turn)
    requires Inv(n) && Allowed(n, Engine(t)) && Careful(n, t)
    ensures Inv(Next(n, Engine(t)))
  {
    var (r, o) := Do(n.m, t);
    EngineTidy(n, t, {});
    DoKeeps(n.m, t);
    if o.Finalizes? {
      EngineFinal(n, t, {});
      FinalKeeps(n, t.call, r, Target(n.m, t).value);
    } else {
      assert n.log + NewAnchor(n.m, t) == n.log;
      QuietKeeps(n, t, r);
    }
  }

  lemma InsertedOk(d: DagState, added: set<EventId>, s: Stored, depth: nat)
    requires DagOk(d, added) && s.event.id !in added && s.status != Finalized
    ensures DagOk(Inserted(d, s, depth), added + {s.event.id})
  {
    InsertedConsistent(d, s, depth);
  }

  lemma AddKeeps(n: Node, s: Stored, depth: nat)
    requires Inv(n) && Allowed(n, Add(s, depth))
    ensures Inv(Next(n, Add(s, depth)))
  {
    InsertedOk(n.dag, n.added, s, depth);
    var r := Next(n, Add(s, depth));
    assert Free(n) <= Free(r);
    assert s.event.id !in Folded(n.log);
  }

  lemma MarkedOk(d: DagState, added: set<EventId>, ids: set<EventId>)
    requires DagOk(d, added)
    ensures DagOk(FinalizedIn(d, ids), added)
  {
    FinalizedInConsistent(d, ids);
  }

  lemma MarkKeeps(n: Node)
    requires Inv(n)
    ensures Inv(Next(n, Mark))
  {
    if n.unmarked.Some? {
      MarkedOk(n.dag, n.added, IdSet(n.unmarked.value.eventIds));
      assert Free(Next(n, Mark)) == Free(n);
    }
  }

  lemma SweptOk(d: DagState, added: set<EventId>, targets: set<EventId>)
    requires DagOk(d, added)
    ensures DagOk(Collected(d, targets), added) && Collected(d, targets).pending == d.pending
  {
    var gone := GcSet(d, targets);
    GcSetCollectable(d, targets);
    WithoutConsistent(d, gone);
    assert gone !! d.pending;
  }

  lemma SweepKeeps(n: Node, targets: set<EventId>)
    requires Inv(n)
    ensures Inv(Next(n, Sweep(targets)))
  {
    SweptOk(n.dag, n.added, targets);
    assert Free(Next(n, Sweep(targets))) == Free(n);
  }

  lemma StepKeeps(n: Node, step: Step)
    requires Inv(n) && Allowed(n, step) && CarefulStep(n, step)
    ensures Inv(Next(n, step))
  {
    match step
    case Add(s, depth) => AddKeeps(n, s, depth);
    case Check(f) =>
    case Engine(t) => EngineKeeps(n, t);
    case Mark => MarkKeeps(n);
    case Sweep(targets) => SweepKeeps(n, targets);
  }

  // ---- Runs ----

  ghost function After(n: Node, steps: seq<Step>): Node {
    if steps == [] then n else Next(After(n, steps[..|steps| - 1]), steps[|steps| - 1])
  }

  ghost predicate AllowedRun(n: Node, steps: seq<Step>) {
    steps == [] || (AllowedRun(n, steps[..|steps| - 1])
                    && Allowed(After(n, steps[..|steps| - 1]), steps[|steps| - 1]))
  }

  ghost predicate CarefulRun(n: Node, steps: seq<Step>) {
    steps == [] || (CarefulRun(n, steps[..|steps| - 1])
                    && CarefulStep(After(n, steps[..|steps| - 1]), steps[|steps| - 1]))
  }

  lemma {:induction false} RunKeeps(n: Node, steps: seq<Step>)
    requires Inv(n) && AllowedRun(n, steps) && CarefulRun(n, steps)
    ensures Inv(After(n, steps))
    decreases |steps|
  {
    if steps != [] {
      RunKeeps(n, steps[..|steps| - 1]);
      StepKeeps(After(n, steps[..|steps| - 1]), steps[|steps| - 1]);
    }
  }

  function Fresh(cfg: Config, localId: ValidatorId, b: Builder): Node {
    Node(EMPTY, Manager(cfg, localId, b, map[], map[], map[], map[], [], {}, None), {}, [], None, false, {}, {})
  }

  /** After any careful run, whatever the outcome of its frames and whoever proposed them: every id
      added is either pending or in a final anchor, never both once the last anchor is marked, and
      in no two anchors. */
  lemma ExactlyOnce(cfg: Config, localId: ValidatorId, b: Builder, steps: seq<Step>)
    requires AllowedRun(Fresh(cfg, localId, b), steps) && CarefulRun(Fresh(cfg, localId, b), steps)
    ensures var n := After(Fresh(cfg, localId, b), steps);
            && n.added == n.dag.pending + Folded(n.log)
            && Marking(n) <= n.dag.pending && (n.dag.pending - Marking(n)) !! Folded(n.log)
            && (forall i, j | 0 <= i < j < |n.log| :: IdSet(n.log[i].eventIds) !! IdSet(n.log[j].eventIds))
            && (forall i | 0 <= i < |n.log| :: Distinct(n.log[i].eventIds))
  {
    RunKeeps(Fresh(cfg, localId, b), steps);
  }
}
