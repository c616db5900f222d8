/** What a node proposes, call by call and over whole runs. */
module Proposals {
  import opened Types
  import opened FoldPolicy
  import opened BuilderModel
  import opened ManagerModel
  import Agreement
  import opened Choosing
  import opened Lifecycle
  import opened Calls
  import opened LifecycleRuns

  // ---- Which events are taken ----

  /** The event is in an open build or stored for a frame that awaits votes. */
  ghost predicate Taken(m: Manager, e: EventId) {
    || (exists id | id in m.builds :: e in m.builds[id].anchor.eventIds)
    || (exists id, x | id in m.frameEvents && x in m.frameEvents[id] :: x.id == e)
  }

  lemma InFlightIsTaken(m: Manager, e: EventId)
    ensures e in InFlight(m) <==> Taken(m, e)
  {
  }

  ghost function Untouched(m: Manager, pending: seq<Event>): set<Event> { set e | e in pending && !Taken(m, e.id) }

  lemma UntouchedIsFree(m: Manager, pending: seq<Event>)
    ensures Untouched(m, pending) == FreeEvents(pending, InFlight(m))
  {
    forall e | e in pending ensures e in Untouched(m, pending) <==> e in FreeEvents(pending, InFlight(m)) {
      InFlightIsTaken(m, e.id);
    }
  }

  // ---- One proposal ----

  /** The time guard of a proposal: logical time since the last fold, or wall-clock time for a heartbeat. */
  predicate TimeIsRight(b: Builder, p: Proposal) {
    if p.heartbeat then b.lastFoldAt.Some? ==> p.timestamp >= b.lastFoldAt.value + p.interval
    else Elapsed(b, p.time) >= b.cfg.deltaThreshold
  }

  /** How many events a proposal can take. */
  ghost predicate CanTake(m: Manager, p: Proposal, count: nat) {
    exists stable :: Stable(Untouched(m, p.pending), stable) && count == Min(m.builder.cfg.maxEvents, |stable|)
  }

  lemma PreparesCount(m: Manager, p: Proposal) returns (count: nat)
    requires DistinctIds(p.pending)
    ensures CanTake(m, p, count)
    ensures PrepareProposal(m, p).Ready? <==> TimeIsRight(m.builder, p) && count > 0 && count >= m.builder.cfg.minEvents
    ensures PrepareProposal(m, p).Ready? ==> |PrepareProposal(m, p).build.anchor.eventIds| == count
  {
    var b, inFlight := m.builder, InFlight(m);
    var stable := StableExists(p.pending, inFlight);
    UntouchedIsFree(m, p.pending);
    count := Min(b.cfg.maxEvents, |stable|);
    SelectedIsCapacity(b.cfg, p.pending, inFlight, stable);
    if p.heartbeat { HeartbeatIff(b, p.pending, p.maxDepth, p.time, p.interval, inFlight, p.timestamp, stable); }
    else { PreparesIff(b, p.pending, p.maxDepth, p.time, inFlight, p.timestamp, stable); }
    ReadySays(b, p.pending, p.maxDepth, p.time, p.interval, inFlight, p.timestamp);
  }

  lemma CountIsUnique(m: Manager, p: Proposal, a: nat, b: nat)
    requires DistinctIds(p.pending) && CanTake(m, p, a) && CanTake(m, p, b)
    ensures a == b
  {
    var x :| Stable(Untouched(m, p.pending), x) && a == Min(m.builder.cfg.maxEvents, |x|);
    var y :| Stable(Untouched(m, p.pending), y) && b == Min(m.builder.cfg.maxEvents, |y|);
    UntouchedIsFree(m, p.pending);
    KeptIsStable(p.pending, InFlight(m), x);
    KeptIsStable(p.pending, InFlight(m), y);
  }

  /** A frame is created exactly when no build is open, the time is right and enough events can be taken. */
  lemma CreatesIff(m: Manager, p: Proposal, count: nat)
    requires DistinctIds(p.pending) && CanTake(m, p, count)
    ensures TryCreate(m, p).1.Some? <==>
            m.builds == map[] && TimeIsRight(m.builder, p) && count > 0 && count >= m.builder.cfg.minEvents
    ensures TryCreate(m, p).1.None? ==> TryCreate(m, p).0 == m
  {
    var c := PreparesCount(m, p);
    CountIsUnique(m, p, c, count);
  }

  /** What an anchor proposed now is: over untouched pending events, as many as there is room for, at the DAG's
      depth, after the anchor the chain stands at. */
  ghost predicate ProposesNow(m: Manager, p: Proposal, a: Anchor) {
    && 0 < |a.eventIds| <= m.builder.cfg.maxEvents && |a.eventIds| >= m.builder.cfg.minEvents
    && (forall x | x in a.eventIds :: !Taken(m, x) && exists e | e in p.pending :: e.id == x)
    && a.depth == p.maxDepth && a.time == p.time && a.timestamp == p.timestamp
    && a.previous == (match m.builder.meta.lastAnchor case Some(last) => Some(last.id) case None => None)
    && a.roots.Some? && a.roots.value.chain == m.builder.meta.chainRoot
    && a.roots.value.events == EventsRootOf(a.eventIds)
  }

  lemma PreparedIsNow(m: Manager, p: Proposal)
    requires DistinctIds(p.pending) && PrepareProposal(m, p).Ready?
    ensures ProposesNow(m, p, PrepareProposal(m, p).build.anchor)
  {
    var a, inFlight := PrepareProposal(m, p).build.anchor, InFlight(m);
    var count := PreparesCount(m, p);
    ReadySays(m.builder, p.pending, p.maxDepth, p.time, p.interval, inFlight, p.timestamp);
    var chosen := Select(m.builder.cfg, p.pending, inFlight);
    SelectedAreDistinct(m.builder.cfg, p.pending, inFlight);
    forall x | x in a.eventIds ensures !Taken(m, x) && exists e | e in p.pending :: e.id == x {
      var i :| 0 <= i < |a.eventIds| && a.eventIds[i] == x;
      assert chosen[i] in chosen && chosen[i].id == x;
      InFlightIsTaken(m, x);
    }
  }

  /** The frame that carries it: its id is made of round, anchor, proposer and time, and it has no votes yet. */
  ghost predicate FrameSays(m: Manager, p: Proposal, f: Frame) {
    && f.id == FrameIdOf(p.round, f.anchor.id, m.localId, p.timestamp) && f.round == p.round
    && f.proposer == m.localId && f.createdAt == p.timestamp && f.status == FrameStatus.Proposed
  }

  lemma CreatedIsNow(m: Manager, p: Proposal)
    requires DistinctIds(p.pending) && TryCreate(m, p).1.Some?
    ensures var (n, f) := TryCreate(m, p);
            && ProposesNow(m, p, f.value.anchor) && FrameSays(m, p, f.value) && f.value.votes == map[]
            && f.value.id in n.builds && n.builds[f.value.id].anchor == f.value.anchor
            && f.value.id in n.frames && n.frames[f.value.id] == f.value
  {
    PreparedIsNow(m, p);
  }

  // ---- Runs ----

  lemma DoBuilds(m: Manager, t: Turn)
    requires Inv(m) && Sensible(m, t)
    ensures var n := Do(m, t).0;
            && n.builder.cfg == m.builder.cfg
            && forall id | id in n.builds ::
                 || (id in m.builds && n.builds[id] == m.builds[id])
                 || (t.call.Create? && PrepareProposal(m, t.call.p).Ready?
                     && n.builds[id] == PrepareProposal(m, t.call.p).build)
  {
    DoIsReach(m, t);
    ReachIs(m, t);
    var (c, about) := Reach(m, t);
    if about.Some? { ClassifyShape(c, about.value, t.storageOk, t.now); }
  }

  /** The frame of a build that was not there before. */
  lemma DoFrames(m: Manager, t: Turn, id: Digest)
    requires Inv(m) && Sensible(m, t) && id in Do(m, t).0.builds && id !in m.builds
    ensures var n := Do(m, t).0;
            && t.call.Create? && PrepareProposal(m, t.call.p).Ready?
            && n.builds[id] == PrepareProposal(m, t.call.p).build
            && id in n.frames && FrameSays(m, t.call.p, n.frames[id])
  {
    DoBuilds(m, t);
    DoIsReach(m, t);
    ReachIs(m, t);
    var (c, about) := Reach(m, t);
    if about.Some? { ClassifyShape(c, about.value, t.storageOk, t.now); }
    CreatedFrame(m, t, c);
    DoKeeps(m, t);
  }

  lemma CreatedFrame(m: Manager, t: Turn, c: Manager)
    requires t.call.Create? && c == Reach(m, t).0
    ensures forall id | id in c.builds && id !in m.builds :: id in c.frames && FrameSays(m, t.call.p, c.frames[id])
  {
  }

  /** Over every run: whenever a build is opened, its anchor is over events that are in no open build and stored
      for no frame that awaits votes at that moment, within the capacity, and follows the last anchor that became
      final, on the chain root it left. */
  lemma EveryBuildIsNow(ms: seq<Manager>, turns: seq<Turn>, made: seq<seq<Anchor>>, i: nat, id: Digest)
    requires Trace(ms, turns, made) && Inv(ms[0]) && i < |turns| && id in ms[i + 1].builds && id !in ms[i].builds
    ensures turns[i].call.Create? && ProposesNow(ms[i], turns[i].call.p, ms[i + 1].builds[id].anchor)
    ensures id in ms[i + 1].frames && FrameSays(ms[i], turns[i].call.p, ms[i + 1].frames[id])
    ensures var log, a := Log(made[..i]), ms[i + 1].builds[id].anchor;
            log != [] ==> a.previous == Some(log[|log| - 1].id)
  {
    RunKeeps(ms, turns, made, i);
    assert StepAt(ms, turns, made, i);
    DoFrames(ms[i], turns[i], id);
    PreparedIsNow(ms[i], turns[i].call.p);
    Agreement.StandsAtLast(ms[0].builder.meta, Log(made[..i]));
  }

  ghost predicate WithinCapacity(m: Manager) {
    forall id | id in m.builds :: 0 < |m.builds[id].anchor.eventIds| <= m.builder.cfg.maxEvents
  }

  lemma CapacityStep(m: Manager, t: Turn)
    requires Inv(m) && Sensible(m, t) && WithinCapacity(m)
    ensures WithinCapacity(Do(m, t).0) && Do(m, t).0.builder.cfg == m.builder.cfg
  {
    DoBuilds(m, t);
    if t.call.Create? && PrepareProposal(m, t.call.p).Ready? { PreparedIsNow(m, t.call.p); }
  }

  /** No build ever names more events than the capacity. */
  lemma {:induction false} CapacityHolds(ms: seq<Manager>, turns: seq<Turn>, made: seq<seq<Anchor>>, i: nat)
    requires Trace(ms, turns, made) && Inv(ms[0]) && WithinCapacity(ms[0]) && i <= |turns|
    ensures WithinCapacity(ms[i]) && ms[i].builder.cfg == ms[0].builder.cfg
    decreases i
  {
    if i > 0 {
      CapacityHolds(ms, turns, made, i - 1);
      RunKeeps(ms, turns, made, i - 1);
      assert StepAt(ms, turns, made, i - 1);
      CapacityStep(ms[i - 1], turns[i - 1]);
    }
  }

  // ---- Early votes ----

  /** Votes wait only for frames that are not there, or that the node has made itself. */
  ghost predicate VotesWait(m: Manager) { forall id | id in m.buffered && id in m.frames :: id in m.builds }

  lemma ReachVotesWait(m: Manager, t: Turn)
    requires Inv(m) && Sensible(m, t) && VotesWait(m)
    ensures VotesWait(Reach(m, t).0)
  {
    match t.call
    case Create(p) => CreateVotesWait(m, t);
    case Receive(d, f) => ArrivalVotesWait(m, t);
    case ReceiveFinal(d, f, values) => ArrivalVotesWait(m, t);
    case VoteArrives(v) =>
    case Maintain =>
    case MarkPersisted(a) =>
  }

  lemma CreateVotesWait(m: Manager, t: Turn)
    requires VotesWait(m) && t.call.Create?
    ensures VotesWait(Reach(m, t).0)
  {
    var (s, f) := TryCreate(m, t.call.p);
    assert VotesWait(s);
    if f.Some? { CastVotesWait(s, f.value.id); }
  }

  lemma CastVotesWait(m: Manager, id: Digest)
    requires VotesWait(m) && id in m.frames
    ensures VotesWait(Cast(m, id).0)
  {
  }

  lemma ArrivalVotesWait(m: Manager, t: Turn)
    requires VotesWait(m) && (t.call.Receive? || t.call.ReceiveFinal?)
    ensures VotesWait(Reach(m, t).0)
  {
    var s := ReceiveFrame(StoreEvents(m, t.call.d, t.call.f), t.call.f);
    assert VotesWait(s);
    CastVotesWait(s, t.call.f.id);
  }

  lemma DoVotesWait(m: Manager, t: Turn)
    requires Inv(m) && Sensible(m, t) && VotesWait(m)
    ensures VotesWait(Do(m, t).0)
  {
    DoIsReach(m, t);
    ReachIs(m, t);
    ReachVotesWait(m, t);
    var (c, about) := Reach(m, t);
    if about.Some? {
      ClassifyShape(c, about.value, t.storageOk, t.now);
      ClassifyBuffer(c, about.value, t.storageOk, t.now);
    }
  }

  lemma ClassifyBuffer(c: Manager, id: Digest, storageOk: bool, now: nat)
    ensures Classify(c, id, storageOk, now).0.buffered == c.buffered
  {
  }

  /** Over every run, votes for a frame the node has received never stay behind in the buffer. */
  lemma {:induction false} BufferIsDrained(ms: seq<Manager>, turns: seq<Turn>, made: seq<seq<Anchor>>, i: nat)
    requires Trace(ms, turns, made) && Inv(ms[0]) && VotesWait(ms[0]) && i <= |turns|
    ensures VotesWait(ms[i])
    decreases i
  {
    if i > 0 {
      BufferIsDrained(ms, turns, made, i - 1);
      RunKeeps(ms, turns, made, i - 1);
      assert StepAt(ms, turns, made, i - 1);
      DoVotesWait(ms[i - 1], turns[i - 1]);
    }
  }

  // ---- What readers see ----

  lemma ApplyPublishes(m: Manager, id: Digest, a: Anchor, now: nat)
    requires m.builder.published == m.builder.gsm
    ensures var b := ApplyFrame(m, id, a, true, now).0; b.published == b.gsm
  {
  }

  lemma DoPublishes(m: Manager, t: Turn)
    requires Inv(m) && Sensible(m, t) && t.storageOk && m.builder.published == m.builder.gsm
    ensures Do(m, t).0.builder.published == Do(m, t).0.builder.gsm
  {
    DoIsReach(m, t);
    ReachIs(m, t);
    var (c, about) := Reach(m, t);
    if about.Some? {
      ClassifyCases(c, about.value, true, t.now);
      FinishShape(c, about.value, true, t.now);
      ApplyPublishes(c, about.value, c.frames[about.value].anchor, t.now);
    }
  }

  /** While the store takes everything, readers see the state that was written, at every point of a run. */
  lemma {:induction false} ReadersSeeState(ms: seq<Manager>, turns: seq<Turn>, made: seq<seq<Anchor>>, i: nat)
    requires Trace(ms, turns, made) && Inv(ms[0]) && ms[0].builder.published == ms[0].builder.gsm && i <= |turns|
    requires forall k | 0 <= k < i :: turns[k].storageOk
    ensures ms[i].builder.published == ms[i].builder.gsm
    decreases i
  {
    if i > 0 {
      ReadersSeeState(ms, turns, made, i - 1);
      RunKeeps(ms, turns, made, i - 1);
      assert StepAt(ms, turns, made, i - 1);
      DoPublishes(ms[i - 1], turns[i - 1]);
    }
  }
}
