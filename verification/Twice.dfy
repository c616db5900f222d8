/** Why the node must look: a frame that is made final without a build, over events that are taken,
    spoils exactly-once; and a run in which the code does that with a frame of its own. */
module Twice {
  import opened Types
  import opened Order
  import opened FoldPolicy
  import opened StateApply
  import opened DagModel
  import opened BuilderModel
  import opened ManagerModel
  import opened Lifecycle
  import opened Calls
  import opened LifecycleRuns
  import opened Once

  // ---- The condition is exact ----

  /** No event is named twice by final anchors, all they name was added, and none of the open build's
      events is among it. */
  ghost predicate Unspoiled(n: Node) {
    && LogOk(n.log) && Folded(n.log) <= n.added
    && forall id | id in n.m.builds :: IdSet(n.m.builds[id].anchor.eventIds) !! Folded(n.log)
  }

  lemma BuildsStay(n: Node, t: Turn)
    requires Once.Inv(n) && Once.Allowed(n, Engine(t)) && Do(n.m, t).1.Finalizes? && !HasBuild(n.m, t.call)
    ensures Do(n.m, t).0.builds == n.m.builds
  {
    DoIsReach(n.m, t);
    ReachIs(n.m, t);
    AboutBuild(n.m, t);
    var (c, about) := Reach(n.m, t);
    ClassifyShape(c, about.value, t.storageOk, t.now);
    NotThere(c.builds, about.value);
  }

  lemma NotThere(builds: map<Digest, PendingBuild>, id: Digest)
    requires id !in builds
    ensures builds - {id} == builds
  {
  }

  lemma TakenSpoils(n: Node, r: Node, a: Anchor)
    requires Once.Inv(n) && r.log == n.log + [a] && r.added == n.added && r.m.builds == n.m.builds && !Untaken(n, a)
    ensures !Unspoiled(r)
  {
    FoldedMore(n.log, a);
    assert r.log[|n.log|] == a;
    if !Distinct(a.eventIds) {
    } else if IdSet(a.eventIds) <= n.dag.pending {
      var id :| id in n.m.builds && !(IdSet(n.m.builds[id].anchor.eventIds) !! IdSet(a.eventIds));
      assert !(IdSet(r.m.builds[id].anchor.eventIds) !! Folded(r.log));
    } else {
      var x :| x in a.eventIds && x !in n.dag.pending;
      if x in n.added { FoldedAgain(n.log, a, x); } else { assert x in Folded(r.log); }
    }
  }

  lemma FoldedAgain(log: seq<Anchor>, a: Anchor, x: EventId)
    requires x in Folded(log) && x in a.eventIds
    ensures !Disjoint(log + [a])
  {
    var i := FoldedFrom(log, x);
    var more := log + [a];
    assert x in IdSet(more[i].eventIds) && x in IdSet(more[|log|].eventIds);
  }

  lemma UntakenUnspoiled(n: Node, r: Node, a: Anchor)
    requires Once.Inv(n) && n.unmarked.None? && Untaken(n, a)
    requires r.log == n.log + [a] && r.added == n.added && r.m.builds == n.m.builds
    ensures Unspoiled(r)
  {
    LogGrows(n.log, a);
    FoldedMore(n.log, a);
  }

  /** A frame that becomes final without a build leaves the log sound, and the open build with it,
      exactly when it names no event twice, all its events were pending and none was in the open build. */
  lemma CarefulIff(n: Node, t: Turn)
    requires Once.Inv(n) && Once.Allowed(n, Engine(t)) && Do(n.m, t).1.Finalizes? && !HasBuild(n.m, t.call)
    ensures Target(n.m, t).Some? && (Untaken(n, Target(n.m, t).value) <==> Unspoiled(Once.Next(n, Engine(t))))
  {
    FinalHasTarget(n.m, t);
    BuildsStay(n, t);
    var a, r := Target(n.m, t).value, Once.Next(n, Engine(t));
    if Untaken(n, a) { UntakenUnspoiled(n, r, a); } else { TakenSpoils(n, r, a); }
  }

  // ---- The frame that is marked ----

  /** Finalized frames the node still lists are in the log. */
  ghost predicate FinalizedLogged(n: Node) { forall g | g in n.m.finalized :: g.anchor in n.log }

  lemma EngineLogged(n: Node, t: Turn)
    requires Lifecycle.Inv(n.m) && Sensible(n.m, t) && FinalizedLogged(n)
    ensures FinalizedLogged(Once.Next(n, Engine(t)))
  {
    if Do(n.m, t).1.Finalizes? {
      var f := FinalFrame(n.m, t);
      FinalIsNew(n.m, t, f.id);
      assert forall g | g in n.m.finalized :: g.id in FinalizedIds(n.m);
      OneMoreFinal(n.m.finalized, f);
      TrimIsPart(n.m.finalized + [f], n.m.persisted);
      assert f.anchor in n.log + [f.anchor];
    } else {
      NoneAppended(n.m, t);
    }
  }

  lemma {:induction false} RunLogged(n: Node, steps: seq<Step>)
    requires Once.Inv(n) && FinalizedLogged(n) && AllowedRun(n, steps) && CarefulRun(n, steps)
    ensures FinalizedLogged(After(n, steps))
    decreases |steps|
  {
    if steps != [] {
      var before, last := After(n, steps[..|steps| - 1]), steps[|steps| - 1];
      RunLogged(n, steps[..|steps| - 1]);
      Once.RunKeeps(n, steps[..|steps| - 1]);
      if last.Engine? { EngineLogged(before, last.t); }
    }
  }

  /** If trimming does not leave the new frame as the newest, what the engine marks is the anchor of an
      older frame, or nothing; the new frame's events stay pending except those that anchor names. */
  lemma AnotherIsMarked(n: Node, t: Turn)
    requires Once.Inv(n) && Once.Allowed(n, Engine(t)) && Do(n.m, t).1.Finalizes? && !t.call.Create?
    requires Target(n.m, t).Some? && !NewestStays(n.m, Target(n.m, t).value)
    ensures var marked, r := ToMark(n.m, t), Once.Next(Once.Next(n, Engine(t)), Mark);
            && (marked.Some? ==> exists g | g in n.m.finalized :: g.id != Do(n.m, t).1.id && g.anchor == marked.value)
            && (forall x | x in n.dag.pending :: x in r.dag.pending <==> marked.None? || x !in marked.value.eventIds)
  {
    var f := FinalFrame(n.m, t);
    FinalIsNew(n.m, t, f.id);
    assert forall g | g in n.m.finalized :: g.id in FinalizedIds(n.m);
    OlderIsNewest(n.m.finalized, n.m.persisted, f);
  }

  lemma OlderIsNewest(fs: seq<Frame>, persisted: set<Digest>, f: Frame)
    requires NoRepeats(fs) && (forall g | g in fs :: g.id != f.id)
    requires |fs| >= MAX_FINALIZED && f.anchor.id in persisted && PersistedCount(fs, persisted) <= |fs| - MAX_FINALIZED
    ensures var r := Trimmed(fs + [f], persisted); r != [] ==> r[|r| - 1] in fs
  {
    OneMoreFinal(fs, f);
    NewestAfterTrim(fs, persisted, f);
    TrimIsPart(fs + [f], persisted);
    var r := Trimmed(fs + [f], persisted);
    if r != [] { assert r[|r| - 1] in fs + [f]; }
  }

  /** Pending and folded events overlap only in what is being marked exactly if that is the new anchor's
      events. */
  lemma BalancedIff(n: Node, r: Node, a: Anchor)
    requires Once.Inv(n) && n.unmarked.None? && IdSet(a.eventIds) <= n.dag.pending
    requires r.dag == n.dag && r.added == n.added && r.log == n.log + [a]
    ensures Balanced(r) <==> Marking(r) == IdSet(a.eventIds)
  {
    FoldedMore(n.log, a);
    assert n.dag.pending * Folded(r.log) == IdSet(a.eventIds);
  }

  /** So that the new frame will be the newest is also necessary: with pending events of its own, its
      becoming final keeps the balance of pending and folded events exactly then. */
  lemma NewestIff(n: Node, t: Turn)
    requires Once.Inv(n) && FinalizedLogged(n) && Once.Allowed(n, Engine(t))
    requires Do(n.m, t).1.Finalizes? && !t.call.Create? && Target(n.m, t).Some?
    requires Target(n.m, t).value.eventIds != [] && IdSet(Target(n.m, t).value.eventIds) <= n.dag.pending
    ensures NewestStays(n.m, Target(n.m, t).value) <==> Balanced(Once.Next(n, Engine(t)))
  {
    var a, r := Target(n.m, t).value, Once.Next(n, Engine(t));
    BalancedIff(n, r, a);
    if NewestStays(n.m, a) {
      NewestIs(n.m, t);
    } else {
      AnotherIsMarked(n, t);
      MissesTarget(n, ToMark(n.m, t), a);
    }
  }

  lemma MissesTarget(n: Node, marked: Option<Anchor>, a: Anchor)
    requires Once.Inv(n) && n.unmarked.None? && FinalizedLogged(n)
    requires marked.Some? ==> exists g | g in n.m.finalized :: g.anchor == marked.value
    requires a.eventIds != [] && IdSet(a.eventIds) <= n.dag.pending
    ensures (if marked.Some? then IdSet(marked.value.eventIds) else {}) != IdSet(a.eventIds)
  {
    var x := a.eventIds[0];
    assert x in IdSet(a.eventIds);
    if marked.Some? && x in marked.value.eventIds {
      var i :| 0 <= i < |n.log| && n.log[i] == marked.value;
      FoldedHas(n.log, i, x);
    }
  }

  // ---- An event in two anchors ----

  lemma {:induction false} LogKept(n: Node, steps: seq<Step>)
    ensures n.log <= After(n, steps).log
    decreases |steps|
  {
    if steps != [] { LogKept(n, steps[..|steps| - 1]); }
  }

  /** Once an event of the open build is in a final anchor, the build must not become final any more:
      whatever happens in between, the event is then in two final anchors. */
  lemma SharedIsFoldedTwice(n: Node, t: Turn, steps: seq<Step>, u: Turn, id: Digest, x: EventId)
    requires id in n.m.builds && x in n.m.builds[id].anchor.eventIds
    requires NewAnchor(n.m, t) != [] && x in Target(n.m, t).value.eventIds
    requires NewAnchor(After(Once.Next(n, Engine(t)), steps).m, u) == [n.m.builds[id].anchor]
    ensures !Disjoint(Once.Next(After(Once.Next(n, Engine(t)), steps), Engine(u)).log)
  {
    var one := Once.Next(n, Engine(t));
    var two := After(one, steps);
    LogKept(one, steps);
    var log := Once.Next(two, Engine(u)).log;
    var i, j := |n.log|, |two.log|;
    assert one.log[i] == Target(n.m, t).value && two.log[i] == one.log[i];
    assert log[i] == Target(n.m, t).value && log[j] == n.m.builds[id].anchor;
    assert x in IdSet(log[i].eventIds) && x in IdSet(log[j].eventIds);
  }

  // ---- A run in which that happens ----

  const CFG := Config(0, 1, 1, 0, 2)
  const START := Builder(CFG, INITIAL, INITIAL, map[], map[], ChainMeta(None, 0, 0, Zero, 0), None)
  const EVENT := Event(1, Transfer, [], None, 0, None)

  function Build(at: nat): PendingBuild { PrepareFrom(START, [EVENT], 0, 0, at) }

  /** The frame proposed at a given time, with one vote or two. */
  function Proposed(at: nat, votes: map<ValidatorId, Vote>): Frame {
    Frame(FrameIdOf(0, Build(at).anchor.id, "a", at), 0, Build(at).anchor, "a", FrameStatus.Proposed, votes, at)
  }

  function IdAt(at: nat): Digest { Proposed(at, map[]).id }

  function OneVote(at: nat): map<ValidatorId, Vote> { map["a" := Vote("a", IdAt(at), true)] }

  function TwoVotes(at: nat): map<ValidatorId, Vote> {
    map["a" := Vote("a", IdAt(at), true), "b" := Vote("b", IdAt(at), true)]
  }

  lemma OnlyOne()
    ensures Select(CFG, [EVENT], {}) == [EVENT]
  {
    assert Eligible([EVENT], {}) == [EVENT] by { assert [EVENT][1..] == []; }
    assert SortByVlc([EVENT]) == [EVENT] by { assert [EVENT][1..] == []; assert SortByVlc([]) == []; }
    assert Scan([EVENT], {}).kept == [EVENT] by { assert [EVENT][1..] == []; }
  }

  /** An event without a result leaves the state tree alone. */
  lemma NoEffect(g: GlobalState, depth: nat)
    ensures StateRoot(ApplyCommitted(g, [EVENT], depth).state) == StateRoot(g)
  {
    assert SortByVlc([EVENT]) == [EVENT] by { assert [EVENT][1..] == []; assert SortByVlc([]) == []; }
    assert [EVENT][..0] == [];
    var g0 := g.(lastDepth := if g.lastDepth < depth then depth else g.lastDepth);
    assert ApplyAll(g0, [], depth).state == g0;
    assert EffectOf(g0.cells, EVENT).touched == {};
    assert g0.subnets + {} == g.subnets;
    assert ApplyAll(g0, [EVENT], depth).state == StepEvent(g0, EVENT, depth);
  }

  lemma TwoApprove(at: nat)
    ensures Approvals(TwoVotes(at)) == 2 && HasQuorum(Proposed(at, TwoVotes(at)), 2)
  {
    var v := TwoVotes(at);
    assert (set x | x in v && v[x].approve) == {"a", "b"};
  }

  lemma OneIsOpen(at: nat)
    ensures !HasQuorum(Proposed(at, OneVote(at)), 2) && !IsRejected(Proposed(at, OneVote(at)), 2)
  {
    var v := OneVote(at);
    assert (set x | x in v && v[x].approve) == {"a"};
    assert (set x | x in v && !v[x].approve) == {};
  }

  ghost predicate Plain(m: Manager) { m.cfg == CFG && m.localId == "a" && m.buffered == map[] && m.persisted == {} }

  ghost predicate IdleAt(m: Manager) {
    && Plain(m) && m.builder == START
    && m.frames == map[] && m.builds == map[] && m.frameEvents == map[] && m.finalized == []
  }

  ghost predicate OpenAt(m: Manager, at: nat) {
    && Plain(m) && m.builder == START && m.finalized == [] && m.frameEvents == map[]
    && m.frames == map[IdAt(at) := Proposed(at, OneVote(at))] && m.builds == map[IdAt(at) := Build(at)]
  }

  function Propose(at: nat): Turn { Turn(Create(Proposal(false, 0, [EVENT], 0, 0, 0, at)), true, at) }

  lemma Creates(m: Manager, at: nat)
    requires IdleAt(m)
    ensures PrepareProposal(m, Propose(at).call.p) == Ready(Build(at))
    ensures TryCreate(m, Propose(at).call.p) ==
            (m.(frames := map[IdAt(at) := Proposed(at, map[])], builds := map[IdAt(at) := Build(at)]),
             Some(Proposed(at, map[])))
  {
    OnlyOne();
    assert InFlight(m) == {};
    assert PrepareProposal(m, Propose(at).call.p) == Ready(Build(at));
    assert m.frames[IdAt(at) := Proposed(at, map[])] == map[IdAt(at) := Proposed(at, map[])];
  }

  lemma Opens(m: Manager, at: nat)
    requires IdleAt(m)
    ensures Sensible(m, Propose(at)) && Do(m, Propose(at)).1.StillPending? && OpenAt(Do(m, Propose(at)).0, at)
    ensures Target(m, Propose(at)) == Some(Build(at).anchor)
  {
    Creates(m, at);
    CastsFirst(TryCreate(m, Propose(at).call.p).0, at);
    DoIsReach(m, Propose(at));
    OneIsOpen(at);
  }

  lemma CastsFirst(s: Manager, at: nat)
    requires Plain(s) && s.frames == map[IdAt(at) := Proposed(at, map[])]
    ensures var (c, about) := Cast(s, IdAt(at));
            about == Some(IdAt(at)) && c == s.(frames := map[IdAt(at) := Proposed(at, OneVote(at))])
  {
    assert map[]["a" := Vote("a", IdAt(at), true)] == OneVote(at);
    assert s.frames[IdAt(at) := Proposed(at, OneVote(at))] == map[IdAt(at) := Proposed(at, OneVote(at))];
  }

  function Expire(now: nat): Turn { Turn(Maintain, true, now) }

  lemma GivesUp(m: Manager, at: nat, now: nat)
    requires OpenAt(m, at) && at < now
    ensures IdleAt(Do(m, Expire(now)).0) && Do(m, Expire(now)).1.StillPending?
  {
    assert TimedOutIds(m, now) == {IdAt(at)};
  }

  // ---- The first frame returns ----

  function Returned(d: DagState): Turn {
    Turn(ReceiveFinal(d, Proposed(1, TwoVotes(1)), [Vote("a", IdAt(1), true), Vote("b", IdAt(1), true)]), true, 3)
  }

  /** The first frame is final; the second is still open. */
  ghost predicate OneFinal(m: Manager) {
    && Plain(m) && m.finalized == [Proposed(1, TwoVotes(1)).(status := FrameFinalized)] && m.frameEvents == map[]
    && m.frames == map[IdAt(3) := Proposed(3, OneVote(3))] && m.builds == map[IdAt(3) := Build(3)]
    && m.builder.meta == Synchronized(START.meta, Build(1).anchor) && StateRoot(m.builder.gsm) == StateRoot(INITIAL)
  }

  ghost predicate HasEvent(d: DagState) { d.Consistent() && 1 in d.events && d.events[1].event == EVENT }

  lemma ReturnReach(m: Manager, d: DagState)
    requires OpenAt(m, 3) && HasEvent(d)
    ensures var (c, about) := Reach(m, Returned(d));
            && about == Some(IdAt(1)) && Plain(c) && c.builder == START && c.finalized == [] && c.builds == m.builds
            && c.frames == map[IdAt(3) := Proposed(3, OneVote(3)), IdAt(1) := Proposed(1, TwoVotes(1))]
            && c.frameEvents == map[IdAt(1) := [EVENT]]
  {
    var f := Proposed(1, TwoVotes(1));
    assert IdAt(1) != IdAt(3);
    assert f.anchor.eventIds == [1];
    assert [1][..0] == [] && CollectEvents(d, []) == [];
    assert CollectEvents(d, [1]) == [EVENT];
    assert AddAllOnce(f.votes, []) == f.votes;
    var s := StoreEvents(m, d, f);
    assert s.frameEvents == map[IdAt(1) := [EVENT]];
    assert s.buffered - {f.id} == map[];
  }

  lemma FollowsFirst()
    ensures var (b, r) := Follow(START, [EVENT], Build(1).anchor, true, 3);
            r.Done? && b.meta == Synchronized(START.meta, Build(1).anchor) && StateRoot(b.gsm) == StateRoot(INITIAL)
  {
    NoEffect(INITIAL, 0);
    NoEffect(INITIAL, Build(1).anchor.depth + 1);
  }

  lemma Returns(m: Manager, d: DagState)
    requires OpenAt(m, 3) && HasEvent(d)
    ensures Sensible(m, Returned(d)) && Do(m, Returned(d)).1 == Finalizes(IdAt(1)) && OneFinal(Do(m, Returned(d)).0)
  {
    ReturnReach(m, d);
    DoIsReach(m, Returned(d));
    var (c, about) := Reach(m, Returned(d));
    TwoApprove(1);
    ReturnFinishes(c);
  }

  lemma ReturnFinishes(c: Manager)
    requires Plain(c) && c.builder == START && c.finalized == [] && c.builds == map[IdAt(3) := Build(3)]
    requires c.frames == map[IdAt(3) := Proposed(3, OneVote(3)), IdAt(1) := Proposed(1, TwoVotes(1))]
    requires c.frameEvents == map[IdAt(1) := [EVENT]]
    ensures var (n, o) := Finish(c, IdAt(1), true, 3); o == Finalizes(IdAt(1)) && OneFinal(n)
  {
    FollowsFirst();
    assert IdAt(1) != IdAt(3);
    assert c.frames - {IdAt(1)} == map[IdAt(3) := Proposed(3, OneVote(3))];
    assert c.builds - {IdAt(1)} == c.builds && c.frameEvents - {IdAt(1)} == map[];
    assert ApplyFrame(c, IdAt(1), Build(1).anchor, true, 3)
           == (Follow(START, [EVENT], Build(1).anchor, true, 3).0, None);
  }

  // ---- The second frame gets its quorum ----

  const LAST_VOTE := Turn(VoteArrives(Vote("b", IdAt(3), true)), true, 3)

  lemma CommitFallsBack(m: Manager)
    requires OneFinal(m)
    ensures ApplyFrame(m, IdAt(3), Build(3).anchor, true, 3).1.None?
  {
    var p := Build(3);
    var lead := Commit(m.builder, p, true, 3);
    assert !VerifySnapshot(m.builder.meta, p.snapshot);
    assert lead.1 == Refused(SnapshotMismatch(p.snapshot.depth, m.builder.meta.depth)) && lead.0.gsm == m.builder.gsm;
    NoEffect(INITIAL, 0);
    NoEffect(lead.0.gsm, p.anchor.depth + 1);
  }

  lemma VoteDecides(m: Manager)
    requires OneFinal(m)
    ensures Do(m, LAST_VOTE).1 == Finalizes(IdAt(3)) && Target(m, LAST_VOTE) == Some(Build(3).anchor)
  {
    DoIsReach(m, LAST_VOTE);
    var (c, about) := Reach(m, LAST_VOTE);
    assert OneVote(3)["b" := Vote("b", IdAt(3), true)] == TwoVotes(3);
    assert c.frames[IdAt(3)] == Proposed(3, TwoVotes(3));
    TwoApprove(3);
    CommitFallsBack(m);
    assert ApplyFrame(c, IdAt(3), Build(3).anchor, true, 3) == ApplyFrame(m, IdAt(3), Build(3).anchor, true, 3);
    FinishShape(c, IdAt(3), true, 3);
  }

  // ---- All together ----

  lemma {:induction false} OneMore(n: Node, steps: seq<Step>, step: Step) returns (more: seq<Step>)
    requires AllowedRun(n, steps) && Once.Allowed(After(n, steps), step)
    ensures AllowedRun(n, more) && After(n, more) == Once.Next(After(n, steps), step)
  {
    more := steps + [step];
    assert more[..|more| - 1] == steps;
  }

  ghost predicate Holding(n: Node) {
    && HasEvent(n.dag) && n.dag.pending == {1} && n.dag.events.Keys == {1}
    && n.added == {1} && n.log == [] && n.unmarked == None
  }

  lemma Given(n: Node)
    requires n == Fresh(CFG, "a", START)
    ensures Once.Allowed(n, Add(Stored(EVENT, Pending), 0)) && Holding(Once.Next(n, Add(Stored(EVENT, Pending), 0)))
    ensures IdleAt(Once.Next(n, Add(Stored(EVENT, Pending), 0)).m)
  {
    InsertedConsistent(EMPTY, Stored(EVENT, Pending), 0);
  }

  lemma ListsEvent(n: Node)
    requires Holding(n)
    ensures Lists(n.dag, [EVENT])
  {
  }

  lemma StillHolding(n: Node, t: Turn)
    requires Holding(n) && Do(n.m, t).1.StillPending?
    ensures Holding(Once.Next(n, Engine(t)))
  {
    assert n.log + [] == n.log;
  }

  lemma CanPropose(n: Node, at: nat)
    requires Holding(n) && IdleAt(n.m)
    ensures Once.Allowed(n, Engine(Propose(at)))
    ensures Holding(Once.Next(n, Engine(Propose(at)))) && OpenAt(Once.Next(n, Engine(Propose(at))).m, at)
  {
    Opens(n.m, at);
    ListsEvent(n);
    StillHolding(n, Propose(at));
  }

  lemma CanGiveUp(n: Node)
    requires Holding(n) && OpenAt(n.m, 1)
    ensures Once.Allowed(n, Engine(Expire(2)))
    ensures Holding(Once.Next(n, Engine(Expire(2)))) && IdleAt(Once.Next(n, Engine(Expire(2))).m)
  {
    GivesUp(n.m, 1, 2);
    StillHolding(n, Expire(2));
  }

  lemma CanReturn(n: Node)
    requires Holding(n) && OpenAt(n.m, 3) && Proposed(1, TwoVotes(1)) in n.cleared
    ensures Once.Allowed(n, Engine(Returned(n.dag)))
    ensures var r := Once.Next(n, Engine(Returned(n.dag))); r.log == [Build(1).anchor] && OneFinal(r.m)
  {
    Returns(n.m, n.dag);
    assert Build(1).anchor.eventIds == [1];
    assert [] + [Build(1).anchor] == [Build(1).anchor];
  }

  /** The first frame has been given up, the second is open, and the first may come back. */
  ghost predicate Waiting(n: Node) { Holding(n) && OpenAt(n.m, 3) && Proposed(1, TwoVotes(1)) in n.cleared }

  lemma Start() returns (steps: seq<Step>)
    ensures var s0 := Fresh(CFG, "a", START);
            AllowedRun(s0, steps) && Holding(After(s0, steps)) && OpenAt(After(s0, steps).m, 1)
  {
    var s0 := Fresh(CFG, "a", START);
    Given(s0);
    steps := OneMore(s0, [], Add(Stored(EVENT, Pending), 0));
    CanPropose(After(s0, steps), 1);
    steps := OneMore(s0, steps, Engine(Propose(1)));
  }

  lemma CheckFirst(n: Node)
    requires Holding(n) && OpenAt(n.m, 3)
    ensures Waiting(Once.Next(n, Check(Proposed(1, TwoVotes(1)))))
  {
  }

  lemma Again(s0: Node, steps: seq<Step>) returns (more: seq<Step>)
    requires AllowedRun(s0, steps) && Holding(After(s0, steps)) && OpenAt(After(s0, steps).m, 1)
    ensures AllowedRun(s0, more) && Waiting(After(s0, more))
  {
    CanGiveUp(After(s0, steps));
    more := OneMore(s0, steps, Engine(Expire(2)));
    CanPropose(After(s0, more), 3);
    more := OneMore(s0, more, Engine(Propose(3)));
    CheckFirst(After(s0, more));
    more := OneMore(s0, more, Check(Proposed(1, TwoVotes(1))));
  }

  /** The node gives its first frame up, builds a second one over the same event, gets the first one
      back as final, and then the votes for the second: both are in the log. */
  lemma FoldedTwice() returns (steps: seq<Step>)
    ensures AllowedRun(Fresh(CFG, "a", START), steps)
    ensures After(Fresh(CFG, "a", START), steps).log == [Build(1).anchor, Build(3).anchor]
    ensures !Disjoint(After(Fresh(CFG, "a", START), steps).log)
  {
    var s0 := Fresh(CFG, "a", START);
    steps := Start();
    steps := Again(s0, steps);
    steps := Return(s0, steps);
    steps := LastVote(s0, steps);
    BothNameIt([Build(1).anchor, Build(3).anchor]);
  }

  lemma BothNameIt(log: seq<Anchor>)
    requires log == [Build(1).anchor, Build(3).anchor]
    ensures !Disjoint(log)
  {
    assert log[0].eventIds == [1] && log[1].eventIds == [1];
    assert 1 in IdSet(log[0].eventIds) && 1 in IdSet(log[1].eventIds);
  }

  lemma Return(s0: Node, steps: seq<Step>) returns (more: seq<Step>)
    requires AllowedRun(s0, steps) && Waiting(After(s0, steps))
    ensures AllowedRun(s0, more)
    ensures var n := After(s0, more); n.log == [Build(1).anchor] && OneFinal(n.m) && n.unmarked.None?
  {
    CanReturn(After(s0, steps));
    more := OneMore(s0, steps, Engine(Returned(After(s0, steps).dag)));
    more := OneMore(s0, more, Mark);
  }

  lemma LastVote(s0: Node, steps: seq<Step>) returns (more: seq<Step>)
    requires AllowedRun(s0, steps)
    requires var n := After(s0, steps); n.log == [Build(1).anchor] && OneFinal(n.m) && n.unmarked.None?
    ensures AllowedRun(s0, more) && After(s0, more).log == [Build(1).anchor, Build(3).anchor]
  {
    VoteDecides(After(s0, steps).m);
    more := OneMore(s0, steps, Engine(LAST_VOTE));
    assert [Build(1).anchor] + [Build(3).anchor] == [Build(1).anchor, Build(3).anchor];
  }
}
