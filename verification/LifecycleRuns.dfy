/** Whole runs of engine calls. */
module LifecycleRuns {
  import opened Types
  import opened StateApply
  import opened BuilderModel
  import opened ManagerModel
  import opened Agreement
  import Overlay
  import opened Lifecycle
  import opened Calls

  /** The open build is given up as soon as its frame ends, in whatever way. */
  lemma GuardReleased(m: Manager, id: Digest, storageOk: bool, now: nat)
    requires Inv(m) && id in m.builds && !Classify(m, id, storageOk, now).1.StillPending?
    ensures Classify(m, id, storageOk, now).0.builds == map[]
  {
    FinishShape(m, id, storageOk, now);
    assert Discard(m, id).builds == map[];
  }

  // ---- The chain over a run ----

  /** The anchor an engine call made final, if it did. */
  function NewAnchor(m: Manager, t: Turn): seq<Anchor> {
    if Do(m, t).1.Finalizes? && Target(m, t).Some? then [Target(m, t).value] else []
  }

  /** Chain metadata moves by that anchor and by nothing else. */
  ghost predicate MovesBy(m: Manager, t: Turn) {
    && (Do(m, t).1.Finalizes? <==> NewAnchor(m, t) != [])
    && Do(m, t).0.builder.meta == SyncAll(m.builder.meta, NewAnchor(m, t))
  }

  lemma SyncOne(m: ChainMeta, a: Anchor)
    ensures SyncAll(m, [a]) == Synchronized(m, a) && SyncAll(m, []) == m
  {
    assert [a][..0] == [];
  }

  /** An engine call moves the chain by the one anchor it makes final, or not at all. */
  lemma DoMoves(m: Manager, t: Turn)
    requires Inv(m) && Sensible(m, t)
    ensures MovesBy(m, t)
  {
    DoIsReach(m, t);
    ReachKeeps(m, t);
    ReachIs(m, t);
    var (c, about) := Reach(m, t);
    if about.Some? {
      FailClosed(c, about.value, t.storageOk, t.now);
      SyncOne(m.builder.meta, c.frames[about.value].anchor);
    }
  }

  /** The managers a run passes through, and the anchors each call made final. */
  ghost predicate Trace(ms: seq<Manager>, turns: seq<Turn>, made: seq<seq<Anchor>>) {
    && |ms| == |turns| + 1 && |made| == |turns|
    && forall i {:trigger StepAt(ms, turns, made, i)} | 0 <= i < |turns| :: StepAt(ms, turns, made, i)
  }

  ghost predicate StepAt(ms: seq<Manager>, turns: seq<Turn>, made: seq<seq<Anchor>>, i: nat)
    requires |ms| == |turns| + 1 && |made| == |turns| && i < |turns|
  {
    StepOf(ms[i], turns[i], ms[i + 1], made[i])
  }

  ghost predicate StepOf(m: Manager, t: Turn, n: Manager, made: seq<Anchor>) {
    Sensible(m, t) && n == Do(m, t).0 && made == NewAnchor(m, t)
  }

  /** `t` leads from `m` to `r`. */
  ghost predicate Leads(m: Manager, t: Turn, r: Manager) { exists anchors: seq<Anchor> :: StepOf(m, t, r, anchors) }

  lemma DoLeads(m: Manager, t: Turn)
    requires Sensible(m, t)
    ensures Leads(m, t, Do(m, t).0)
  {
    assert StepOf(m, t, Do(m, t).0, NewAnchor(m, t));
  }

  /** The same place in two runs. */
  lemma SameStep(ms: seq<Manager>, turns: seq<Turn>, made: seq<seq<Anchor>>,
                 ms': seq<Manager>, turns': seq<Turn>, made': seq<seq<Anchor>>, i: nat)
    requires |ms| == |turns| + 1 && |made| == |turns| && i < |turns| && StepAt(ms, turns, made, i)
    requires |ms'| == |turns'| + 1 && |made'| == |turns'| && i < |turns'|
    requires ms'[i] == ms[i] && ms'[i + 1] == ms[i + 1] && turns'[i] == turns[i] && made'[i] == made[i]
    ensures StepAt(ms', turns', made', i)
  {
  }

  lemma PlacedStep(ms: seq<Manager>, turns: seq<Turn>, made: seq<seq<Anchor>>, i: nat,
                   m: Manager, t: Turn, r: Manager, anchors: seq<Anchor>)
    requires |ms| == |turns| + 1 && |made| == |turns| && i < |turns| && StepOf(m, t, r, anchors)
    requires ms[i] == m && turns[i] == t && ms[i + 1] == r && made[i] == anchors
    ensures StepAt(ms, turns, made, i)
  {
  }

  lemma OlderSteps(ms: seq<Manager>, turns: seq<Turn>, made: seq<seq<Anchor>>,
                   ms': seq<Manager>, turns': seq<Turn>, made': seq<seq<Anchor>>)
    requires Trace(ms, turns, made) && ms <= ms' && turns <= turns' && made <= made'
    requires |ms'| == |turns'| + 1 && |made'| == |turns'|
    ensures forall i {:trigger StepAt(ms', turns', made', i)} | 0 <= i < |turns| :: StepAt(ms', turns', made', i)
  {
    forall i {:trigger StepAt(ms', turns', made', i)} | 0 <= i < |turns| ensures StepAt(ms', turns', made', i) {
      SameStep(ms, turns, made, ms', turns', made', i);
    }
  }

  lemma OneMoreTurn(ms: seq<Manager>, turns: seq<Turn>, made: seq<seq<Anchor>>, t: Turn, r: Manager)
    returns (made': seq<seq<Anchor>>)
    requires Trace(ms, turns, made) && Leads(ms[|turns|], t, r)
    ensures Trace(ms + [r], turns + [t], made')
  {
    var anchors: seq<Anchor> :| StepOf(ms[|turns|], t, r, anchors);
    made' := made + [anchors];
    OlderSteps(ms, turns, made, ms + [r], turns + [t], made');
    PlacedStep(ms + [r], turns + [t], made', |turns|, ms[|turns|], t, r, anchors);
  }

  /** The anchors made final, in order. */
  function Log(made: seq<seq<Anchor>>): seq<Anchor> {
    if made == [] then [] else Log(made[..|made| - 1]) + made[|made| - 1]
  }

  lemma {:induction false} SyncMore(m: ChainMeta, a: seq<Anchor>, b: seq<Anchor>)
    ensures SyncAll(m, a + b) == SyncAll(SyncAll(m, a), b)
    decreases |b|
  {
    if b == [] {
      assert a + b == a;
    } else {
      var k := |b| - 1;
      SyncMore(m, a, b[..k]);
      assert (a + b)[..|a + b| - 1] == a + b[..k];
    }
  }

  /** Over every run: the lifecycle invariant holds, and the chain is where the finalized anchors
      put it. */
  lemma {:induction false} RunKeeps(ms: seq<Manager>, turns: seq<Turn>, made: seq<seq<Anchor>>, i: nat)
    requires Trace(ms, turns, made) && Inv(ms[0]) && i <= |turns|
    ensures Inv(ms[i]) && ms[i].builder.meta == SyncAll(ms[0].builder.meta, Log(made[..i]))
    decreases i
  {
    if i > 0 {
      RunKeeps(ms, turns, made, i - 1);
      assert StepAt(ms, turns, made, i - 1);
      StepForward(ms[i - 1], turns[i - 1], ms[i], made[i - 1]);
      LogForward(made, i, ms[0].builder.meta);
    }
  }

  lemma LogForward(made: seq<seq<Anchor>>, i: nat, start: ChainMeta)
    requires 0 < i <= |made|
    ensures SyncAll(start, Log(made[..i])) == SyncAll(SyncAll(start, Log(made[..i - 1])), made[i - 1])
  {
    assert made[..i][..i - 1] == made[..i - 1];
    SyncMore(start, Log(made[..i - 1]), made[i - 1]);
  }

  lemma StepForward(m: Manager, t: Turn, n: Manager, made: seq<Anchor>)
    requires Inv(m) && StepOf(m, t, n, made)
    ensures Inv(n) && n.builder.meta == SyncAll(m.builder.meta, made)
  {
    DoKeeps(m, t);
    DoMoves(m, t);
  }

  lemma {:induction false} CountIs(m: ChainMeta, anchors: seq<Anchor>)
    ensures SyncAll(m, anchors).count == m.count + |anchors|
    decreases |anchors|
  {
    if anchors != [] { CountIs(m, anchors[..|anchors| - 1]); }
  }

  /** The anchor count grows by exactly the number of finalized anchors; and if every anchor carries
      the chain root it was applied on, the chain root is the left fold of the chain hash over all
      of them in commit order. */
  lemma RunChain(ms: seq<Manager>, turns: seq<Turn>, made: seq<seq<Anchor>>, i: nat)
    requires Trace(ms, turns, made) && Inv(ms[0]) && i <= |turns|
    ensures var start, log := ms[0].builder.meta, Log(made[..i]);
            && ms[i].builder.meta.count == start.count + |log|
            && (Chained(start, log) ==> ms[i].builder.meta.chainRoot == ChainRoot(start.chainRoot, log))
  {
    RunKeeps(ms, turns, made, i);
    CountIs(ms[0].builder.meta, Log(made[..i]));
    if Chained(ms[0].builder.meta, Log(made[..i])) { ChainIsFold(ms[0].builder.meta, Log(made[..i])); }
  }

  // ---- The build guard over a run ----

  ghost predicate Empty(m: Manager) {
    m.frames == map[] && m.builds == map[] && m.frameEvents == map[] && m.finalized == []
  }

  /** From an empty manager on: an open build is the only one and its frame is pending; and a clean-up
      that comes after the frame's timeout, wherever in the run it falls, frees the guard. */
  lemma GuardNotOrphaned(ms: seq<Manager>, turns: seq<Turn>, made: seq<seq<Anchor>>, i: nat)
    requires Trace(ms, turns, made) && Empty(ms[0]) && i <= |turns|
    ensures forall id | id in ms[i].builds ::
              ms[i].builds.Keys == {id} && id in ms[i].frames && ms[i].frames[id].anchor == ms[i].builds[id].anchor
    ensures i < |turns| && turns[i].call.Maintain?
            && (forall id | id in ms[i].builds :: turns[i].now > ms[i].frames[id].createdAt + ms[i].cfg.timeoutMs)
            ==> ms[i + 1].builds == map[]
  {
    RunKeeps(ms, turns, made, i);
    forall id | id in ms[i].builds ensures ms[i].builds.Keys == {id} { OnlyBuild(ms[i].builds, id); }
    if i < |turns| {
      assert StepAt(ms, turns, made, i);
      if turns[i].call.Maintain? { CleanupFrees(ms[i], turns[i], ms[i + 1]); }
    }
  }

  lemma OnlyBuild(builds: map<Digest, PendingBuild>, id: Digest)
    requires OneBuild(builds) && id in builds
    ensures builds.Keys == {id}
  {
  }

  lemma CleanupFrees(m: Manager, t: Turn, n: Manager)
    requires Inv(m) && t.call.Maintain? && n == Do(m, t).0
    ensures (forall id | id in m.builds :: t.now > m.frames[id].createdAt + m.cfg.timeoutMs) ==> n.builds == map[]
  {
  }

  // ---- Frames that become final twice ----

  /** The frame an engine call made final, if it did. */
  ghost predicate MakesFinal(m: Manager, t: Turn, id: Digest) { Do(m, t).1 == Finalizes(id) }

  lemma FinalIsNew(m: Manager, t: Turn, id: Digest)
    requires Inv(m) && Sensible(m, t) && MakesFinal(m, t, id)
    ensures id !in FinalizedIds(m)
  {
    DoIsReach(m, t);
    ReachKeeps(m, t);
    ReachIs(m, t);
    ClassifyFinal(Reach(m, t).0, Reach(m, t).1.value, t.storageOk, t.now);
  }

  /** The frame is persisted, and of the persisted frames before it there are fewer than the list, once
      another is appended, has too many. */
  ghost predicate DropsOld(fs: seq<Frame>, persisted: set<Digest>, id: Digest) {
    exists i | 0 <= i < |fs| && fs[i].id == id ::
      fs[i].anchor.id in persisted && PersistedCount(fs[..i], persisted) <= |fs| - MAX_FINALIZED
  }

  /** The same for the frame that is appended. */
  predicate DropsNew(fs: seq<Frame>, persisted: set<Digest>, a: Anchor) {
    a.id in persisted && PersistedCount(fs, persisted) <= |fs| - MAX_FINALIZED
  }

  /** The call makes a frame final, meets a full list, and frame `id` is one of the oldest persisted. */
  ghost predicate Forgets(m: Manager, t: Turn, id: Digest) {
    && Do(m, t).1.Finalizes? && |m.finalized| >= MAX_FINALIZED
    && (DropsOld(m.finalized, m.persisted, id)
        || (MakesFinal(m, t, id) && Target(m, t).Some? && DropsNew(m.finalized, m.persisted, Target(m, t).value)))
  }

  /** What trimming keeps, place by place. */
  lemma {:induction false} RetainsIff(fs: seq<Frame>, persisted: set<Digest>, excess: nat, i: nat)
    requires NoRepeats(fs) && i < |fs|
    ensures fs[i] in Retain(fs, persisted, excess) <==>
            (fs[i].anchor.id !in persisted || PersistedCount(fs[..i], persisted) >= excess)
    decreases |fs|
  {
    var drops := excess > 0 && fs[0].anchor.id in persisted;
    var less := if drops then excess - 1 else excess;
    RetainIsPart(fs[1..], persisted, less);
    if i == 0 {
      assert fs[0] !in fs[1..];
    } else {
      assert NoRepeats(fs[1..]) && fs[1..][i - 1] == fs[i] && fs[1..][..i - 1] == fs[..i][1..];
      RetainsIff(fs[1..], persisted, less, i - 1);
    }
  }

  lemma KeptById(fs: seq<Frame>, kept: seq<Frame>, i: nat)
    requires NoRepeats(fs) && i < |fs| && forall g | g in kept :: g in fs
    ensures fs[i].id in (set g | g in kept :: g.id) <==> fs[i] in kept
  {
  }

  lemma TrimsIff(fs: seq<Frame>, persisted: set<Digest>, i: nat)
    requires NoRepeats(fs) && i < |fs|
    ensures fs[i].id in (set g | g in Trimmed(fs, persisted) :: g.id) <==>
            !(|fs| > MAX_FINALIZED && fs[i].anchor.id in persisted
              && PersistedCount(fs[..i], persisted) < |fs| - MAX_FINALIZED)
  {
    TrimIsPart(fs, persisted);
    KeptById(fs, Trimmed(fs, persisted), i);
    if |fs| > MAX_FINALIZED { RetainsIff(fs, persisted, |fs| - MAX_FINALIZED, i); }
  }

  /** The frame a call appends to the finalized ones before it trims them. */
  lemma FinalFrame(m: Manager, t: Turn) returns (f: Frame)
    requires Inv(m) && Sensible(m, t) && Do(m, t).1.Finalizes?
    ensures f.id == Do(m, t).1.id && Target(m, t) == Some(f.anchor)
    ensures Do(m, t).0.finalized == Trimmed(m.finalized + [f], m.persisted)
  {
    var c, id := FinalReach(m, t);
    f := FrameOf(m, t, c, id);
  }

  lemma FinalReach(m: Manager, t: Turn) returns (c: Manager, id: Digest)
    requires Inv(m) && Sensible(m, t) && Do(m, t).1.Finalizes?
    ensures Inv(c) && ReachParts(m, t, c, Some(id)) && !t.call.MarkPersisted?
    ensures Do(m, t) == Classify(c, id, t.storageOk, t.now)
  {
    DoIsReach(m, t);
    ReachKeeps(m, t);
    ReachIs(m, t);
    c, id := Reach(m, t).0, Reach(m, t).1.value;
  }

  lemma FrameOf(m: Manager, t: Turn, c: Manager, id: Digest) returns (f: Frame)
    requires Inv(c) && ReachParts(m, t, c, Some(id)) && Classify(c, id, t.storageOk, t.now).1.Finalizes?
    ensures f.id == Classify(c, id, t.storageOk, t.now).1.id && Target(m, t) == Some(f.anchor)
    ensures !t.call.MarkPersisted? ==>
              Classify(c, id, t.storageOk, t.now).0.finalized == Trimmed(m.finalized + [f], m.persisted)
  {
    f := ClassifiedFrame(c, id, t.storageOk, t.now);
  }

  lemma ClassifiedFrame(c: Manager, id: Digest, storageOk: bool, now: nat) returns (f: Frame)
    requires Inv(c) && Classify(c, id, storageOk, now).1.Finalizes?
    ensures id in c.frames && f.anchor == c.frames[id].anchor && f.id == id == Classify(c, id, storageOk, now).1.id
    ensures Classify(c, id, storageOk, now).0.finalized == Trimmed(c.finalized + [f], c.persisted)
  {
    ClassifyFinal(c, id, storageOk, now);
    FinishShape(c, id, storageOk, now);
    f := c.frames[id].(status := FrameFinalized);
  }

  lemma NoneAppended(m: Manager, t: Turn)
    requires Inv(m) && Sensible(m, t) && !Do(m, t).1.Finalizes?
    ensures Do(m, t).0.finalized == m.finalized
  {
    DoIsReach(m, t);
    ReachKeeps(m, t);
    ReachIs(m, t);
    var (c, about) := Reach(m, t);
    if about.Some? { FailClosed(c, about.value, t.storageOk, t.now); }
  }

  /** Exactly such a call forgets a finalized frame, the one it has just added included. */
  lemma ForgetsIff(m: Manager, t: Turn, id: Digest)
    requires Inv(m) && Sensible(m, t) && (id in FinalizedIds(m) || MakesFinal(m, t, id))
    ensures id !in FinalizedIds(Do(m, t).0) <==> Forgets(m, t, id)
  {
    if Do(m, t).1.Finalizes? {
      FinalIsNew(m, t, Do(m, t).1.id);
      var f := FinalFrame(m, t);
      assert forall g | g in m.finalized :: g.id in FinalizedIds(m);
      if id == f.id { NewDropped(m.finalized, m.persisted, f); } else { OldDropped(m.finalized, m.persisted, f, id); }
    } else {
      NoneAppended(m, t);
    }
  }

  lemma OldDropped(fs: seq<Frame>, persisted: set<Digest>, f: Frame, id: Digest)
    requires NoRepeats(fs) && (forall g | g in fs :: g.id != f.id) && exists g | g in fs :: g.id == id
    ensures id !in (set g | g in Trimmed(fs + [f], persisted) :: g.id) <==>
            |fs| >= MAX_FINALIZED && DropsOld(fs, persisted, id)
  {
    var g :| g in fs && g.id == id;
    var i :| 0 <= i < |fs| && fs[i] == g;
    OneMoreFinal(fs, f);
    TrimsIff(fs + [f], persisted, i);
    assert (fs + [f])[..i] == fs[..i] && (fs + [f])[i] == g;
  }

  lemma NewDropped(fs: seq<Frame>, persisted: set<Digest>, f: Frame)
    requires NoRepeats(fs) && (forall g | g in fs :: g.id != f.id)
    ensures f.id !in (set g | g in Trimmed(fs + [f], persisted) :: g.id) <==>
            |fs| >= MAX_FINALIZED && DropsNew(fs, persisted, f.anchor)
    ensures !DropsOld(fs, persisted, f.id)
  {
    OneMoreFinal(fs, f);
    TrimsIff(fs + [f], persisted, |fs|);
    assert (fs + [f])[..|fs|] == fs;
  }

  ghost predicate Remembered(ms: seq<Manager>, turns: seq<Turn>, i: nat, j: nat, id: Digest)
    requires |ms| == |turns| + 1 && j <= |turns|
  {
    forall k | i <= k < j :: !Forgets(ms[k], turns[k], id)
  }

  lemma StayStep(ms: seq<Manager>, turns: seq<Turn>, made: seq<seq<Anchor>>, j: nat, id: Digest)
    requires Trace(ms, turns, made) && j < |turns| && Inv(ms[j]) && !Forgets(ms[j], turns[j], id)
    requires id in FinalizedIds(ms[j]) || MakesFinal(ms[j], turns[j], id)
    ensures id in FinalizedIds(ms[j + 1])
  {
    assert StepAt(ms, turns, made, j);
    ForgetsIff(ms[j], turns[j], id);
  }

  lemma {:induction false} StaysIn(ms: seq<Manager>, turns: seq<Turn>, made: seq<seq<Anchor>>, i: nat, j: nat,
                                   id: Digest)
    requires Trace(ms, turns, made) && Inv(ms[0]) && i <= j <= |turns| && id in FinalizedIds(ms[i])
    requires Remembered(ms, turns, i, j, id)
    ensures id in FinalizedIds(ms[j])
    decreases j
  {
    if i < j {
      StaysIn(ms, turns, made, i, j - 1, id);
      RunKeeps(ms, turns, made, j - 1);
      StayStep(ms, turns, made, j - 1, id);
    }
  }

  lemma BecomesFinal(ms: seq<Manager>, turns: seq<Turn>, made: seq<seq<Anchor>>, i: nat, j: nat, id: Digest)
    requires Trace(ms, turns, made) && Inv(ms[0]) && i < j <= |turns| && MakesFinal(ms[i], turns[i], id)
    requires Remembered(ms, turns, i, j, id)
    ensures id in FinalizedIds(ms[i + 1]) && Remembered(ms, turns, i + 1, j, id)
  {
    RunKeeps(ms, turns, made, i);
    StayStep(ms, turns, made, i, id);
  }

  lemma NotAgain(ms: seq<Manager>, turns: seq<Turn>, made: seq<seq<Anchor>>, j: nat, id: Digest)
    requires Trace(ms, turns, made) && Inv(ms[0]) && j < |turns| && id in FinalizedIds(ms[j])
    ensures !MakesFinal(ms[j], turns[j], id)
  {
    RunKeeps(ms, turns, made, j);
    assert StepAt(ms, turns, made, j);
    if MakesFinal(ms[j], turns[j], id) { FinalIsNew(ms[j], turns[j], id); }
  }

  /** A frame does not become final again unless some call in between forgot it. */
  lemma FinalOnlyOnce(ms: seq<Manager>, turns: seq<Turn>, made: seq<seq<Anchor>>, i: nat, j: nat, id: Digest)
    requires Trace(ms, turns, made) && Inv(ms[0]) && i < j < |turns| && MakesFinal(ms[i], turns[i], id)
    requires Remembered(ms, turns, i, j, id)
    ensures !MakesFinal(ms[j], turns[j], id)
  {
    BecomesFinal(ms, turns, made, i, j, id);
    StaysIn(ms, turns, made, i + 1, j, id);
    NotAgain(ms, turns, made, j, id);
  }

  /** What makes a frame the node has no build for applicable: all its events are there, they lead to the
      root it declares, if it does, and the store takes them. */
  predicate Applicable(b: Builder, events: seq<Event>, a: Anchor, storageOk: bool) {
    && |events| == |a.eventIds|
    && (a.roots.Some? ==> StateRoot(ApplyCommitted(b.gsm, events, a.depth + 1).state) == a.roots.value.state)
    && storageOk
  }

  /** And a forgotten frame does become final again, whenever it comes with a quorum and can be applied. */
  lemma FinalAgainIff(m: Manager, t: Turn)
    requires Inv(m) && t.call.ReceiveFinal? && t.call.f.id !in m.frames
    ensures var f := t.call.f;
            MakesFinal(m, t, f.id) <==>
            && f.id !in FinalizedIds(m)
            && HasQuorum(f.(votes := AddAllOnce(f.votes, Buffered(m, f.id))), m.cfg.validatorCount)
            && Applicable(m.builder, CollectEvents(t.call.d, f.anchor.eventIds), f.anchor, t.storageOk)
  {
    var f := t.call.f;
    if f.id !in FinalizedIds(m) {
      DoIsReach(m, t);
      ArrivalClassified(m, t, Reach(m, t).0);
      FollowsIff(m.builder, CollectEvents(t.call.d, f.anchor.eventIds), f.anchor, t.storageOk, t.now);
    }
  }

  lemma FollowsIff(b: Builder, events: seq<Event>, a: Anchor, storageOk: bool, now: nat)
    ensures Follow(b, events, a, storageOk, now).1.Done? <==> Applicable(b, events, a, storageOk)
  {
  }

  lemma ArrivalClassified(m: Manager, t: Turn, c: Manager)
    requires Inv(m) && t.call.ReceiveFinal? && t.call.f.id !in m.frames && t.call.f.id !in FinalizedIds(m)
    requires c == Reach(m, t).0
    ensures var f := t.call.f;
            Classify(c, f.id, t.storageOk, t.now).1 == Finalizes(f.id) <==>
            && HasQuorum(f.(votes := AddAllOnce(f.votes, Buffered(m, f.id))), m.cfg.validatorCount)
            && Follow(m.builder, CollectEvents(t.call.d, f.anchor.eventIds), f.anchor, t.storageOk, t.now).1.Done?
  {
    var f := t.call.f;
    assert c.frames[f.id] == f.(votes := AddAllOnce(f.votes, Buffered(m, f.id)));
    assert c.frameEvents[f.id] == CollectEvents(t.call.d, f.anchor.eventIds) && f.id !in c.builds;
    FinishShape(c, f.id, t.storageOk, t.now);
  }

  /** While every final anchor carries the root it is applied on, no anchor is final twice, however
      long the run. */
  lemma ChainedFinalOnce(ms: seq<Manager>, turns: seq<Turn>, made: seq<seq<Anchor>>, i: nat, a: nat, b: nat)
    requires Trace(ms, turns, made) && i <= |turns| && Chained(ms[0].builder.meta, Log(made[..i]))
    requires a < b < |Log(made[..i])|
    ensures Log(made[..i])[a] != Log(made[..i])[b]
  {
    ChainedDistinct(ms[0].builder.meta, Log(made[..i]), a, b);
  }

  // ---- The overlay over a run ----

  /** Calls read a DAG that knows its events by their ids, and copies of pending frames are faithful. */
  ghost predicate FaithfulRun(ms: seq<Manager>, turns: seq<Turn>, i: nat)
    requires |ms| == |turns| + 1 && i <= |turns|
  {
    forall k | 0 <= k < i ::
      && FaithfulCopy(ms[k], turns[k].call)
      && (turns[k].call.Receive? || turns[k].call.ReceiveFinal? ==> turns[k].call.d.Consistent())
  }

  lemma {:induction false} RunFits(ms: seq<Manager>, turns: seq<Turn>, made: seq<seq<Anchor>>, i: nat)
    requires Trace(ms, turns, made) && Empty(ms[0]) && i <= |turns| && FaithfulRun(ms, turns, i)
    ensures Fitting(ms[i])
    decreases i
  {
    if i > 0 {
      RunFits(ms, turns, made, i - 1);
      RunKeeps(ms, turns, made, i - 1);
      assert StepAt(ms, turns, made, i - 1);
      DoFits(ms[i - 1], turns[i - 1]);
    }
  }

  /** Over every such run, a call that ends a frame with quorum, whichever way, rids the overlay of
      exactly the frame's events. */
  lemma RunClears(ms: seq<Manager>, turns: seq<Turn>, made: seq<seq<Anchor>>, i: nat)
    requires Trace(ms, turns, made) && Empty(ms[0]) && i < |turns| && FaithfulRun(ms, turns, i + 1)
    requires Do(ms[i], turns[i]).1.Finalizes? || Do(ms[i], turns[i]).1.ApplyFails?
    ensures Target(ms[i], turns[i]).Some?
    ensures Overlay.ClearedOf(ms[i].builder.overlay, ms[i + 1].builder.overlay,
                              IdSet(Target(ms[i], turns[i]).value.eventIds))
  {
    RunFits(ms, turns, made, i);
    RunKeeps(ms, turns, made, i);
    assert StepAt(ms, turns, made, i);
    CallClears(ms[i], turns[i]);
  }

  lemma CallClears(m: Manager, t: Turn)
    requires Inv(m) && Sensible(m, t) && Fitting(m) && FaithfulCopy(m, t.call)
    requires t.call.Receive? || t.call.ReceiveFinal? ==> t.call.d.Consistent()
    requires Do(m, t).1.Finalizes? || Do(m, t).1.ApplyFails?
    ensures Target(m, t).Some?
    ensures Overlay.ClearedOf(m.builder.overlay, Do(m, t).0.builder.overlay, IdSet(Target(m, t).value.eventIds))
  {
    DoIsReach(m, t);
    ReachKeeps(m, t);
    ReachIs(m, t);
    ReachFits(m, t);
    var (c, about) := Reach(m, t);
    ClassifyQuorum(c, about.value, t.storageOk, t.now);
    FittingServes(c, about.value);
    OverlayClearedIff(c, about.value, t.storageOk, t.now);
  }

  lemma ClassifyQuorum(c: Manager, id: Digest, storageOk: bool, now: nat)
    requires Classify(c, id, storageOk, now).1.Finalizes? || Classify(c, id, storageOk, now).1.ApplyFails?
    ensures id in c.frames && HasQuorum(c.frames[id], c.cfg.validatorCount)
  {
  }
}
