/** For frames of its own the node need not look at every event: if the chain root still matches when
    the frame is made final, its events are all pending, and only the open build is left to look at. */
module ChainGuard {
  import opened Types
  import opened BuilderModel
  import opened ManagerModel
  import opened Agreement
  import opened Lifecycle
  import opened Calls
  import opened LifecycleRuns
  import opened Once

  ghost predicate Logged(log: seq<Anchor>, id: Digest) { exists i | 0 <= i < |log| :: log[i].id == id }

  /** A frame made final without a build is one the node proposed, on the chain root as it is now, and
      shares no event with the open build.  Only final anchors are marked persisted. */
  ghost predicate Guarded(n: Node, t: Turn) {
    && (t.call.MarkPersisted? ==> Logged(n.log, t.call.anchor))
    && (Do(n.m, t).1.Finalizes? && !HasBuild(n.m, t.call) && Target(n.m, t).Some? ==>
          var a := Target(n.m, t).value;
          && a in n.proposed && a.roots.Some? && ChainMatches(n.m, a)
          && (forall id | id in n.m.builds :: IdSet(n.m.builds[id].anchor.eventIds) !! IdSet(a.eventIds)))
  }

  ghost predicate GuardedRun(n: Node, steps: seq<Step>) {
    steps == [] || (GuardedRun(n, steps[..|steps| - 1])
                    && (steps[|steps| - 1].Engine? ==> Guarded(After(n, steps[..|steps| - 1]), steps[|steps| - 1].t)))
  }

  /** How long the chain was when the anchor was built. */
  function Height(a: Anchor): nat { if a.roots.Some? then ChainLength(a.roots.value.chain) else 0 }

  /** No proposed anchor is above the chain; one that is built on its very root has all its events free. */
  ghost predicate Below(proposed: set<Anchor>, root: Digest, free: set<EventId>) {
    forall a | a in proposed ::
      a.roots.Some? && Height(a) <= ChainLength(root) && (a.roots.value.chain == root ==> IdSet(a.eventIds) <= free)
  }

  /** The open build is the highest of the proposed ones. */
  ghost predicate Highest(builds: map<Digest, PendingBuild>, proposed: set<Anchor>) {
    forall id | id in builds ::
      builds[id].anchor in proposed && forall a | a in proposed :: Height(a) <= Height(builds[id].anchor)
  }

  /** An anchor names some events, each once, and its own id is made from them. */
  ghost predicate Named(a: Anchor) {
    a.eventIds != [] && Distinct(a.eventIds) && a.id.AnchorIdOf? && a.id.eventIds == a.eventIds
  }

  /** Final anchors are the node's own, and only they are persisted. */
  ghost predicate Own(proposed: set<Anchor>, log: seq<Anchor>, persisted: set<Digest>) {
    && (forall a | a in proposed :: Named(a))
    && (forall i | 0 <= i < |log| :: log[i] in proposed)
    && (forall id | id in persisted :: Logged(log, id))
  }

  ghost predicate ChainInv(n: Node) {
    && Below(n.proposed, n.m.builder.meta.chainRoot, Free(n)) && Highest(n.m.builds, n.proposed)
    && Own(n.proposed, n.log, n.m.persisted)
  }

  /** Hashes of different events differ, so an anchor over free events is not one that was persisted. */
  lemma FreeNotPersisted(n: Node, a: Anchor)
    requires Once.Inv(n) && ChainInv(n) && a in n.proposed && IdSet(a.eventIds) <= Free(n)
    ensures a.id !in n.m.persisted
  {
    if a.id in n.m.persisted {
      var i :| 0 <= i < |n.log| && n.log[i].id == a.id;
      assert n.log[i] in n.proposed && Named(n.log[i]) && Named(a);
      assert a.eventIds[0] in IdSet(a.eventIds);
      FoldedHas(n.log, i, a.eventIds[0]);
    }
  }

  lemma GuardIsCareful(n: Node, t: Turn)
    requires Once.Inv(n) && ChainInv(n) && Once.Allowed(n, Engine(t)) && Guarded(n, t)
    ensures Careful(n, t)
  {
    if Do(n.m, t).1.Finalizes? && !t.call.Create? {
      if HasBuild(n.m, t.call) { BuiltTarget(n, t); } else { FinalHasTarget(n.m, t); }
      FreeNotPersisted(n, Target(n.m, t).value);
    }
  }

  /** What a proposal opens is built on the current root. */
  lemma OpenedOnRoot(n: Node, call: Call)
    requires n.unmarked.None? && Admits(n, call)
    ensures forall a | a in Opened(n.m, call) ::
              && Named(a) && a.roots.Some? && a.roots.value.chain == n.m.builder.meta.chainRoot
              && IdSet(a.eventIds) <= Free(n)
  {
    if Opened(n.m, call) != {} { PreparedIsNamed(n.dag, n.m, call.p); }
  }

  lemma BuildsAfter(n: Node, t: Turn)
    requires Once.Inv(n) && Once.Allowed(n, Engine(t))
    ensures var r := Do(n.m, t).0;
            forall id | id in r.builds ::
              || (id in n.m.builds && r.builds[id] == n.m.builds[id] && Opened(n.m, t.call) == {})
              || r.builds[id].anchor in Opened(n.m, t.call)
  {
    DoIsReach(n.m, t);
    ReachIs(n.m, t);
    var (c, about) := Reach(n.m, t);
    if about.Some? { ClassifyShape(c, about.value, t.storageOk, t.now); }
    if t.call.Create? && c.builds == n.m.builds { assert n.m.builds == map[] ==> c.builds == map[]; }
  }

  lemma RootAfter(m: Manager, t: Turn)
    requires Lifecycle.Inv(m) && Sensible(m, t)
    ensures var (r, o) := Do(m, t);
            if o.Finalizes?
            then Target(m, t).Some? && r.builder.meta == Synchronized(m.builder.meta, Target(m, t).value)
            else r.builder.meta == m.builder.meta
  {
    DoMoves(m, t);
    if Do(m, t).1.Finalizes? { SyncOne(m.builder.meta, Target(m, t).value); }
    else { assert SyncAll(m.builder.meta, []) == m.builder.meta; }
  }

  lemma MoreProposed(proposed: set<Anchor>, more: set<Anchor>, root: Digest, free: set<EventId>)
    requires Below(proposed, root, free)
    requires forall a | a in more :: a.roots.Some? && a.roots.value.chain == root && IdSet(a.eventIds) <= free
    ensures Below(proposed + more, root, free)
  {
  }

  lemma PersistedAfter(n: Node, t: Turn)
    requires Once.Inv(n) && Once.Allowed(n, Engine(t)) && ChainInv(n) && Guarded(n, t)
    ensures forall id | id in Do(n.m, t).0.persisted :: Logged(n.log, id)
  {
    DoIsReach(n.m, t);
    ReachIs(n.m, t);
    var (c, about) := Reach(n.m, t);
    if about.Some? { ClassifyShape(c, about.value, t.storageOk, t.now); }
  }

  lemma MoreOwn(proposed: set<Anchor>, more: set<Anchor>, log: seq<Anchor>, made: seq<Anchor>, persisted: set<Digest>)
    requires Own(proposed, log, {}) && (forall id | id in persisted :: Logged(log, id))
    requires (forall a | a in more :: Named(a)) && forall a | a in made :: a in proposed + more
    ensures Own(proposed + more, log + made, persisted)
  {
    forall id | id in persisted ensures Logged(log + made, id) {
      var i :| 0 <= i < |log| && log[i].id == id;
      assert (log + made)[i].id == id;
    }
  }

  lemma QuietChain(n: Node, t: Turn)
    requires Once.Inv(n) && ChainInv(n) && Once.Allowed(n, Engine(t)) && Guarded(n, t) && !Do(n.m, t).1.Finalizes?
    ensures ChainInv(Once.Next(n, Engine(t)))
  {
    OpenedOnRoot(n, t.call);
    BuildsAfter(n, t);
    RootAfter(n.m, t);
    MoreProposed(n.proposed, Opened(n.m, t.call), n.m.builder.meta.chainRoot, Free(n));
    PersistedAfter(n, t);
    MoreOwn(n.proposed, Opened(n.m, t.call), n.log, [], Do(n.m, t).0.persisted);
    QuietHighest(n, Do(n.m, t).0.builds, Opened(n.m, t.call));
  }

  lemma QuietHighest(n: Node, builds: map<Digest, PendingBuild>, more: set<Anchor>)
    requires ChainInv(n)
    requires forall a | a in more :: a.roots.Some? && a.roots.value.chain == n.m.builder.meta.chainRoot
    requires forall id | id in builds ::
               (id in n.m.builds && builds[id] == n.m.builds[id] && more == {}) || builds[id].anchor in more
    ensures Highest(builds, n.proposed + more)
  {
  }

  /** The anchor made final is as high as any proposed so far. */
  lemma FinalIsHighest(n: Node, t: Turn)
    requires Once.Inv(n) && ChainInv(n) && Once.Allowed(n, Engine(t)) && Guarded(n, t) && Do(n.m, t).1.Finalizes?
    ensures Target(n.m, t).Some? && Target(n.m, t).value.roots.Some?
    ensures Target(n.m, t).value in n.proposed + Opened(n.m, t.call)
    ensures forall a | a in n.proposed + Opened(n.m, t.call) ::
              a.roots.Some? && Height(a) <= Height(Target(n.m, t).value)
  {
    OpenedOnRoot(n, t.call);
    if HasBuild(n.m, t.call) { BuiltTarget(n, t); } else { FinalHasTarget(n.m, t); }
  }

  lemma BuiltTarget(n: Node, t: Turn)
    requires Once.Inv(n) && Once.Allowed(n, Engine(t)) && HasBuild(n.m, t.call) && Do(n.m, t).1.Finalizes?
    ensures Target(n.m, t).Some?
    ensures var a := Target(n.m, t).value;
            || (Opened(n.m, t.call) == {} && exists id :: id in n.m.builds && n.m.builds[id].anchor == a)
            || a in Opened(n.m, t.call)
  {
    DoIsReach(n.m, t);
    ReachKeeps(n.m, t);
    ReachIs(n.m, t);
    AboutBuild(n.m, t);
    BuildOfTarget(n.m, t, Reach(n.m, t).0, Reach(n.m, t).1.value);
  }

  lemma BuildOfTarget(m: Manager, t: Turn, c: Manager, id: Digest)
    requires Lifecycle.Inv(c) && id in c.builds && id in c.frames && Target(m, t) == Some(c.frames[id].anchor)
    requires ReachBuilds(m, t, c, Some(id)) && !t.call.Maintain?
    ensures (id in m.builds && m.builds[id].anchor == Target(m, t).value && Opened(m, t.call) == {})
            || Target(m, t).value in Opened(m, t.call)
  {
  }

  lemma AboveAll(proposed: set<Anchor>, a: Anchor, meta: ChainMeta, free: set<EventId>)
    requires a.roots.Some? && forall x | x in proposed :: x.roots.Some? && Height(x) <= Height(a)
    ensures Below(proposed, Synchronized(meta, a).chainRoot, free)
  {
  }

  lemma FinalChain(n: Node, t: Turn)
    requires Once.Inv(n) && ChainInv(n) && Once.Allowed(n, Engine(t)) && Guarded(n, t) && Do(n.m, t).1.Finalizes?
    ensures ChainInv(Once.Next(n, Engine(t)))
  {
    FinalIsHighest(n, t);
    RootAfter(n.m, t);
    BuildsAfter(n, t);
    var r := Once.Next(n, Engine(t));
    AboveAll(r.proposed, Target(n.m, t).value, n.m.builder.meta, Free(r));
    OpenedOnRoot(n, t.call);
    PersistedAfter(n, t);
    MoreOwn(n.proposed, Opened(n.m, t.call), n.log, NewAnchor(n.m, t), r.m.persisted);
    GuardIsCareful(n, t);
    EngineFinal(n, t, {});
    if t.call.Create? { assert r.m.builds == map[]; }
  }

  lemma ChainStep(n: Node, step: Step)
    requires Once.Inv(n) && ChainInv(n) && Once.Allowed(n, step) && (step.Engine? ==> Guarded(n, step.t))
    ensures ChainInv(Once.Next(n, step))
  {
    match step
    case Add(s, depth) => assert Free(n) <= Free(Once.Next(n, step));
    case Check(f) =>
    case Engine(t) => if Do(n.m, t).1.Finalizes? { FinalChain(n, t); } else { QuietChain(n, t); }
    case Mark => assert Free(Once.Next(n, Mark)) == Free(n);
    case Sweep(targets) =>
      SweptOk(n.dag, n.added, targets);
      assert Free(Once.Next(n, step)) == Free(n);
  }

  lemma {:induction false} GuardedIsCareful(n: Node, steps: seq<Step>)
    requires Once.Inv(n) && ChainInv(n) && AllowedRun(n, steps) && GuardedRun(n, steps)
    ensures CarefulRun(n, steps) && Once.Inv(After(n, steps)) && ChainInv(After(n, steps))
    decreases |steps|
  {
    if steps != [] {
      var before, last := After(n, steps[..|steps| - 1]), steps[|steps| - 1];
      GuardedIsCareful(n, steps[..|steps| - 1]);
      if last.Engine? { GuardIsCareful(before, last.t); }
      StepKeeps(before, last);
      ChainStep(before, last);
    }
  }

  /** A node whose frames are all its own, and which makes a frame final that it has given up only on the
      chain root as it is and when the open build, if any, is over other events, folds exactly once. */
  lemma OwnFramesOnce(cfg: Config, localId: ValidatorId, b: Builder, steps: seq<Step>)
    requires AllowedRun(Fresh(cfg, localId, b), steps) && GuardedRun(Fresh(cfg, localId, b), steps)
    ensures CarefulRun(Fresh(cfg, localId, b), steps)
    ensures var n := After(Fresh(cfg, localId, b), steps);
            && n.added == n.dag.pending + Folded(n.log) && (n.dag.pending - Marking(n)) !! Folded(n.log)
            && (forall i, j | 0 <= i < j < |n.log| :: IdSet(n.log[i].eventIds) !! IdSet(n.log[j].eventIds))
  {
    GuardedIsCareful(Fresh(cfg, localId, b), steps);
    ExactlyOnce(cfg, localId, b, steps);
  }
}
