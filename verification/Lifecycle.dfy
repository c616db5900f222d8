/** What holds of the consensus manager after every engine call. */
module Lifecycle {
  import opened Types
  import opened DagModel
  import opened BuilderModel
  import opened ManagerModel
  import Overlay

  ghost predicate NoRepeats(fs: seq<Frame>) { forall i, j | 0 <= i < j < |fs| :: fs[i].id != fs[j].id }

  ghost predicate OneBuild(builds: map<Digest, PendingBuild>) { forall a, b | a in builds && b in builds :: a == b }

  /** An open build or stored events always belong to a frame that still awaits votes. */
  ghost predicate BelongToFrames(m: Manager) {
    && (forall id | id in m.frames :: m.frames[id].id == id)
    && (forall id | id in m.builds ::
          id in m.frames && WellBuilt(m.builds[id]) && m.builds[id].anchor == m.frames[id].anchor)
    && (forall id | id in m.frameEvents :: id in m.frames)
  }

  ghost predicate Inv(m: Manager) {
    && OneBuild(m.builds)
    && BelongToFrames(m)
    && (forall f | f in m.finalized :: f.id !in m.frames)
    && NoRepeats(m.finalized)
  }

  // ---- Removing a frame ----

  lemma DiscardKeeps(m: Manager, id: Digest)
    requires Inv(m)
    ensures Inv(Discard(m, id))
  {
  }

  lemma {:induction false} RetainIsPart(fs: seq<Frame>, persisted: set<Digest>, excess: nat)
    ensures forall f | f in Retain(fs, persisted, excess) :: f in fs
    ensures NoRepeats(fs) ==> NoRepeats(Retain(fs, persisted, excess))
    decreases |fs|
  {
    if fs != [] {
      var less := if excess > 0 && fs[0].anchor.id in persisted then excess - 1 else excess;
      RetainIsPart(fs[1..], persisted, less);
      var r := Retain(fs[1..], persisted, less);
      if NoRepeats(fs) {
        assert NoRepeats(fs[1..]);
        forall k | 0 <= k < |r| ensures r[k].id != fs[0].id { assert r[k] in fs[1..]; }
      }
    }
  }

  function PersistedCount(fs: seq<Frame>, persisted: set<Digest>): nat {
    if fs == [] then 0 else (if fs[0].anchor.id in persisted then 1 else 0) + PersistedCount(fs[1..], persisted)
  }

  /** Trimming leaves the newest frame in last place exactly when that frame is not yet persisted,
      or enough older ones are. */
  lemma {:induction false} RetainsNewestIff(fs: seq<Frame>, persisted: set<Digest>, excess: nat)
    requires fs != [] && NoRepeats(fs)
    ensures var r, last := Retain(fs, persisted, excess), fs[|fs| - 1];
            (r != [] && r[|r| - 1] == last) <==>
            (last.anchor.id !in persisted || PersistedCount(fs[..|fs| - 1], persisted) >= excess)
    decreases |fs|
  {
    if |fs| > 1 {
      var less := if excess > 0 && fs[0].anchor.id in persisted then excess - 1 else excess;
      RetainsNewestIff(fs[1..], persisted, less);
      assert fs[1..][..|fs| - 2] == fs[..|fs| - 1][1..];
      assert fs[1..][|fs| - 2] == fs[|fs| - 1];
      assert NoRepeats(fs[1..]);
      RetainIsPart(fs[1..], persisted, less);
    } else {
      assert fs[1..] == [];
    }
  }

  // ---- The end of a frame ----

  lemma TrimIsPart(fs: seq<Frame>, persisted: set<Digest>)
    requires NoRepeats(fs)
    ensures NoRepeats(Trimmed(fs, persisted)) && forall f | f in Trimmed(fs, persisted) :: f in fs
  {
    if |fs| > MAX_FINALIZED { RetainIsPart(fs, persisted, |fs| - MAX_FINALIZED); }
  }

  lemma OneMoreFinal(fs: seq<Frame>, f: Frame)
    requires NoRepeats(fs) && forall g | g in fs :: g.id != f.id
    ensures NoRepeats(fs + [f])
  {
    forall i, j | 0 <= i < j < |fs + [f]| ensures (fs + [f])[i].id != (fs + [f])[j].id { assert (fs + [f])[i] in fs; }
  }

  lemma FinishKeeps(m: Manager, id: Digest, storageOk: bool, now: nat)
    requires Inv(m) && id in m.frames
    ensures Inv(Finish(m, id, storageOk, now).0)
  {
    var f := m.frames[id].(status := FrameFinalized);
    OneMoreFinal(m.finalized, f);
    TrimIsPart(m.finalized + [f], m.persisted);
    DiscardKeeps(m, id);
    FinishShape(m, id, storageOk, now);
  }

  /** Besides the builder, finishing a frame only discards it and appends to the finalized ones. */
  lemma FinishShape(m: Manager, id: Digest, storageOk: bool, now: nat)
    requires id in m.frames
    ensures var (n, o) := Finish(m, id, storageOk, now);
            var d := Discard(m, id);
            && n.frames == d.frames && n.builds == d.builds && n.frameEvents == d.frameEvents
            && (o == Finalizes(id) || o.ApplyFails?)
            && n.builder == ApplyFrame(m, id, m.frames[id].anchor, storageOk, now).0
            && (o.Finalizes? <==> ApplyFrame(m, id, m.frames[id].anchor, storageOk, now).1.None?)
            && n.finalized == if o.Finalizes?
                              then Trimmed(m.finalized + [m.frames[id].(status := FrameFinalized)], m.persisted)
                              else m.finalized
  {
  }

  lemma ClassifyKeeps(m: Manager, id: Digest, storageOk: bool, now: nat)
    requires Inv(m)
    ensures Inv(Classify(m, id, storageOk, now).0)
  {
    if id in m.frames {
      DiscardKeeps(m, id);
      FinishKeeps(m, id, storageOk, now);
    }
  }

  /** `Finalizes` names the newest finalized frame, unless trimming has just dropped it. */
  lemma FinalizedIsNewest(m: Manager, id: Digest, storageOk: bool, now: nat)
    requires Inv(m) && Classify(m, id, storageOk, now).1.Finalizes?
    ensures var fs := m.finalized;
            var (n, o) := Classify(m, id, storageOk, now);
            && o.id == id && id in m.frames && id !in n.frames
            && ((n.finalized != [] && n.finalized[|n.finalized| - 1].id == id) <==>
                (|fs| < MAX_FINALIZED || m.frames[id].anchor.id !in m.persisted
                 || PersistedCount(fs, m.persisted) > |fs| - MAX_FINALIZED))
  {
    FinishShape(m, id, storageOk, now);
    ClassifyFinal(m, id, storageOk, now);
    NewestAfterTrim(m.finalized, m.persisted, m.frames[id].(status := FrameFinalized));
  }

  lemma ClassifyFinal(m: Manager, id: Digest, storageOk: bool, now: nat)
    requires Classify(m, id, storageOk, now).1.Finalizes?
    ensures id in m.frames && Classify(m, id, storageOk, now) == Finish(m, id, storageOk, now)
  {
  }

  lemma NewestAfterTrim(fs: seq<Frame>, persisted: set<Digest>, f: Frame)
    requires NoRepeats(fs) && forall g | g in fs :: g.id != f.id
    ensures var r := Trimmed(fs + [f], persisted);
            (r != [] && r[|r| - 1].id == f.id) <==>
            (|fs| < MAX_FINALIZED || f.anchor.id !in persisted || PersistedCount(fs, persisted) > |fs| - MAX_FINALIZED)
  {
    OneMoreFinal(fs, f);
    var all := fs + [f];
    assert all[..|all| - 1] == fs;
    if |all| > MAX_FINALIZED {
      RetainsNewestIff(all, persisted, |all| - MAX_FINALIZED);
      TrimIsPart(all, persisted);
      var r := Trimmed(all, persisted);
      if r != [] && r[|r| - 1].id == f.id {
        assert r[|r| - 1] in all && r[|r| - 1] == f;
      }
    }
  }

  /** The chain moves by the frame's anchor when the frame is final, and otherwise not at all. */
  lemma FailClosed(m: Manager, id: Digest, storageOk: bool, now: nat)
    requires Inv(m)
    ensures var (n, o) := Classify(m, id, storageOk, now);
            && (o.Finalizes? ==> id in m.frames && n.builder.meta == Synchronized(m.builder.meta, m.frames[id].anchor))
            && (!o.Finalizes? ==> n.builder.meta == m.builder.meta && n.finalized == m.finalized)
            && (n.builder.meta != m.builder.meta <==> o.Finalizes?)
  {
    ClassifyCases(m, id, storageOk, now);
    if Classify(m, id, storageOk, now).1.Finalizes? || Classify(m, id, storageOk, now).1.ApplyFails? {
      ApplyFrameMovesChain(m, id, storageOk, now);
      FinishShape(m, id, storageOk, now);
    }
  }

  lemma ClassifyCases(m: Manager, id: Digest, storageOk: bool, now: nat)
    ensures var (n, o) := Classify(m, id, storageOk, now);
            if o.Finalizes? || o.ApplyFails? then id in m.frames && (n, o) == Finish(m, id, storageOk, now)
            else n.builder == m.builder && n.finalized == m.finalized
  {
    if id in m.frames { FinishShape(m, id, storageOk, now); }
  }

  lemma ApplyFrameMovesChain(m: Manager, id: Digest, storageOk: bool, now: nat)
    requires Inv(m) && id in m.frames
    ensures var (b, failure) := ApplyFrame(m, id, m.frames[id].anchor, storageOk, now);
            b.meta == if failure.None? then Synchronized(m.builder.meta, m.frames[id].anchor) else m.builder.meta
  {
    var a := m.frames[id].anchor;
    if id in m.builds {
      var p := m.builds[id];
      CommitMovesChain(m.builder, p, storageOk, now);
      FollowMovesChain(Commit(m.builder, p, storageOk, now).0, p.folded, a, storageOk, now);
    } else {
      FollowMovesChain(m.builder, if id in m.frameEvents then m.frameEvents[id] else [], a, storageOk, now);
    }
  }

  function StoredFor(m: Manager, id: Digest): seq<Event> { if id in m.frameEvents then m.frameEvents[id] else [] }

  /** What is stored for a frame, if it is as much as the frame names, differs from it in no event that
      the overlay knows. */
  ghost predicate StoredServes(m: Manager, id: Digest)
    requires id in m.frames
  {
    var a := m.frames[id].anchor;
    |StoredFor(m, id)| != |a.eventIds|
    || Overlay.NoneBetween(m.builder.overlay, IdSet(IdsOf(StoredFor(m, id))), IdSet(a.eventIds))
  }

  /** Whichever way a frame with quorum ends, no overlay entry of its events is left and every other
      entry is where it was: always if the node has built it, and otherwise exactly when what is stored
      for it serves. */
  lemma OverlayClearedIff(m: Manager, id: Digest, storageOk: bool, now: nat)
    requires Inv(m) && id in m.frames && HasQuorum(m.frames[id], m.cfg.validatorCount)
    ensures id in m.builds || StoredServes(m, id) <==>
            Overlay.ClearedOf(m.builder.overlay, Classify(m, id, storageOk, now).0.builder.overlay,
                              IdSet(m.frames[id].anchor.eventIds))
  {
    FinishShape(m, id, storageOk, now);
    if id in m.builds { BuiltClearsOverlay(m, id, storageOk, now); }
    else { FollowClearsOverlayIff(m.builder, StoredFor(m, id), m.frames[id].anchor, storageOk, now); }
  }

  lemma BuiltClearsOverlay(m: Manager, id: Digest, storageOk: bool, now: nat)
    requires Inv(m) && id in m.builds
    ensures Overlay.ClearedOf(m.builder.overlay, ApplyFrame(m, id, m.frames[id].anchor, storageOk, now).0.overlay,
                              IdSet(m.frames[id].anchor.eventIds))
  {
    var p := m.builds[id];
    CommitClearsOverlay(m.builder, p, storageOk, now);
    var lead := Commit(m.builder, p, storageOk, now);
    if lead.1.Refused? && lead.1.error.SnapshotMismatch? {
      FallbackClears(m.builder, lead.0, p, m.frames[id].anchor, storageOk, now);
    }
  }

  lemma FallbackClears(b: Builder, mid: Builder, p: PendingBuild, a: Anchor, storageOk: bool, now: nat)
    requires WellBuilt(p) && p.anchor == a && Overlay.ClearedOf(b.overlay, mid.overlay, IdSet(a.eventIds))
    ensures Overlay.ClearedOf(b.overlay, Follow(mid, p.folded, a, storageOk, now).0.overlay, IdSet(a.eventIds))
  {
    Overlay.ClearedThenCleared(b.overlay, mid.overlay, IdSet(a.eventIds));
  }

  // ---- Engine calls ----

  datatype Call =
    | Create(p: Proposal)
    | Receive(d: DagState, f: Frame)
    | ReceiveFinal(d: DagState, f: Frame, values: seq<Vote>)
    | VoteArrives(v: Vote)
    | Maintain
    | MarkPersisted(anchor: Digest)

  /** One engine call, with the storage result and the clock it meets. */
  datatype Turn = Turn(call: Call, storageOk: bool, now: nat)

  function Do(m: Manager, t: Turn): (Manager, Outcome) {
    match t.call
    case Create(p) => EngineCreate(m, p, t.storageOk, t.now)
    case Receive(d, f) => EngineReceive(m, d, f, t.storageOk, t.now)
    case ReceiveFinal(d, f, values) => EngineReceiveFinalized(m, d, f, values, t.storageOk, t.now)
    case VoteArrives(v) => ReceiveVote(m, v, t.storageOk, t.now)
    case Maintain => (Cleanup(m, t.now), StillPending)
    case MarkPersisted(a) => (m.(persisted := m.persisted + {a}), StillPending)
  }

  /** A proposal made now has an id that no frame the node knows has.  Nothing is asked of frames and
      votes that arrive. */
  ghost predicate Sensible(m: Manager, t: Turn) {
    t.call.Create? ==>
      && DistinctIds(t.call.p.pending)
      && (PrepareProposal(m, t.call.p).Ready? ==>
            !HasFrame(m, NewFrame(m, PrepareProposal(m, t.call.p).build.anchor, t.call.p.round, t.call.p.timestamp).id))
  }

  // ---- Copies of frames the node has ----

  /** The events stored for a frame, if they are as many as it names, are those it names. */
  ghost predicate EventsFit(events: seq<Event>, a: Anchor) {
    |events| == |a.eventIds| ==> IdSet(IdsOf(events)) == IdSet(a.eventIds)
  }

  ghost predicate Fitting(m: Manager) {
    forall id | id in m.frameEvents && id in m.frames :: EventsFit(m.frameEvents[id], m.frames[id].anchor)
  }

  /** A finalized copy of a pending frame names the same events as the frame the node has. */
  predicate FaithfulCopy(m: Manager, call: Call) {
    call.ReceiveFinal? && call.f.id in m.frames ==>
      var own, copy := m.frames[call.f.id].anchor.eventIds, call.f.anchor.eventIds;
      |copy| == |own| && IdSet(copy) == IdSet(own)
  }

  lemma FittingServes(m: Manager, id: Digest)
    requires Fitting(m) && id in m.frames
    ensures StoredServes(m, id)
  {
  }

  lemma {:induction false} CollectedFit(d: DagState, ids: seq<EventId>)
    requires d.Consistent()
    ensures |CollectEvents(d, ids)| <= |ids|
    ensures |CollectEvents(d, ids)| == |ids| ==> IdsOf(CollectEvents(d, ids)) == ids
    decreases |ids|
  {
    if ids != [] {
      var k := |ids| - 1;
      CollectedFit(d, ids[..k]);
      assert ids == ids[..k] + [ids[k]];
      var c := CollectEvents(d, ids[..k]);
      if ids[k] in d.events && |c| == k {
        assert IdsOf(c + [d.events[ids[k]].event]) == IdsOf(c) + [ids[k]];
      }
    }
  }

  /** The invariant reads these parts only. */
  lemma InvOf(m: Manager, n: Manager)
    requires Inv(m) && n.builds == m.builds && n.frameEvents == m.frameEvents && n.finalized == m.finalized
    requires n.frames.Keys == m.frames.Keys
    requires forall id | id in m.frames ::
               n.frames[id].id == m.frames[id].id && n.frames[id].anchor == m.frames[id].anchor
    ensures Inv(n)
  {
  }

  lemma VotesKeep(m: Manager, id: Digest, votes: map<ValidatorId, Vote>)
    requires Inv(m) && id in m.frames
    ensures Inv(m.(frames := m.frames[id := m.frames[id].(votes := votes)]))
  {
    var n := m.(frames := m.frames[id := m.frames[id].(votes := votes)]);
    assert n.frames.Keys == m.frames.Keys;
    InvOf(m, n);
  }

  lemma CastKeeps(m: Manager, id: Digest)
    requires Inv(m)
    ensures Inv(CastVote(m, id, true).0)
  {
    if id in m.frames { VotesKeep(m, id, m.frames[id].votes[m.localId := Vote(m.localId, id, true)]); }
  }

  lemma NewFrameKeeps(m: Manager, f: Frame, p: PendingBuild)
    requires Inv(m) && m.builds == map[] && !HasFrame(m, f.id) && WellBuilt(p) && p.anchor == f.anchor
    ensures Inv(m.(builds := m.builds[f.id := p], frames := m.frames[f.id := f]))
  {
  }

  lemma CreateKeeps(m: Manager, p: Proposal)
    requires Inv(m) && DistinctIds(p.pending)
    requires PrepareProposal(m, p).Ready? ==>
               !HasFrame(m, NewFrame(m, PrepareProposal(m, p).build.anchor, p.round, p.timestamp).id)
    ensures Inv(TryCreate(m, p).0)
  {
    if m.builds == map[] && PrepareProposal(m, p).Ready? {
      SelectedAreDistinct(m.builder.cfg, p.pending, InFlight(m));
      PreparedIsWellBuilt(m.builder, Select(m.builder.cfg, p.pending, InFlight(m)), p.time, p.maxDepth, p.timestamp);
      var b := PrepareProposal(m, p).build;
      NewFrameKeeps(m, NewFrame(m, b.anchor, p.round, p.timestamp), b);
    }
  }

  /** Storing the events of a frame and then having the frame, in the order the engine does it. */
  lemma StoreAndReceiveKeeps(m: Manager, d: DagState, f: Frame)
    requires Inv(m) && f.id !in FinalizedIds(m)
    ensures Inv(ReceiveFrame(StoreEvents(m, d, f), f))
  {
    var n := ReceiveFrame(StoreEvents(m, d, f), f);
    assert n.frames.Keys == m.frames.Keys + {f.id} && n.frames[f.id].id == f.id;
    forall id | id in m.frames ensures n.frames[id] == m.frames[id] { }
    FrameAndEvents(m, n, f.id);
  }

  lemma FrameAndEvents(m: Manager, n: Manager, id: Digest)
    requires Inv(m) && id !in FinalizedIds(m) && n.builds == m.builds && n.finalized == m.finalized
    requires n.frameEvents.Keys == m.frameEvents.Keys + {id}
    requires n.frames.Keys == m.frames.Keys + {id} && n.frames[id].id == id
    requires forall x | x in m.frames :: n.frames[x] == m.frames[x]
    ensures Inv(n)
  {
    forall g | g in n.finalized ensures g.id !in n.frames { assert g.id in FinalizedIds(m); }
  }

  lemma CleanupKeeps(m: Manager, now: nat)
    requires Inv(m)
    ensures Inv(Cleanup(m, now))
  {
  }
}
