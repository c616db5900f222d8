/** A run in which a finalized copy of a pending frame names other events than the frame: the wrong
    entries of the overlay are cleared. */
module Copies {
  import opened Types
  import opened DagModel
  import opened BuilderModel
  import opened ManagerModel
  import opened Lifecycle
  import opened Calls
  import opened LifecycleRuns
  import Overlay

  const ANCHOR_ID := AnchorIdOf([1], 0, Zero, 0)
  const FRAME_ID := FrameIdOf(0, ANCHOR_ID, "b", 0)

  /** Anchors with one id and different events; the declared state root is none. */
  function Naming(ids: seq<EventId>): Anchor {
    Anchor(ANCHOR_ID, ids, 0, Some(MerkleRoots(Zero, ANCHOR_ID, Zero)), None, 0, 0)
  }

  function FrameOver(ids: seq<EventId>, votes: map<ValidatorId, Vote>): Frame {
    Frame(FRAME_ID, 0, Naming(ids), "b", Proposed, votes, 0)
  }

  const OWN := Vote("a", FRAME_ID, true)
  const OTHER := Vote("b", FRAME_ID, true)

  function First(d: DagState): Turn { Turn(Receive(d, FrameOver([1], map[])), true, 0) }

  const BOTH := map["a" := OWN, "b" := OTHER]

  function Second(d: DagState): Turn { Turn(ReceiveFinal(d, FrameOver([2], BOTH), [OWN, OTHER]), true, 0) }

  /** One of two validators, with nothing under way, on the chain root the frame is built on, and with an
      entry of event 1 in the overlay. */
  ghost predicate Ready(m: Manager, d: DagState) {
    && Empty(m) && m.buffered == map[] && m.cfg.validatorCount == 2 && m.localId == "a"
    && m.builder.meta.chainRoot == Zero && Overlay.Owns(m.builder.overlay, 1)
    && 2 in d.events && d.events[2].event.id == 2
  }

  ghost predicate Voted(m: Manager, b: Builder) {
    && m.cfg.validatorCount == 2 && m.builder == b && m.builds == map[] && m.finalized == []
    && m.frames == map[FRAME_ID := FrameOver([1], map["a" := OWN])]
  }

  lemma OneOfTwo()
    ensures var f := FrameOver([1], map["a" := OWN]); !HasQuorum(f, 2) && !IsRejected(f, 2)
  {
    var v := map["a" := OWN];
    assert (set x | x in v && v[x].approve) == {"a"};
    assert (set x | x in v && !v[x].approve) == {};
  }

  lemma TwoOfTwo(ids: seq<EventId>)
    ensures HasQuorum(FrameOver(ids, BOTH), 2)
  {
    assert (set x | x in BOTH && BOTH[x].approve) == {"a", "b"};
  }

  lemma FirstVotes(m: Manager, d: DagState)
    requires Ready(m, d)
    ensures Voted(Do(m, First(d)).0, m.builder)
  {
    var f := FrameOver([1], map[]);
    var s := ReceiveFrame(StoreEvents(m, d, f), f);
    assert AddAllOnce(f.votes, []) == map[];
    assert s.frames == map[FRAME_ID := f];
    assert f.votes["a" := OWN] == map["a" := OWN];
    var c := Reach(m, First(d)).0;
    assert c.frames == map[FRAME_ID := FrameOver([1], map["a" := OWN])];
    DoIsReach(m, First(d));
    OneOfTwo();
  }

  lemma SecondReaches(m: Manager, b: Builder, d: DagState)
    requires Voted(m, b) && 2 in d.events
    ensures var (c, about) := Reach(m, Second(d));
            && about == Some(FRAME_ID) && c.cfg == m.cfg && c.builder == b && c.builds == map[]
            && c.frames == map[FRAME_ID := FrameOver([1], BOTH)]
            && FRAME_ID in c.frameEvents && c.frameEvents[FRAME_ID] == [d.events[2].event]
  {
    assert [2][..0] == [] && CollectEvents(d, []) == [];
    assert CollectEvents(d, [2]) == [d.events[2].event];
    var own := map["a" := OWN];
    assert [OWN, OTHER][..1] == [OWN] && [OWN][..0] == [] && AddAllOnce(own, []) == own;
    assert AddAllOnce(own, [OWN]) == own;
    assert AddAllOnce(own, [OWN, OTHER]) == BOTH;
  }

  /** The declared root matches no state, so the follower refuses and clears what it was given. */
  lemma Refuses(b: Builder, e: Event)
    requires e.id == 2 && Overlay.Owns(b.overlay, 1)
    ensures var (n, r) := Follow(b, [e], Naming([1]), true, 0); r.Refused? && Overlay.Owns(n.overlay, 1)
  {
    assert IdSet(IdsOf([e])) == {2};
    StillOwns(b.overlay);
  }

  lemma StillOwns(o: Overlay.Stacks)
    requires Overlay.Owns(o, 1)
    ensures Overlay.Owns(Overlay.Cleared(o, {2}), 1)
  {
    var after := Overlay.Cleared(o, {2});
    Overlay.ClearingIsExact(o, {2});
    Overlay.OwnsIff(o, 1);
    Overlay.OwnsIff(after, 1);
    var k :| Overlay.Only(Overlay.Stack(o, k), {1}) != [];
    assert Overlay.Only(Overlay.Stack(after, k), {1}) != [];
  }

  lemma SecondFails(m: Manager, b: Builder, d: DagState)
    requires Voted(m, b) && Overlay.Owns(b.overlay, 1) && 2 in d.events && d.events[2].event.id == 2
    ensures Do(m, Second(d)).1.ApplyFails? && Overlay.Owns(Do(m, Second(d)).0.builder.overlay, 1)
  {
    SecondReaches(m, b, d);
    DoIsReach(m, Second(d));
    TwoOfTwo([1]);
    Refuses(b, d.events[2].event);
    FinishShape(Reach(m, Second(d)).0, FRAME_ID, true, 0);
  }

  /** What the engine asks of a finalized frame before the manager sees it: its id is made of its parts,
      it brings a quorum, every vote is for it, and its chain root is the node's. */
  ghost predicate Accepted(m: Manager, f: Frame) {
    && f.id == FrameIdOf(f.round, f.anchor.id, f.proposer, f.createdAt) && HasQuorum(f, m.cfg.validatorCount)
    && (forall v | v in f.votes :: f.votes[v].frame == f.id && f.votes[v].voter == v)
    && (f.anchor.roots.Some? ==> f.anchor.roots.value.chain == m.builder.meta.chainRoot)
  }

  lemma CopyAccepted(m: Manager, b: Builder, d: DagState)
    requires Voted(m, b) && b.meta.chainRoot == Zero
    ensures Accepted(m, Second(d).call.f)
  {
    TwoOfTwo([2]);
  }

  /** The frame names event 1, ends with a quorum, and leaves event 1's entry where it was; the copy that
      does it is one the engine accepts. */
  lemma WrongCopyLeavesEntries(m: Manager, d: DagState)
    returns (ms: seq<Manager>, turns: seq<Turn>, made: seq<seq<Anchor>>)
    requires Ready(m, d)
    ensures Trace(ms, turns, made) && ms[0] == m && |turns| == 2 && Do(ms[1], turns[1]).1.ApplyFails?
    ensures turns[1].call.ReceiveFinal? && Accepted(ms[1], turns[1].call.f)
    ensures Target(ms[1], turns[1]) == Some(Naming([1]))
    ensures !Overlay.ClearedOf(ms[1].builder.overlay, ms[2].builder.overlay, IdSet([1]))
  {
    FirstVotes(m, d);
    var one := Do(m, First(d)).0;
    SecondFails(one, m.builder, d);
    var two := Do(one, Second(d)).0;
    DoLeads(m, First(d));
    DoLeads(one, Second(d));
    made := OneMoreTurn([m], [], [], First(d), one);
    ms, turns := [m] + [one], [] + [First(d)];
    made := OneMoreTurn(ms, turns, made, Second(d), two);
    ms, turns := ms + [two], turns + [Second(d)];
    CopyAccepted(one, m.builder, d);
    assert 1 in IdSet([1]);
  }

  /** What a finalized copy of a frame the node has no build for clears, in terms of what the node sees
      before the call: the copy's events as its DAG has them against the events of the frame it holds. */
  lemma CopyClearsIff(m: Manager, t: Turn)
    requires Inv(m) && t.call.ReceiveFinal? && t.call.f.id in m.frames && t.call.f.id !in m.builds
    requires Do(m, t).1.Finalizes? || Do(m, t).1.ApplyFails?
    ensures var own := m.frames[t.call.f.id].anchor.eventIds;
            var got := CollectEvents(t.call.d, t.call.f.anchor.eventIds);
            (|got| != |own| || Overlay.NoneBetween(m.builder.overlay, IdSet(IdsOf(got)), IdSet(own)))
            <==> Overlay.ClearedOf(m.builder.overlay, Do(m, t).0.builder.overlay, IdSet(own))
  {
    DoIsReach(m, t);
    ReachKeeps(m, t);
    ReachIs(m, t);
    CopyStored(m, t);
    var (c, about) := Reach(m, t);
    ClassifyQuorum(c, about.value, t.storageOk, t.now);
    OverlayClearedIff(c, about.value, t.storageOk, t.now);
  }

  lemma CopyStored(m: Manager, t: Turn)
    requires t.call.ReceiveFinal? && t.call.f.id in m.frames && Reach(m, t).1.Some?
    ensures var (c, about) := Reach(m, t);
            about == Some(t.call.f.id) && StoredFor(c, about.value) == CollectEvents(t.call.d, t.call.f.anchor.eventIds)
  {
  }
}
