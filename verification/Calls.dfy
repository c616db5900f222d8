/** Every engine call taken apart: what it does before it classifies a frame, and which frame. */
module Calls {
  import opened Types
  import opened DagModel
  import opened BuilderModel
  import opened ManagerModel
  import opened Lifecycle

  /** The manager when the call comes to classify a frame, and that frame; or the manager it leaves
      behind if there is nothing to classify. */
  function Reach(m: Manager, t: Turn): (Manager, Option<Digest>) {
    match t.call
    case Create(p) =>
      (match TryCreate(m, p)
       case (m1, None) => (m1, None)
       case (m1, Some(f)) => Cast(m1, f.id))
    case Receive(d, f) => if HasFrame(m, f.id) then (m, None) else Cast(ReceiveFrame(StoreEvents(m, d, f), f), f.id)
    case ReceiveFinal(d, f, values) =>
      if f.id in FinalizedIds(m) then (m, None)
      else
        var s := StoreEvents(m, d, f);
        (if f.id in s.frames then MergeVotes(s, f.id, values) else ReceiveFrame(s, f), Some(f.id))
    case VoteArrives(v) =>
      if v.frame !in m.frames then (m.(buffered := m.buffered[v.frame := Buffered(m, v.frame) + [v]]), None)
      else if v.voter in m.frames[v.frame].votes then (m, None)
      else (WithVotes(m, v.frame, m.frames[v.frame].votes[v.voter := v]), Some(v.frame))
    case Maintain => (Cleanup(m, t.now), None)
    case MarkPersisted(a) => (m.(persisted := m.persisted + {a}), None)
  }

  function Cast(m: Manager, id: Digest): (Manager, Option<Digest>) {
    match CastVote(m, id, true)
    case (c, None) => (c, None)
    case (c, Some(_)) => (c, Some(id))
  }

  function WithVotes(m: Manager, id: Digest, votes: map<ValidatorId, Vote>): Manager
    requires id in m.frames
  {
    m.(frames := m.frames[id := m.frames[id].(votes := votes)])
  }

  lemma DoIsReach(m: Manager, t: Turn)
    ensures var (c, about) := Reach(m, t);
            Do(m, t) == if about.Some? then Classify(c, about.value, t.storageOk, t.now) else (c, StillPending)
  {
  }

  // ---- The invariant ----

  lemma ReachKeeps(m: Manager, t: Turn)
    requires Inv(m) && Sensible(m, t)
    ensures Inv(Reach(m, t).0)
  {
    match t.call
    case Create(p) => CreateReachKeeps(m, t);
    case Receive(d, f) => ReceiveReachKeeps(m, t);
    case ReceiveFinal(d, f, values) => ReceiveFinalKeeps(m, d, f, values);
    case VoteArrives(v) =>
      if v.frame in m.frames { VotesKeep(m, v.frame, m.frames[v.frame].votes[v.voter := v]); }
    case Maintain => CleanupKeeps(m, t.now);
    case MarkPersisted(a) =>
  }

  lemma CreateReachKeeps(m: Manager, t: Turn)
    requires Inv(m) && Sensible(m, t) && t.call.Create?
    ensures Inv(Reach(m, t).0)
  {
    var (s, f) := TryCreate(m, t.call.p);
    CreateKeeps(m, t.call.p);
    if f.Some? { CastKeeps(s, f.value.id); }
  }

  lemma ReceiveReachKeeps(m: Manager, t: Turn)
    requires Inv(m) && t.call.Receive?
    ensures Inv(Reach(m, t).0)
  {
    var d, f := t.call.d, t.call.f;
    if !HasFrame(m, f.id) {
      StoreAndReceiveKeeps(m, d, f);
      CastKeeps(ReceiveFrame(StoreEvents(m, d, f), f), f.id);
    }
  }

  lemma ReceiveFinalKeeps(m: Manager, d: DagState, f: Frame, values: seq<Vote>)
    requires Inv(m)
    ensures f.id !in FinalizedIds(m) ==>
              var s := StoreEvents(m, d, f);
              Inv(if f.id in s.frames then MergeVotes(s, f.id, values) else ReceiveFrame(s, f))
  {
    if f.id !in FinalizedIds(m) {
      StoreAndReceiveKeeps(m, d, f);
      var s := StoreEvents(m, d, f);
      if f.id in s.frames { VotesKeep(s, f.id, AddAllOnce(s.frames[f.id].votes, values)); }
    }
  }

  /** Every engine call keeps the lifecycle invariant. */
  lemma DoKeeps(m: Manager, t: Turn)
    requires Inv(m) && Sensible(m, t)
    ensures Inv(Do(m, t).0)
  {
    DoIsReach(m, t);
    ReachKeeps(m, t);
    var (c, about) := Reach(m, t);
    if about.Some? { ClassifyKeeps(c, about.value, t.storageOk, t.now); }
  }

  // ---- What reaching the classification changes ----

  /** Of a frame the node has, its own copy counts. */
  function Held(m: Manager, f: Frame): Anchor { if f.id in m.frames then m.frames[f.id].anchor else f.anchor }

  /** The anchor an engine call is about. */
  function Target(m: Manager, t: Turn): Option<Anchor> {
    match t.call
    case Create(p) => (match PrepareProposal(m, p) case Ready(b) => Some(b.anchor) case NotReady(_) => None)
    case Receive(_, f) => Some(Held(m, f))
    case ReceiveFinal(_, f, _) => Some(Held(m, f))
    case VoteArrives(v) => if v.frame in m.frames then Some(m.frames[v.frame].anchor) else None
    case Maintain => None
    case MarkPersisted(_) => None
  }

  /** The classified frame carries the target; nothing is final yet, and the builder is as it was. */
  ghost predicate ReachParts(m: Manager, t: Turn, c: Manager, about: Option<Digest>) {
    && c.builder == m.builder && c.finalized == m.finalized && c.localId == m.localId && c.cfg == m.cfg
    && c.persisted == (if t.call.MarkPersisted? then m.persisted + {t.call.anchor} else m.persisted)
    && (about.Some? ==> about.value in c.frames && Target(m, t) == Some(c.frames[about.value].anchor))
  }

  /** Frames are those there were, with their anchors, and the one the call brings. */
  ghost predicate ReachFrames(m: Manager, t: Turn, c: Manager) {
    forall x | x in c.frames ::
      if x in m.frames then c.frames[x].anchor == m.frames[x].anchor else Target(m, t) == Some(c.frames[x].anchor)
  }

  /** Builds are those there were; only a proposal opens one, and only when there is none. */
  ghost predicate ReachBuilds(m: Manager, t: Turn, c: Manager, about: Option<Digest>) {
    && (t.call.Create? ==> (about.Some? ==> about.value in c.builds) && (c.builds != m.builds ==>
          m.builds == map[] && PrepareProposal(m, t.call.p).Ready?
          && forall x | x in c.builds :: c.builds[x] == PrepareProposal(m, t.call.p).build))
    && (t.call.Maintain? ==> forall x | x in c.builds :: x in m.builds && c.builds[x] == m.builds[x])
    && (!t.call.Create? && !t.call.Maintain? ==> c.builds == m.builds)
  }

  /** Events are stored only for a frame that arrives, and come from the DAG. */
  ghost predicate ReachEvents(m: Manager, t: Turn, c: Manager) {
    forall x | x in c.frameEvents ::
      || (x in m.frameEvents && c.frameEvents[x] == m.frameEvents[x])
      || ((t.call.Receive? || t.call.ReceiveFinal?) && x == t.call.f.id
          && c.frameEvents[x] == CollectEvents(t.call.d, t.call.f.anchor.eventIds))
  }

  ghost predicate ReachedAt(m: Manager, t: Turn, c: Manager, about: Option<Digest>) {
    ReachParts(m, t, c, about) && ReachFrames(m, t, c) && ReachBuilds(m, t, c, about) && ReachEvents(m, t, c)
  }

  /** Only votes differ. */
  ghost predicate SameButVotes(a: Manager, b: Manager) {
    && b.builder == a.builder && b.finalized == a.finalized && b.localId == a.localId && b.cfg == a.cfg
    && b.persisted == a.persisted && b.builds == a.builds && b.frameEvents == a.frameEvents
    && b.frames.Keys == a.frames.Keys
    && (forall x | x in b.frames :: b.frames[x].anchor == a.frames[x].anchor)
  }

  lemma CastShape(m: Manager, id: Digest)
    requires id in m.frames
    ensures var (c, about) := Cast(m, id); SameButVotes(m, c) && (about == Some(id) || about == None)
  {
  }

  lemma ReachedVia(m: Manager, t: Turn, s: Manager, id: Digest)
    requires ReachedAt(m, t, s, Some(id)) && id in s.frames
    ensures var (c, about) := Cast(s, id); ReachedAt(m, t, c, about)
  {
    CastShape(s, id);
  }

  lemma CreateReached(m: Manager, t: Turn)
    requires Inv(m) && Sensible(m, t) && t.call.Create?
    ensures ReachedAt(m, t, Reach(m, t).0, Reach(m, t).1)
  {
    var (s, f) := TryCreate(m, t.call.p);
    if f.Some? { ReachedVia(m, t, s, f.value.id); }
  }

  lemma ArrivalReached(m: Manager, t: Turn)
    requires t.call.Receive? || t.call.ReceiveFinal?
    requires t.call.f.id !in m.frames
    ensures ReachedAt(m, t, ReceiveFrame(StoreEvents(m, t.call.d, t.call.f), t.call.f), Some(t.call.f.id))
  {
  }

  lemma ReceiveReached(m: Manager, t: Turn)
    requires t.call.Receive?
    ensures ReachedAt(m, t, Reach(m, t).0, Reach(m, t).1)
  {
    if !HasFrame(m, t.call.f.id) {
      ArrivalReached(m, t);
      ReachedVia(m, t, ReceiveFrame(StoreEvents(m, t.call.d, t.call.f), t.call.f), t.call.f.id);
    }
  }

  lemma ReceiveFinalReached(m: Manager, t: Turn)
    requires Sensible(m, t) && t.call.ReceiveFinal?
    ensures ReachedAt(m, t, Reach(m, t).0, Reach(m, t).1)
  {
    var f := t.call.f;
    if f.id !in m.frames { ArrivalReached(m, t); }
    else if f.id !in FinalizedIds(m) { MergeReached(m, t, StoreEvents(m, t.call.d, f)); }
  }

  lemma MergeReached(m: Manager, t: Turn, s: Manager)
    requires t.call.ReceiveFinal? && t.call.f.id in m.frames
    requires s == StoreEvents(m, t.call.d, t.call.f)
    ensures ReachedAt(m, t, MergeVotes(s, t.call.f.id, t.call.values), Some(t.call.f.id))
  {
    var c := MergeVotes(s, t.call.f.id, t.call.values);
    assert c.frames.Keys == m.frames.Keys;
  }

  lemma VoteReached(m: Manager, t: Turn)
    requires t.call.VoteArrives?
    ensures ReachedAt(m, t, Reach(m, t).0, Reach(m, t).1)
  {
    var v := t.call.v;
    if v.frame in m.frames { CountedReached(m, t, m.frames[v.frame].votes[v.voter := v]); }
  }

  lemma CountedReached(m: Manager, t: Turn, votes: map<ValidatorId, Vote>)
    requires t.call.VoteArrives? && t.call.v.frame in m.frames
    ensures ReachedAt(m, t, WithVotes(m, t.call.v.frame, votes), Some(t.call.v.frame))
  {
    assert WithVotes(m, t.call.v.frame, votes).frames.Keys == m.frames.Keys;
  }

  lemma UpkeepReached(m: Manager, t: Turn)
    requires t.call.Maintain? || t.call.MarkPersisted?
    ensures ReachedAt(m, t, Reach(m, t).0, Reach(m, t).1)
  {
  }

  lemma ReachIs(m: Manager, t: Turn)
    requires Inv(m) && Sensible(m, t)
    ensures ReachedAt(m, t, Reach(m, t).0, Reach(m, t).1)
  {
    if t.call.Create? { CreateReached(m, t); }
    else if t.call.Receive? { ReceiveReached(m, t); }
    else if t.call.ReceiveFinal? { ReceiveFinalReached(m, t); }
    else if t.call.VoteArrives? { VoteReached(m, t); }
    else { UpkeepReached(m, t); }
  }

  // ---- What classifying a frame changes ----

  lemma TrimmedIdsShrink(fs: seq<Frame>, persisted: set<Digest>)
    ensures TrimmedIds(fs, persisted) <= persisted
  {
  }

  lemma ApplyKeepsConfig(m: Manager, id: Digest, a: Anchor, storageOk: bool, now: nat)
    ensures ApplyFrame(m, id, a, storageOk, now).0.cfg == m.builder.cfg
  {
  }

  lemma ClassifyShape(m: Manager, id: Digest, storageOk: bool, now: nat)
    requires id in m.frames
    ensures var (r, o) := Classify(m, id, storageOk, now);
            && r.persisted <= m.persisted && r.builder.cfg == m.builder.cfg
            && (if o.StillPending? then r == m
                else r.frames == m.frames - {id} && r.builds == m.builds - {id}
                     && r.frameEvents == m.frameEvents - {id})
  {
    FinishShape(m, id, storageOk, now);
    TrimmedIdsShrink(m.finalized + [m.frames[id].(status := FrameFinalized)], m.persisted);
    ApplyKeepsConfig(m, id, m.frames[id].anchor, storageOk, now);
  }

  // ---- What is stored for a frame ----

  lemma ReachFits(m: Manager, t: Turn)
    requires Inv(m) && Sensible(m, t) && Fitting(m) && FaithfulCopy(m, t.call)
    requires t.call.Receive? || t.call.ReceiveFinal? ==> t.call.d.Consistent()
    ensures Fitting(Reach(m, t).0)
  {
    ReachIs(m, t);
    if t.call.Receive? || t.call.ReceiveFinal? { CollectedFit(t.call.d, t.call.f.anchor.eventIds); }
    if t.call.Receive? && t.call.f.id in m.frames { KnownUntouched(m, t); }
  }

  lemma KnownUntouched(m: Manager, t: Turn)
    requires t.call.Receive? && t.call.f.id in m.frames
    ensures Reach(m, t).0 == m
  {
  }

  /** As long as copies are faithful, the events stored for a frame are its own. */
  lemma DoFits(m: Manager, t: Turn)
    requires Inv(m) && Sensible(m, t) && Fitting(m) && FaithfulCopy(m, t.call)
    requires t.call.Receive? || t.call.ReceiveFinal? ==> t.call.d.Consistent()
    ensures Fitting(Do(m, t).0)
  {
    DoIsReach(m, t);
    ReachIs(m, t);
    ReachFits(m, t);
    var (c, about) := Reach(m, t);
    if about.Some? { ClassifyShape(c, about.value, t.storageOk, t.now); }
  }
}
