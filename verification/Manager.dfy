/** The consensus manager as a value: frames awaiting votes, the open build, and how a frame ends. */
module ManagerModel {
  import opened Types
  import opened DagModel
  import opened BuilderModel

  // ---- Votes ----

  function Approvals(votes: map<ValidatorId, Vote>): nat { |set v | v in votes && votes[v].approve| }

  function Rejections(votes: map<ValidatorId, Vote>): nat { |set v | v in votes && !votes[v].approve| }

  function QuorumSize(validators: nat): nat { validators * 2 / 3 + 1 }

  predicate HasQuorum(f: Frame, validators: nat) { Approvals(f.votes) >= QuorumSize(validators) }

  predicate IsRejected(f: Frame, validators: nat) { Rejections(f.votes) >= validators / 3 + 1 }

  predicate IsTimeout(f: Frame, timeoutMs: nat, now: nat) { now > f.createdAt + timeoutMs }

  /** The first vote of a validator counts. */
  function AddOnce(votes: map<ValidatorId, Vote>, v: Vote): map<ValidatorId, Vote> {
    if v.voter in votes then votes else votes[v.voter := v]
  }

  function AddAllOnce(votes: map<ValidatorId, Vote>, more: seq<Vote>): map<ValidatorId, Vote> {
    if more == [] then votes else AddOnce(AddAllOnce(votes, more[..|more| - 1]), more[|more| - 1])
  }

  /** The votes of a table, in some order. */
  ghost predicate Enumerates(votes: map<ValidatorId, Vote>, values: seq<Vote>) {
    exists keys: seq<ValidatorId> :: EnumeratesBy(votes, values, keys)
  }

  ghost predicate EnumeratesBy(votes: map<ValidatorId, Vote>, values: seq<Vote>, keys: seq<ValidatorId>) {
    && |keys| == |values| && (forall i, j | 0 <= i < j < |keys| :: keys[i] != keys[j])
    && (forall k :: k in votes <==> k in keys)
    && (forall i | 0 <= i < |keys| :: keys[i] in votes && values[i] == votes[keys[i]])
  }

  // ---- State ----

  datatype FailureRole = LeaderCommitError | LeaderFollowerFallback | Follower
  datatype Failure = Failure(frame: Digest, anchor: Digest, depth: nat, role: FailureRole, error: BuildError)

  datatype Manager = Manager(cfg: Config, localId: ValidatorId, builder: Builder,
                             frames: map<Digest, Frame>, builds: map<Digest, PendingBuild>,
                             frameEvents: map<Digest, seq<Event>>, buffered: map<Digest, seq<Vote>>,
                             finalized: seq<Frame>, persisted: set<Digest>, lastFailure: Option<Failure>)

  datatype Outcome = StillPending | Finalizes(id: Digest) | ApplyFails(failure: Failure) | Rejects(id: Digest)
                   | TimesOut(id: Digest)

  function FinalizedIds(m: Manager): set<Digest> { set f | f in m.finalized :: f.id }

  predicate HasFrame(m: Manager, id: Digest) { id in m.frames || id in FinalizedIds(m) }

  // ---- Creating a frame ----

  function InFlight(m: Manager): set<EventId> {
    (set id, e | id in m.builds && e in m.builds[id].anchor.eventIds :: e)
    + (set id, e | id in m.frameEvents && e in m.frameEvents[id] :: e.id)
  }

  function NewFrame(m: Manager, a: Anchor, round: nat, timestamp: nat): Frame {
    Frame(FrameIdOf(round, a.id, m.localId, timestamp), round, a, m.localId, Proposed, map[], timestamp)
  }

  /** What a proposal is made from: the pending events in some order, the DAG's depth, the clocks. */
  datatype Proposal = Proposal(heartbeat: bool, interval: nat, pending: seq<Event>, maxDepth: nat, time: nat,
                               round: nat, timestamp: nat)

  function PrepareProposal(m: Manager, p: Proposal): Prepared {
    if p.heartbeat
    then PrepareHeartbeat(m.builder, p.pending, p.maxDepth, p.time, p.interval, InFlight(m), p.timestamp)
    else Prepare(m.builder, p.pending, p.maxDepth, p.time, InFlight(m), p.timestamp)
  }

  /** At most one build may be open. */
  function TryCreate(m: Manager, p: Proposal): (Manager, Option<Frame>) {
    if m.builds != map[] then (m, None)
    else match PrepareProposal(m, p)
      case NotReady(_) => (m, None)
      case Ready(b) =>
        var f := NewFrame(m, b.anchor, p.round, p.timestamp);
        (m.(builds := m.builds[f.id := b], frames := m.frames[f.id := f]), Some(f))
  }

  // ---- Receiving frames and votes ----

  /** Keeps the events of a received frame for when it becomes final. */
  function StoreEvents(m: Manager, d: DagState, f: Frame): Manager {
    m.(frameEvents := m.frameEvents[f.id := CollectEvents(d, f.anchor.eventIds)])
  }

  function Buffered(m: Manager, id: Digest): seq<Vote> { if id in m.buffered then m.buffered[id] else [] }

  function ReceiveFrame(m: Manager, f: Frame): Manager {
    if f.id in m.frames then m
    else m.(frames := m.frames[f.id := f.(votes := AddAllOnce(f.votes, Buffered(m, f.id)))],
            buffered := m.buffered - {f.id})
  }

  function CastVote(m: Manager, id: Digest, approve: bool): (Manager, Option<Vote>) {
    if id !in m.frames || m.localId in m.frames[id].votes then (m, None)
    else
      var v := Vote(m.localId, id, approve);
      (m.(frames := m.frames[id := m.frames[id].(votes := m.frames[id].votes[v.voter := v])]), Some(v))
  }

  /** The votes that came with a finalized frame fill the gaps in the table at hand. */
  function MergeVotes(m: Manager, id: Digest, values: seq<Vote>): Manager
    requires id in m.frames
  {
    m.(frames := m.frames[id := m.frames[id].(votes := AddAllOnce(m.frames[id].votes, values))])
  }

  function ReceiveVote(m: Manager, v: Vote, storageOk: bool, now: nat): (Manager, Outcome) {
    if v.frame !in m.frames
    then (m.(buffered := m.buffered[v.frame := Buffered(m, v.frame) + [v]]), StillPending)
    else if v.voter in m.frames[v.frame].votes then (m, StillPending)
    else
      var f := m.frames[v.frame];
      Classify(m.(frames := m.frames[v.frame := f.(votes := f.votes[v.voter := v])]), v.frame, storageOk, now)
  }

  /** `values` are the votes of the frame's table, in the order in which they come out of it. */
  function ReceiveFinalized(m: Manager, f: Frame, values: seq<Vote>, storageOk: bool, now: nat): (Manager, Outcome) {
    if f.id in FinalizedIds(m) then (m, StillPending)
    else Classify(if f.id in m.frames then MergeVotes(m, f.id, values) else ReceiveFrame(m, f), f.id, storageOk, now)
  }

  // ---- The end of a frame ----

  /** The builder after the anchor of a frame with quorum was applied, and the failure if it could not be. */
  function ApplyFrame(m: Manager, id: Digest, a: Anchor, storageOk: bool, now: nat): (Builder, Option<Failure>) {
    if id in m.builds then
      var p := m.builds[id];
      var lead := Commit(m.builder, p, storageOk, now);
      if lead.1.Done? then (lead.0, None)
      else if lead.1.error.SnapshotMismatch? then
        var follow := Follow(lead.0, p.folded, a, storageOk, now);
        (follow.0, if follow.1.Done? then None
                   else Some(Failure(id, a.id, a.depth, LeaderFollowerFallback, follow.1.error)))
      else (lead.0, Some(Failure(id, a.id, a.depth, LeaderCommitError, lead.1.error)))
    else
      var events := if id in m.frameEvents then m.frameEvents[id] else [];
      var follow := Follow(m.builder, events, a, storageOk, now);
      (follow.0, if follow.1.Done? then None else Some(Failure(id, a.id, a.depth, Follower, follow.1.error)))
  }

  function Discard(m: Manager, id: Digest): Manager {
    m.(frames := m.frames - {id}, builds := m.builds - {id}, frameEvents := m.frameEvents - {id})
  }

  const MAX_FINALIZED := 1000

  /** Drops up to `excess` persisted frames, oldest first. */
  function Retain(fs: seq<Frame>, persisted: set<Digest>, excess: nat): seq<Frame> {
    if fs == [] then []
    else if excess > 0 && fs[0].anchor.id in persisted then Retain(fs[1..], persisted, excess - 1)
    else [fs[0]] + Retain(fs[1..], persisted, excess)
  }

  function Trimmed(fs: seq<Frame>, persisted: set<Digest>): seq<Frame> {
    if |fs| <= MAX_FINALIZED then fs else Retain(fs, persisted, |fs| - MAX_FINALIZED)
  }

  /** The anchors of the frames that `Retain` drops. */
  function Dropped(fs: seq<Frame>, persisted: set<Digest>, excess: nat): set<Digest> {
    if fs == [] then {}
    else if excess > 0 && fs[0].anchor.id in persisted then {fs[0].anchor.id} + Dropped(fs[1..], persisted, excess - 1)
    else Dropped(fs[1..], persisted, excess)
  }

  function TrimmedIds(fs: seq<Frame>, persisted: set<Digest>): set<Digest> {
    if |fs| <= MAX_FINALIZED then persisted else persisted - Dropped(fs, persisted, |fs| - MAX_FINALIZED)
  }

  function Finish(m: Manager, id: Digest, storageOk: bool, now: nat): (Manager, Outcome)
    requires id in m.frames
  {
    Concluded(m, id, ApplyFrame(m, id, m.frames[id].anchor, storageOk, now))
  }

  /** The end of a frame once its anchor was applied, or was not. */
  function Concluded(m: Manager, id: Digest, applied: (Builder, Option<Failure>)): (Manager, Outcome)
    requires id in m.frames
  {
    var f := m.frames[id].(status := FrameFinalized);
    var rest := Discard(m, id).(builder := applied.0);
    match applied.1
    case Some(failure) => (rest.(lastFailure := Some(failure)), ApplyFails(failure))
    case None =>
      var fs := m.finalized + [f];
      (rest.(lastFailure := None, finalized := Trimmed(fs, m.persisted), persisted := TrimmedIds(fs, m.persisted)),
       Finalizes(id))
  }

  function Classify(m: Manager, id: Digest, storageOk: bool, now: nat): (Manager, Outcome) {
    if id !in m.frames then (m, StillPending)
    else
      var f := m.frames[id];
      if HasQuorum(f, m.cfg.validatorCount) then Finish(m, id, storageOk, now)
      else if IsRejected(f, m.cfg.validatorCount) then (Discard(m, id), Rejects(id))
      else if IsTimeout(f, m.cfg.timeoutMs, now) then (Discard(m, id), TimesOut(id))
      else (m, StillPending)
  }

  function TimedOutIds(m: Manager, now: nat): set<Digest> {
    set id | id in m.frames && IsTimeout(m.frames[id], m.cfg.timeoutMs, now)
  }

  function Cleanup(m: Manager, now: nat): Manager {
    var ids := TimedOutIds(m, now);
    m.(frames := m.frames - ids, builds := m.builds - ids, frameEvents := m.frameEvents - ids,
       buffered := m.buffered - ids,
       lastFailure := if m.lastFailure.Some? && m.lastFailure.value.frame in ids then None else m.lastFailure)
  }

  // ---- Engine calls: several of the above under one lock ----

  function EngineCreate(m: Manager, p: Proposal, storageOk: bool, now: nat): (Manager, Outcome) {
    match TryCreate(m, p)
    case (m1, None) => (m1, StillPending)
    case (m1, Some(f)) =>
      match CastVote(m1, f.id, true)
      case (m2, None) => (m2, StillPending)
      case (m2, Some(_)) => Classify(m2, f.id, storageOk, now)
  }

  function EngineReceive(m: Manager, d: DagState, f: Frame, storageOk: bool, now: nat): (Manager, Outcome) {
    if HasFrame(m, f.id) then (m, StillPending)
    else match CastVote(ReceiveFrame(StoreEvents(m, d, f), f), f.id, true)
      case (m2, None) => (m2, StillPending)
      case (m2, Some(_)) => Classify(m2, f.id, storageOk, now)
  }

  function EngineReceiveFinalized(m: Manager, d: DagState, f: Frame, values: seq<Vote>, storageOk: bool, now: nat)
    : (Manager, Outcome)
  {
    if f.id in FinalizedIds(m) then (m, StillPending)
    else ReceiveFinalized(StoreEvents(m, d, f), f, values, storageOk, now)
  }
}
