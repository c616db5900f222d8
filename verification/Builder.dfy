/** The anchor builder as a value: prepare without touching anything, then commit as leader or
    verify and apply as follower. */
module BuilderModel {
  import opened Types
  import opened Order
  import opened FoldPolicy
  import opened StateApply
  import opened Router
  import opened DagModel
  import Overlay

  /** Where the anchor chain stands. */
  datatype ChainMeta = ChainMeta(lastAnchor: Option<Anchor>, depth: nat, foldTime: nat, chainRoot: Digest, count: nat)

  /** What became of an event, as reported to its sender. */
  datatype Report =
    | AppliedIn(cf: Digest)
    | FailedIn(cf: Digest, reason: Option<string>)
    | StaleIn(cf: Digest, oid: ObjectId)

  /** `gsm` is the state being written, `published` the last snapshot given to readers. */
  datatype Builder = Builder(cfg: Config, gsm: GlobalState, published: GlobalState, overlay: Overlay.Stacks,
                             reports: map<EventId, Report>, meta: ChainMeta, lastFoldAt: Option<nat>)

  datatype Snapshot = Snapshot(lastAnchor: Option<Digest>, depth: nat, foldTime: nat, chainRoot: Digest, count: nat)

  /** A prepared anchor.  `folded` is the list it was prepared from; the builder itself only
      keeps the same events in `routed`. */
  datatype PendingBuild = PendingBuild(anchor: Anchor, routed: RoutedEvents, folded: seq<Event>, snapshot: Snapshot,
                                       newChainRoot: Digest, newDepth: nat, newFoldTime: nat)

  datatype BuildError =
    | DeltaNotReached(required: nat, current: nat)
    | InsufficientEvents(minimum: nat, available: nat)
    | NoEvents
    | SnapshotMismatch(expectedDepth: nat, actualDepth: nat)
    | MissingEvents(expected: nat, found: nat)
    | RootMismatch(computed: Digest, declared: Digest)
    | StorageFailed

  datatype Prepared = Ready(build: PendingBuild) | NotReady(error: BuildError)
  datatype Committed = Done(verdicts: map<EventId, Verdict>) | Refused(error: BuildError)

  /** A prepared build as `Prepare` makes it: the buckets hold the folded events, the anchor their ids. */
  ghost predicate WellBuilt(p: PendingBuild) {
    && Routes(p.routed, p.folded) && DistinctIds(p.folded) && p.anchor.eventIds == IdsOf(p.folded)
    && p.newDepth == p.anchor.depth + 1 && p.newFoldTime == p.anchor.time
    && p.anchor.roots.Some? && p.anchor.roots.value.chain == p.snapshot.chainRoot
    && p.newChainRoot == ChainOf(p.snapshot.chainRoot, p.anchor.Hash())
  }

  // ---- Choosing events ----

  /** The pending events of a DAG, in some order. */
  ghost predicate Lists(d: DagState, s: seq<Event>) {
    && DistinctIds(s)
    && (forall e | e in s :: e.id in d.pending && e.id in d.events && d.events[e.id].event == e)
    && (forall id | id in d.pending && id in d.events :: d.events[id].event in s)
  }

  lemma ListingsAgree(d: DagState, a: seq<Event>, b: seq<Event>)
    requires Lists(d, a) && Lists(d, b)
    ensures forall e :: e in a <==> e in b
  {
  }

  function Eligible(pending: seq<Event>, inFlight: set<EventId>): (r: seq<Event>)
    ensures forall e :: e in r <==> e in pending && e.id !in inFlight
    ensures DistinctIds(pending) ==> DistinctIds(r)
  {
    if pending == [] then []
    else if pending[0].id in inFlight then Eligible(pending[1..], inFlight)
    else [pending[0]] + Eligible(pending[1..], inFlight)
  }

  /** Fold policy first, then the capacity. */
  function Select(cfg: Config, pending: seq<Event>, inFlight: set<EventId>): seq<Event> {
    var kept := Fold(Eligible(pending, inFlight)).kept;
    if |kept| > cfg.maxEvents then kept[..cfg.maxEvents] else kept
  }

  function TakeSnapshot(m: ChainMeta): Snapshot {
    Snapshot(if m.lastAnchor.Some? then Some(m.lastAnchor.value.id) else None,
             m.depth, m.foldTime, m.chainRoot, m.count)
  }

  /** The count is not compared. */
  predicate VerifySnapshot(m: ChainMeta, s: Snapshot) {
    && m.depth == s.depth && m.foldTime == s.foldTime && m.chainRoot == s.chainRoot
    && (if m.lastAnchor.Some? then Some(m.lastAnchor.value.id) else None) == s.lastAnchor
  }

  /** The anchor over the given events; the state root comes from a scratch copy of the state. */
  function PrepareFrom(b: Builder, events: seq<Event>, time: nat, toDepth: nat, timestamp: nat): PendingBuild {
    var root := StateRoot(ApplyCommitted(b.gsm, events, 0).state);
    var ids := IdsOf(events);
    var anchor := Anchor(AnchorIdOf(ids, time, root, timestamp), ids, time,
                         Some(MerkleRoots(EventsRoot(events), root, b.meta.chainRoot)),
                         if b.meta.lastAnchor.Some? then Some(b.meta.lastAnchor.value.id) else None,
                         toDepth, timestamp);
    PendingBuild(anchor, Route(events), events, TakeSnapshot(b.meta), ChainOf(b.meta.chainRoot, anchor.Hash()),
                 toDepth + 1, time)
  }

  function PrepareSelected(b: Builder, events: seq<Event>, time: nat, toDepth: nat, timestamp: nat): Prepared {
    if |events| < b.cfg.minEvents then NotReady(InsufficientEvents(b.cfg.minEvents, |events|))
    else if events == [] then NotReady(NoEvents)
    else Ready(PrepareFrom(b, events, time, toDepth, timestamp))
  }

  function Delta(b: Builder, time: nat): nat { if time < b.meta.foldTime then 0 else time - b.meta.foldTime }

  function Prepare(b: Builder, pending: seq<Event>, maxDepth: nat, time: nat, inFlight: set<EventId>, timestamp: nat)
    : Prepared
  {
    if Delta(b, time) < b.cfg.deltaThreshold then NotReady(DeltaNotReached(b.cfg.deltaThreshold, Delta(b, time)))
    else PrepareSelected(b, Select(b.cfg, pending, inFlight), time, maxDepth, timestamp)
  }

  /** The heartbeat waits for wall-clock time instead of logical time. */
  function PrepareHeartbeat(b: Builder, pending: seq<Event>, maxDepth: nat, time: nat, interval: nat,
                            inFlight: set<EventId>, timestamp: nat): Prepared
  {
    if b.lastFoldAt.Some? && timestamp < b.lastFoldAt.value + interval
    then NotReady(DeltaNotReached(b.cfg.deltaThreshold, Delta(b, time)))
    else PrepareSelected(b, Select(b.cfg, pending, inFlight), time, maxDepth, timestamp)
  }

  // ---- Reporting ----

  function ReportOf(cf: Digest, e: Event, verdicts: map<EventId, Verdict>): Report {
    if e.kind.Genesis? || e.id !in verdicts then AppliedIn(cf)
    else match verdicts[e.id]
      case Conflicted(oid) => StaleIn(cf, oid)
      case ExecFailed => FailedIn(cf, if e.result.Some? then e.result.value.message else None)
      case _ => AppliedIn(cf)
  }

  function Ingest(reports: map<EventId, Report>, cf: Digest, events: seq<Event>, verdicts: map<EventId, Verdict>)
    : map<EventId, Report>
  {
    if events == [] then reports
    else
      var e := events[|events| - 1];
      Ingest(reports, cf, events[..|events| - 1], verdicts)[e.id := ReportOf(cf, e, verdicts)]
  }

  // ---- Committing ----

  function Synchronized(m: ChainMeta, a: Anchor): ChainMeta {
    ChainMeta(Some(a), a.depth + 1, a.time,
              if a.roots.Some? then ChainOf(a.roots.value.chain, a.Hash()) else m.chainRoot,
              m.count + 1)
  }

  /** State, snapshot, reports and overlay after a list of events has been applied for good. */
  function Landed(b: Builder, r: ApplyResult, cf: Digest, events: seq<Event>, meta: ChainMeta, now: nat): Builder {
    b.(gsm := r.state, published := r.state, reports := Ingest(b.reports, cf, events, r.verdicts),
       overlay := Overlay.Cleared(b.overlay, IdSet(IdsOf(events))), meta := meta, lastFoldAt := Some(now))
  }

  function Cleaned(b: Builder, ids: seq<EventId>): Builder {
    b.(overlay := Overlay.Cleared(b.overlay, IdSet(ids)))
  }

  /** Leader: apply the prepared events, listed in any order, if nothing else was committed since. */
  function CommitListed(b: Builder, p: PendingBuild, listing: seq<Event>, storageOk: bool, now: nat)
    : (Builder, Committed)
  {
    if !VerifySnapshot(b.meta, p.snapshot)
    then (Cleaned(b, IdsOf(listing)), Refused(SnapshotMismatch(p.snapshot.depth, b.meta.depth)))
    else
      var r := ApplyCommitted(b.gsm, listing, p.newDepth);
      if !storageOk then (Cleaned(b.(gsm := r.state), IdsOf(listing)), Refused(StorageFailed))
      else (Landed(b, r, p.anchor.id, listing,
                   ChainMeta(Some(p.anchor), p.newDepth, p.newFoldTime, p.newChainRoot, b.meta.count + 1), now),
            Done(r.verdicts))
  }

  function Commit(b: Builder, p: PendingBuild, storageOk: bool, now: nat): (Builder, Committed) {
    CommitListed(b, p, p.folded, storageOk, now)
  }

  /** Follower: check that the events are complete and lead to the declared root, then apply. */
  function Follow(b: Builder, events: seq<Event>, a: Anchor, storageOk: bool, now: nat): (Builder, Committed) {
    if |events| != |a.eventIds| then (Cleaned(b, a.eventIds), Refused(MissingEvents(|a.eventIds|, |events|)))
    else
      var r := ApplyCommitted(b.gsm, events, a.depth + 1);
      if a.roots.Some? && StateRoot(r.state) != a.roots.value.state
      then (Cleaned(b, IdsOf(events)), Refused(RootMismatch(StateRoot(r.state), a.roots.value.state)))
      else if !storageOk then (Cleaned(b.(gsm := r.state), IdsOf(events)), Refused(StorageFailed))
      else (Landed(b, r, a.id, events, Synchronized(b.meta, a), now), Done(r.verdicts))
  }

  /** The events of an anchor as found in a DAG, in the anchor's order. */
  function CollectEvents(d: DagState, ids: seq<EventId>): seq<Event> {
    if ids == [] then []
    else CollectEvents(d, ids[..|ids| - 1])
         + (if ids[|ids| - 1] in d.events then [d.events[ids[|ids| - 1]].event] else [])
  }

  // ---- The listing does not matter ----

  lemma {:induction false} IngestAt(reports: map<EventId, Report>, cf: Digest, events: seq<Event>,
                                    verdicts: map<EventId, Verdict>, id: EventId)
    requires DistinctIds(events)
    ensures var r := Ingest(reports, cf, events, verdicts);
            && (forall e | e in events && e.id == id :: id in r && r[id] == ReportOf(cf, e, verdicts))
            && ((forall e | e in events :: e.id != id) ==>
                  (id in r <==> id in reports) && (id in r ==> r[id] == reports[id]))
    decreases |events|
  {
    if events != [] {
      var k := |events| - 1;
      IngestAt(reports, cf, events[..k], verdicts, id);
      assert events == events[..k] + [events[k]];
    }
  }

  lemma IngestForgetsOrder(reports: map<EventId, Report>, cf: Digest, a: seq<Event>, b: seq<Event>,
                           verdicts: map<EventId, Verdict>)
    requires multiset(a) == multiset(b) && DistinctIds(a)
    ensures Ingest(reports, cf, a, verdicts) == Ingest(reports, cf, b, verdicts)
  {
    SameElements(a, b);
    DistinctKept(a, b);
    var x, y := Ingest(reports, cf, a, verdicts), Ingest(reports, cf, b, verdicts);
    forall id ensures (id in x <==> id in y) && (id in x ==> x[id] == y[id]) {
      IngestAt(reports, cf, a, verdicts, id);
      IngestAt(reports, cf, b, verdicts, id);
      if e :| e in a && e.id == id { assert e in b; }
    }
    assert x == y;
  }

  lemma SameIds(a: seq<Event>, b: seq<Event>)
    requires multiset(a) == multiset(b)
    ensures IdSet(IdsOf(a)) == IdSet(IdsOf(b))
  {
    SameElements(a, b);
    IdsAre(a);
    IdsAre(b);
  }

  lemma IdsAre(a: seq<Event>)
    ensures forall id :: id in IdSet(IdsOf(a)) <==> exists e | e in a :: e.id == id
  {
    forall id ensures id in IdSet(IdsOf(a)) <==> exists e | e in a :: e.id == id {
      if e :| e in a && e.id == id {
        var i :| 0 <= i < |a| && a[i] == e;
        assert IdsOf(a)[i] == id;
      }
      if id in IdSet(IdsOf(a)) {
        var i :| 0 <= i < |a| && IdsOf(a)[i] == id;
        assert a[i] in a;
      }
    }
  }

  /** Whatever order the leader's buckets come in, the commit is the same. */
  lemma CommitForgetsOrder(b: Builder, p: PendingBuild, listing: seq<Event>, storageOk: bool, now: nat)
    requires multiset(listing) == multiset(p.folded) && DistinctIds(p.folded)
    ensures CommitListed(b, p, listing, storageOk, now) == Commit(b, p, storageOk, now)
  {
    ApplyForgetsOrder(b.gsm, p.folded, listing, p.newDepth);
    SameIds(p.folded, listing);
    var r := ApplyCommitted(b.gsm, p.folded, p.newDepth);
    IngestForgetsOrder(b.reports, p.anchor.id, p.folded, listing, r.verdicts);
  }

  lemma SelectForgetsOrder(cfg: Config, a: seq<Event>, b: seq<Event>, inFlight: set<EventId>)
    requires DistinctIds(a) && DistinctIds(b) && forall e :: e in a <==> e in b
    ensures Select(cfg, a, inFlight) == Select(cfg, b, inFlight)
  {
    MembersDetermine(Eligible(a, inFlight), Eligible(b, inFlight));
    SortForgetsOrder(Eligible(a, inFlight), Eligible(b, inFlight));
  }

  lemma SelectedAreDistinct(cfg: Config, pending: seq<Event>, inFlight: set<EventId>)
    requires DistinctIds(pending)
    ensures DistinctIds(Select(cfg, pending, inFlight))
    ensures forall e | e in Select(cfg, pending, inFlight) :: e in pending && e.id !in inFlight
  {
    var el := Eligible(pending, inFlight);
    KeptIsSorted(el);
    SameElements(SortByVlc(el), el);
    ScanSplits(SortByVlc(el), {});
  }

  lemma PreparedIsWellBuilt(b: Builder, events: seq<Event>, time: nat, toDepth: nat, timestamp: nat)
    requires DistinctIds(events)
    ensures WellBuilt(PrepareFrom(b, events, time, toDepth, timestamp))
  {
    RouteIsRight(events);
  }

  /** A follower, too, does not mind the order. */
  lemma FollowForgetsOrder(b: Builder, x: seq<Event>, y: seq<Event>, a: Anchor, storageOk: bool, now: nat)
    requires multiset(x) == multiset(y) && DistinctIds(x)
    ensures Follow(b, x, a, storageOk, now) == Follow(b, y, a, storageOk, now)
  {
    ApplyForgetsOrder(b.gsm, x, y, a.depth + 1);
    assert |x| == |multiset(x)| == |multiset(y)| == |y|;
    CleanedForgetsOrder(b, x, y);
    EndingForgetsOrder(b, ApplyCommitted(b.gsm, x, a.depth + 1), x, y, a.id, Synchronized(b.meta, a), now);
    SameEnding(b, x, y, a, ApplyCommitted(b.gsm, x, a.depth + 1), storageOk, now);
  }

  lemma SameEnding(b: Builder, x: seq<Event>, y: seq<Event>, a: Anchor, r: ApplyResult, storageOk: bool, now: nat)
    requires |x| == |y| && r == ApplyCommitted(b.gsm, x, a.depth + 1) == ApplyCommitted(b.gsm, y, a.depth + 1)
    requires Cleaned(b, IdsOf(x)) == Cleaned(b, IdsOf(y))
    requires Landed(b, r, a.id, x, Synchronized(b.meta, a), now) == Landed(b, r, a.id, y, Synchronized(b.meta, a), now)
    ensures Follow(b, x, a, storageOk, now) == Follow(b, y, a, storageOk, now)
  {
  }

  lemma CleanedForgetsOrder(b: Builder, x: seq<Event>, y: seq<Event>)
    requires multiset(x) == multiset(y) && DistinctIds(x)
    ensures Cleaned(b, IdsOf(x)) == Cleaned(b, IdsOf(y))
  {
    SameIds(x, y);
  }

  lemma EndingForgetsOrder(b: Builder, r: ApplyResult, x: seq<Event>, y: seq<Event>, cf: Digest, meta: ChainMeta,
                           now: nat)
    requires multiset(x) == multiset(y) && DistinctIds(x)
    ensures Landed(b, r, cf, x, meta, now) == Landed(b, r, cf, y, meta, now)
  {
    SameIds(x, y);
    IngestForgetsOrder(b.reports, cf, x, y, r.verdicts);
  }

  // ---- All or nothing ----

  /** A commit that goes through moves the chain by exactly the anchor; one that is refused leaves it. */
  lemma CommitMovesChain(b: Builder, p: PendingBuild, storageOk: bool, now: nat)
    requires WellBuilt(p)
    ensures var (n, r) := Commit(b, p, storageOk, now);
            n.meta == if r.Done? then Synchronized(b.meta, p.anchor) else b.meta
    ensures Commit(b, p, storageOk, now).1.Done? ==> p.anchor.roots.value.chain == b.meta.chainRoot
  {
  }

  lemma FollowMovesChain(b: Builder, events: seq<Event>, a: Anchor, storageOk: bool, now: nat)
    ensures var (n, r) := Follow(b, events, a, storageOk, now);
            n.meta == if r.Done? then Synchronized(b.meta, a) else b.meta
  {
  }

  /** On every way out of a commit, the overlay is rid of the build's events and of nothing else. */
  lemma CommitClearsOverlay(b: Builder, p: PendingBuild, storageOk: bool, now: nat)
    requires WellBuilt(p)
    ensures Overlay.ClearedOf(b.overlay, Commit(b, p, storageOk, now).0.overlay, IdSet(p.anchor.eventIds))
  {
    Overlay.ClearingIsExact(b.overlay, IdSet(p.anchor.eventIds));
  }

  /** A follower clears the events it was given, so the anchor's exactly when the list is not complete,
      or no overlay entry tells the two apart. */
  lemma FollowClearsOverlayIff(b: Builder, events: seq<Event>, a: Anchor, storageOk: bool, now: nat)
    ensures Overlay.ClearedOf(b.overlay, Follow(b, events, a, storageOk, now).0.overlay, IdSet(a.eventIds)) <==>
            |events| != |a.eventIds| || Overlay.NoneBetween(b.overlay, IdSet(IdsOf(events)), IdSet(a.eventIds))
  {
    Overlay.ClearingIsExact(b.overlay, IdSet(a.eventIds));
    if |events| == |a.eventIds| {
      var after := Follow(b, events, a, storageOk, now).0.overlay;
      assert after == Overlay.Cleared(b.overlay, IdSet(IdsOf(events)));
      ClearedOthersIff(b.overlay, IdSet(IdsOf(events)), IdSet(a.eventIds));
    }
  }

  lemma ClearedOthersIff(o: Overlay.Stacks, cleared: set<EventId>, meant: set<EventId>)
    ensures Overlay.ClearedOf(o, Overlay.Cleared(o, cleared), meant) <==> Overlay.NoneBetween(o, cleared, meant)
  {
    Overlay.ClearingIsExact(o, cleared);
    forall x | Overlay.Owns(Overlay.Cleared(o, cleared), x) ensures Overlay.Owns(o, x) {
      Overlay.ClearingOnlyRemoves(o, cleared, x);
    }
    Overlay.OtherClearedIff(o, Overlay.Cleared(o, cleared), cleared, meant);
  }
}
