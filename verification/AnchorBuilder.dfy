/** The anchor builder, changed in place. */
module AnchorBuilderClass {
  import opened Types
  import opened Order
  import opened FoldPolicy
  import opened StateApply
  import opened Router
  import opened DagModel
  import opened BuilderModel
  import Overlay

  class AnchorBuilder {
    const config: Config
    var gsm: GlobalState
    var published: GlobalState
    var overlay: Overlay.Stacks
    var reports: map<EventId, Report>
    var lastAnchor: Option<Anchor>
    var anchorDepth: nat
    var lastFoldVlc: nat
    var lastAnchorChainRoot: Digest
    var totalAnchorCount: nat
    var lastFoldAt: Option<nat>

    function Meta(): ChainMeta
      reads this
    {
      ChainMeta(lastAnchor, anchorDepth, lastFoldVlc, lastAnchorChainRoot, totalAnchorCount)
    }

    function View(): Builder
      reads this
    {
      Builder(config, gsm, published, overlay, reports, Meta(), lastFoldAt)
    }

    constructor (config: Config, gsm: GlobalState)
      ensures View() == Builder(config, gsm, gsm, map[], map[], ChainMeta(None, 0, 0, Zero, 0), None)
    {
      this.config := config;
      this.gsm, published, overlay, reports := gsm, gsm, map[], map[];
      lastAnchor, anchorDepth, lastFoldVlc, lastAnchorChainRoot := None, 0, 0, Zero;
      totalAnchorCount, lastFoldAt := 0, None;
    }

    /** Lists the pending events; a hash set yields them in no particular order. */
    static method ListPending(d: DagState, inFlight: set<EventId>) returns (events: seq<Event>, ghost all: seq<Event>)
      requires d.Consistent()
      ensures Lists(d, all) && DistinctIds(events)
      ensures forall e :: e in events <==> e in all && e.id !in inFlight
    {
      var left := d.pending;
      events, all := [], [];
      while left != {}
        invariant left <= d.pending
        invariant forall e | e in all :: e.id in d.pending - left && d.events[e.id].event == e
        invariant forall id | id in d.pending - left :: d.events[id].event in all
        invariant DistinctIds(all) && DistinctIds(events)
        invariant forall e :: e in events <==> e in all && e.id !in inFlight
        decreases left
      {
        var id :| id in left;
        left := left - {id};
        var e := d.events[id].event;
        if id !in inFlight {
          events := events + [e];
        }
        all := all + [e];
      }
    }

    /** Fold policy and capacity over the eligible pending events. */
    method Choose(d: DagState, inFlight: set<EventId>) returns (chosen: seq<Event>)
      requires d.Consistent()
      ensures DistinctIds(chosen)
      ensures forall listing | Lists(d, listing) :: chosen == Select(config, listing, inFlight)
    {
      var events, all := ListPending(d, inFlight);
      var kept, deferred := ApplyStrictSameKeyFoldPolicy(events);
      chosen := if |kept| > config.maxEvents then kept[..config.maxEvents] else kept;
      assert chosen == Select(config, all, inFlight) by {
        MembersDetermine(events, Eligible(all, inFlight));
        SortForgetsOrder(events, Eligible(all, inFlight));
      }
      SelectedAreDistinct(config, all, inFlight);
      forall listing | Lists(d, listing) ensures chosen == Select(config, listing, inFlight) {
        ListingsAgree(d, all, listing);
        SelectForgetsOrder(config, all, listing, inFlight);
      }
    }

    method PrepareInternal(events: seq<Event>, time: nat, toDepth: nat, timestamp: nat) returns (p: PendingBuild)
      ensures p == PrepareFrom(View(), events, time, toDepth, timestamp)
    {
      var snapshot := TakeSnapshot(Meta());
      var routed := RouteEvents(events);
      var scratch := ApplyCommittedEvents(gsm, events, 0);
      var root := StateRoot(scratch.state);
      var previous := if lastAnchor.Some? then Some(lastAnchor.value.id) else None;
      var roots := MerkleRoots(EventsRoot(events), root, lastAnchorChainRoot);
      var anchor := Anchor(AnchorIdOf(IdsOf(events), time, root, timestamp), IdsOf(events), time, Some(roots), previous,
                           toDepth, timestamp);
      var next := ChainOf(lastAnchorChainRoot, anchor.Hash());
      p := PendingBuild(anchor, routed, events, snapshot, next, toDepth + 1, time);
    }

    /** Reads the DAG and the state, and changes neither; the order of the pending set is irrelevant. */
    method PrepareBuild(d: DagState, time: nat, inFlight: set<EventId>, timestamp: nat) returns (r: Prepared)
      requires d.Consistent()
      ensures forall listing | Lists(d, listing) :: r == Prepare(View(), listing, d.maxDepth, time, inFlight, timestamp)
      ensures r.Ready? ==> WellBuilt(r.build)
    {
      var delta := if time < lastFoldVlc then 0 else time - lastFoldVlc;
      if delta < config.deltaThreshold {
        return NotReady(DeltaNotReached(config.deltaThreshold, delta));
      }
      var events := Choose(d, inFlight);
      r := Assemble(events, time, d.maxDepth, timestamp);
    }

    method Assemble(events: seq<Event>, time: nat, toDepth: nat, timestamp: nat) returns (r: Prepared)
      requires DistinctIds(events)
      ensures r == PrepareSelected(View(), events, time, toDepth, timestamp)
      ensures r.Ready? ==> WellBuilt(r.build)
    {
      if |events| < config.minEvents {
        return NotReady(InsufficientEvents(config.minEvents, |events|));
      }
      if events == [] {
        return NotReady(NoEvents);
      }
      var p := PrepareInternal(events, time, toDepth, timestamp);
      PreparedIsWellBuilt(View(), events, time, toDepth, timestamp);
      r := Ready(p);
    }

    method PrepareBuildHeartbeat(d: DagState, time: nat, interval: nat, inFlight: set<EventId>, timestamp: nat)
      returns (r: Prepared)
      requires d.Consistent()
      ensures forall listing | Lists(d, listing) ::
                r == PrepareHeartbeat(View(), listing, d.maxDepth, time, interval, inFlight, timestamp)
      ensures r.Ready? ==> WellBuilt(r.build)
    {
      if lastFoldAt.Some? && timestamp < lastFoldAt.value + interval {
        var delta := if time < lastFoldVlc then 0 else time - lastFoldVlc;
        return NotReady(DeltaNotReached(config.deltaThreshold, delta));
      }
      var events := Choose(d, inFlight);
      r := Assemble(events, time, d.maxDepth, timestamp);
    }

    method ClearOverlay(ids: seq<EventId>)
      modifies this`overlay
      ensures overlay == Overlay.Cleared(old(overlay), IdSet(ids))
      ensures Overlay.ClearedOf(old(overlay), overlay, IdSet(ids))
    {
      Overlay.ClearingIsExact(overlay, IdSet(ids));
      overlay := Overlay.Cleared(overlay, IdSet(ids));
    }

    method IngestOutcomes(cf: Digest, events: seq<Event>, verdicts: map<EventId, Verdict>)
      modifies this`reports
      ensures reports == Ingest(old(reports), cf, events, verdicts)
    {
      for i := 0 to |events|
        invariant reports == Ingest(old(reports), cf, events[..i], verdicts)
      {
        assert events[..i + 1][..i] == events[..i];
        reports := reports[events[i].id := ReportOf(cf, events[i], verdicts)];
      }
      assert events[..|events|] == events;
    }

    /** Writes the new state; if storage commits it, publishes and reports.  Either way the overlay
        loses the entries of these events. */
    method Settle(applied: ApplyResult, cf: Digest, events: seq<Event>, storageOk: bool)
      modifies this`gsm, this`published, this`reports, this`overlay
      ensures gsm == applied.state && overlay == Overlay.Cleared(old(overlay), IdSet(IdsOf(events)))
      ensures published == if storageOk then applied.state else old(published)
      ensures reports == if storageOk then Ingest(old(reports), cf, events, applied.verdicts) else old(reports)
    {
      gsm := applied.state;
      if storageOk {
        published := gsm;
        IngestOutcomes(cf, events, applied.verdicts);
      }
      ClearOverlay(IdsOf(events));
    }

    method CommitEvents(p: PendingBuild, events: seq<Event>, storageOk: bool, now: nat) returns (r: Committed)
      modifies this
      ensures (View(), r) == CommitListed(old(View()), p, events, storageOk, now)
    {
      if !VerifySnapshot(Meta(), p.snapshot) {
        ClearOverlay(IdsOf(events));
        return Refused(SnapshotMismatch(p.snapshot.depth, anchorDepth));
      }
      var applied := ApplyCommittedEvents(gsm, events, p.newDepth);
      Settle(applied, p.anchor.id, events, storageOk);
      if !storageOk {
        return Refused(StorageFailed);
      }
      Advance(p, now);
      r := Done(applied.verdicts);
    }

    method Advance(p: PendingBuild, now: nat)
      modifies this`lastAnchor, this`anchorDepth, this`lastFoldVlc, this`lastAnchorChainRoot, this`totalAnchorCount,
               this`lastFoldAt
      ensures Meta() == ChainMeta(Some(p.anchor), p.newDepth, p.newFoldTime, p.newChainRoot, old(totalAnchorCount) + 1)
      ensures lastFoldAt == Some(now)
    {
      lastAnchor := Some(p.anchor);
      anchorDepth := p.newDepth;
      lastFoldVlc := p.newFoldTime;
      lastAnchorChainRoot := p.newChainRoot;
      totalAnchorCount := totalAnchorCount + 1;
      lastFoldAt := Some(now);
    }

    /** Leader: the buckets are listed in hash-map order, yet the outcome is that of the prepared list. */
    method CommitBuild(p: PendingBuild, storageOk: bool, now: nat) returns (r: Committed)
      requires WellBuilt(p)
      modifies this
      ensures (View(), r) == Commit(old(View()), p, storageOk, now)
    {
      var events := AllEvents(p.routed, p.folded);
      CommitForgetsOrder(View(), p, events, storageOk, now);
      r := CommitEvents(p, events, storageOk, now);
    }

    /** Follower: verify on a scratch copy, then apply; a refusal leaves state and chain alone. */
    method ApplyFollowerFinalizedCf(events: seq<Event>, a: Anchor, storageOk: bool, now: nat) returns (r: Committed)
      modifies this
      ensures (View(), r) == Follow(old(View()), events, a, storageOk, now)
    {
      if |events| != |a.eventIds| {
        ClearOverlay(a.eventIds);
        return Refused(MissingEvents(|a.eventIds|, |events|));
      }
      var applied := ApplyCommittedEvents(gsm, events, a.depth + 1);
      if a.roots.Some? && StateRoot(applied.state) != a.roots.value.state {
        ClearOverlay(IdsOf(events));
        return Refused(RootMismatch(StateRoot(applied.state), a.roots.value.state));
      }
      Settle(applied, a.id, events, storageOk);
      if !storageOk {
        return Refused(StorageFailed);
      }
      SynchronizeFinalizedAnchor(a, now);
      r := Done(applied.verdicts);
    }

    method SynchronizeFinalizedAnchor(a: Anchor, now: nat)
      modifies this`lastAnchor, this`anchorDepth, this`lastFoldVlc, this`lastAnchorChainRoot, this`totalAnchorCount,
               this`lastFoldAt
      ensures Meta() == Synchronized(old(Meta()), a) && lastFoldAt == Some(now)
    {
      if a.roots.Some? {
        lastAnchorChainRoot := ChainOf(a.roots.value.chain, a.Hash());
      }
      lastAnchor := Some(a);
      anchorDepth := a.depth + 1;
      lastFoldVlc := a.time;
      totalAnchorCount := totalAnchorCount + 1;
      lastFoldAt := Some(now);
    }
  }
}
