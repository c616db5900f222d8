/** What an anchor is built from and what it says: the stable events that are free, up to the capacity, and
    the place the chain stands at. */
module Choosing {
  import opened Types
  import opened Order
  import opened FoldPolicy
  import opened StateApply
  import opened BuilderModel
  import opened Agreement

  /** The pending events that are in no open build and stored for no frame. */
  function FreeEvents(pending: seq<Event>, inFlight: set<EventId>): set<Event> {
    set e | e in pending && e.id !in inFlight
  }

  function Min(a: nat, b: nat): nat { if a < b then a else b }

  lemma DistinctCount(s: seq<Event>)
    requires DistinctIds(s)
    ensures |Elements(s)| == |s|
    decreases |s|
  {
    if s != [] {
      var k := |s| - 1;
      DistinctCount(s[..k]);
      assert Elements(s) == Elements(s[..k]) + {s[k]};
    }
  }

  lemma SortedIsBefore(s: seq<Event>, i: nat, j: nat)
    requires Sorted(s) && DistinctIds(s) && i < j < |s|
    ensures Before(s[i], s[j])
  {
    assert !Before(s[j], s[i]) && s[i].id != s[j].id;
  }

  lemma KeptIsStable(pending: seq<Event>, inFlight: set<EventId>, stable: set<Event>)
    requires DistinctIds(pending) && Stable(FreeEvents(pending, inFlight), stable)
    ensures var kept := Fold(Eligible(pending, inFlight)).kept;
            stable == Elements(kept) && |stable| == |kept| && Sorted(kept) && DistinctIds(kept)
  {
    var free := Eligible(pending, inFlight);
    assert Elements(free) == FreeEvents(pending, inFlight);
    FoldIsCanonical(free, free, stable);
    KeptIsSorted(free);
    DistinctCount(Fold(free).kept);
  }

  /** Of the stable events as many are chosen as there is room for, in canonical order, and those left for
      later come after every chosen one. */
  lemma SelectedIsCapacity(cfg: Config, pending: seq<Event>, inFlight: set<EventId>, stable: set<Event>)
    requires DistinctIds(pending) && Stable(FreeEvents(pending, inFlight), stable)
    ensures var chosen := Select(cfg, pending, inFlight);
            && |chosen| == Min(cfg.maxEvents, |stable|)
            && (forall e | e in chosen :: e in stable)
            && (forall i, j | 0 <= i < j < |chosen| :: Before(chosen[i], chosen[j]))
            && (forall e, x | e in chosen && x in stable && x !in chosen :: Before(e, x))
  {
    var kept, chosen := Fold(Eligible(pending, inFlight)).kept, Select(cfg, pending, inFlight);
    KeptIsStable(pending, inFlight, stable);
    FirstComeFirst(kept, |chosen|);
    assert chosen == kept[..|chosen|];
  }

  lemma FirstComeFirst(kept: seq<Event>, n: nat)
    requires Sorted(kept) && DistinctIds(kept) && n <= |kept|
    ensures forall i, j | 0 <= i < j < n :: Before(kept[..n][i], kept[..n][j])
    ensures forall e, x | e in kept[..n] && x in kept && x !in kept[..n] :: Before(e, x)
  {
    forall i, j | 0 <= i < j < |kept| ensures Before(kept[i], kept[j]) { SortedIsBefore(kept, i, j); }
    forall e, x | e in kept[..n] && x in kept && x !in kept[..n] ensures Before(e, x) {
      var i :| 0 <= i < n && kept[i] == e;
      var j :| 0 <= j < |kept| && kept[j] == x;
      assert forall h | 0 <= h < n :: kept[h] == kept[..n][h] && kept[..n][h] in kept[..n];
    }
  }

  /** There is always a stable selection. */
  lemma StableExists(pending: seq<Event>, inFlight: set<EventId>) returns (stable: set<Event>)
    requires DistinctIds(pending)
    ensures Stable(FreeEvents(pending, inFlight), stable)
  {
    var free := Eligible(pending, inFlight);
    assert Elements(free) == FreeEvents(pending, inFlight);
    FoldIsStable(free);
    stable := Elements(Fold(free).kept);
  }

  // ---- When a build is ready ----

  /** How far logical time is past the last fold, never below zero. */
  function Elapsed(b: Builder, time: nat): nat { if time > b.meta.foldTime then time - b.meta.foldTime else 0 }

  /** With `count` events to choose from and the time guard met, the outcome of preparing. */
  ghost predicate ReadyFor(b: Builder, r: Prepared, count: nat) {
    && (r.Ready? <==> count > 0 && count >= b.cfg.minEvents)
    && (r == NotReady(InsufficientEvents(b.cfg.minEvents, count)) <==> count < b.cfg.minEvents)
    && (r == NotReady(NoEvents) <==> count == 0 && b.cfg.minEvents == 0)
  }

  /** A build is ready exactly when logical time has moved far enough and there are enough stable events, the
      capacity counted in; otherwise the error says which, with the numbers. */
  lemma PreparesIff(b: Builder, pending: seq<Event>, maxDepth: nat, time: nat, inFlight: set<EventId>, timestamp: nat,
                    stable: set<Event>)
    requires DistinctIds(pending) && Stable(FreeEvents(pending, inFlight), stable)
    ensures var r := Prepare(b, pending, maxDepth, time, inFlight, timestamp);
            if Elapsed(b, time) < b.cfg.deltaThreshold
            then r == NotReady(DeltaNotReached(b.cfg.deltaThreshold, Elapsed(b, time)))
            else ReadyFor(b, r, Min(b.cfg.maxEvents, |stable|))
  {
    SelectedIsCapacity(b.cfg, pending, inFlight, stable);
  }

  /** The heartbeat waits for wall-clock time instead: until the interval has passed since the last fold. */
  lemma HeartbeatIff(b: Builder, pending: seq<Event>, maxDepth: nat, time: nat, interval: nat, inFlight: set<EventId>,
                     timestamp: nat, stable: set<Event>)
    requires DistinctIds(pending) && Stable(FreeEvents(pending, inFlight), stable)
    ensures var r := PrepareHeartbeat(b, pending, maxDepth, time, interval, inFlight, timestamp);
            if b.lastFoldAt.Some? && timestamp < b.lastFoldAt.value + interval
            then r == NotReady(DeltaNotReached(b.cfg.deltaThreshold, Elapsed(b, time)))
            else ReadyFor(b, r, Min(b.cfg.maxEvents, |stable|))
  {
    SelectedIsCapacity(b.cfg, pending, inFlight, stable);
  }

  // ---- What the anchor says ----

  /** The anchor names the events in order, follows the anchor the chain stands at, lies at the DAG's depth, and
      commits to the events it names, to the chain root, and to the state they lead to at any depth. */
  ghost predicate SaysOf(p: PendingBuild, b: Builder, events: seq<Event>, time: nat, maxDepth: nat, timestamp: nat) {
    var a := p.anchor;
    && a.eventIds == IdsOf(events) && a.depth == maxDepth && a.time == time && a.timestamp == timestamp
    && a.previous == (match b.meta.lastAnchor case Some(last) => Some(last.id) case None => None)
    && a.roots.Some? && a.roots.value.chain == b.meta.chainRoot && a.roots.value.events == EventsRootOf(a.eventIds)
    && (forall d :: a.roots.value.state == StateRoot(ApplyCommitted(b.gsm, events, d).state))
    && a.id == AnchorIdOf(a.eventIds, time, a.roots.value.state, timestamp)
    && p.newDepth == maxDepth + 1 && p.newFoldTime == time && VerifySnapshot(b.meta, p.snapshot)
  }

  lemma PreparedSays(b: Builder, events: seq<Event>, time: nat, maxDepth: nat, timestamp: nat)
    requires events != [] && Sorted(events) && DistinctIds(events)
    ensures SaysOf(PrepareFrom(b, events, time, maxDepth, timestamp), b, events, time, maxDepth, timestamp)
  {
    forall d
      ensures StateRoot(ApplyCommitted(b.gsm, events, d).state) == StateRoot(ApplyCommitted(b.gsm, events, 0).state)
    {
      RootAsDeclared(b.gsm, events, d);
    }
    DistinctKept(events, SortByVlc(events));
    SortedIsUnique(SortByVlc(events), events);
  }

  lemma SelectedIsSorted(cfg: Config, pending: seq<Event>, inFlight: set<EventId>)
    requires DistinctIds(pending)
    ensures Sorted(Select(cfg, pending, inFlight)) && DistinctIds(Select(cfg, pending, inFlight))
  {
    KeptIsSorted(Eligible(pending, inFlight));
  }

  /** So of every build that is ready, heartbeat or not. */
  lemma ReadySays(b: Builder, pending: seq<Event>, maxDepth: nat, time: nat, interval: nat, inFlight: set<EventId>,
                  timestamp: nat)
    requires DistinctIds(pending)
    ensures var r := Prepare(b, pending, maxDepth, time, inFlight, timestamp);
            r.Ready? ==> SaysOf(r.build, b, Select(b.cfg, pending, inFlight), time, maxDepth, timestamp)
    ensures var r := PrepareHeartbeat(b, pending, maxDepth, time, interval, inFlight, timestamp);
            r.Ready? ==> SaysOf(r.build, b, Select(b.cfg, pending, inFlight), time, maxDepth, timestamp)
  {
    SelectedIsSorted(b.cfg, pending, inFlight);
    SelectedSays(b, Select(b.cfg, pending, inFlight), time, maxDepth, timestamp);
  }

  lemma SelectedSays(b: Builder, events: seq<Event>, time: nat, maxDepth: nat, timestamp: nat)
    requires Sorted(events) && DistinctIds(events)
    ensures var r := PrepareSelected(b, events, time, maxDepth, timestamp);
            r.Ready? ==> SaysOf(r.build, b, events, time, maxDepth, timestamp)
  {
    if events != [] { PreparedSays(b, events, time, maxDepth, timestamp); }
  }
}
