/** How frames and commits end, in numbers a caller can see. */
module Outcomes {
  import opened Types
  import opened Order
  import opened StateApply
  import opened BuilderModel
  import opened ManagerModel
  import opened Lifecycle
  import opened Calls
  import opened LifecycleRuns
  import Effects

  // ---- Thresholds ----

  /** A quorum is more than two thirds of the validators, a rejection more than one third. */
  lemma ThresholdsAre(f: Frame, n: nat)
    ensures HasQuorum(f, n) <==> 3 * |set v | v in f.votes && f.votes[v].approve| > 2 * n
    ensures IsRejected(f, n) <==> 3 * |set v | v in f.votes && !f.votes[v].approve| > n
  {
  }

  /** With votes from no more than the known validators a frame cannot be both accepted and rejected; and with
      every validator's vote in it is one of the two, except when exactly two thirds approve. */
  lemma QuorumExcludesRejection(f: Frame, n: nat)
    requires |f.votes| <= n
    ensures var yes := |set v | v in f.votes && f.votes[v].approve|;
            && (HasQuorum(f, n) <==> 3 * yes > 2 * n)
            && (IsRejected(f, n) <==> 3 * (|f.votes| - yes) > n)
            && !(HasQuorum(f, n) && IsRejected(f, n))
            && (|f.votes| == n ==> (HasQuorum(f, n) || IsRejected(f, n) <==> 3 * yes != 2 * n))
  {
    ThresholdsAre(f, n);
    var yes, no := set v | v in f.votes && f.votes[v].approve, set v | v in f.votes && !f.votes[v].approve;
    assert yes + no == f.votes.Keys && yes !! no;
    assert |yes + no| == |yes| + |no|;
    assert |f.votes.Keys| == |f.votes|;
  }

  // ---- Commits ----

  /** The chain stands where it stood when the build was prepared. */
  predicate Unmoved(m: ChainMeta, s: Snapshot) {
    && m.chainRoot == s.chainRoot && m.depth == s.depth && m.foldTime == s.foldTime
    && s.lastAnchor == (match m.lastAnchor case Some(a) => Some(a.id) case None => None)
  }

  /** Applied, published and recorded; or applied only; or nothing. */
  ghost predicate StateAfter(b: Builder, n: Builder, r: Committed, applied: GlobalState, now: nat) {
    && n.cfg == b.cfg
    && n.gsm == (if r.Done? || r.error.StorageFailed? then applied else b.gsm)
    && n.published == (if r.Done? then applied else b.published)
    && n.lastFoldAt == (if r.Done? then Some(now) else b.lastFoldAt)
    && (r.Refused? ==> n.reports == b.reports && n.meta == b.meta)
  }

  /** A leader's commit goes through exactly when the chain has not moved and the store takes it; readers
      see the new state then and not before. */
  lemma CommitEnds(b: Builder, p: PendingBuild, storageOk: bool, now: nat)
    ensures var (n, r) := Commit(b, p, storageOk, now);
            && (r.Done? <==> Unmoved(b.meta, p.snapshot) && storageOk)
            && (r == Refused(SnapshotMismatch(p.snapshot.depth, b.meta.depth)) <==> !Unmoved(b.meta, p.snapshot))
            && (r == Refused(StorageFailed) <==> Unmoved(b.meta, p.snapshot) && !storageOk)
            && StateAfter(b, n, r, ApplyCommitted(b.gsm, p.folded, p.newDepth).state, now)
            && (r.Done? ==> r.verdicts == ApplyCommitted(b.gsm, p.folded, p.newDepth).verdicts)
  {
  }

  /** A follower's goes through exactly when all events are there, they lead to the declared root if there is
      one, and the store takes them. */
  lemma FollowEnds(b: Builder, events: seq<Event>, a: Anchor, storageOk: bool, now: nat)
    ensures var (n, r) := Follow(b, events, a, storageOk, now);
            var applied := ApplyCommitted(b.gsm, events, a.depth + 1);
            var complete := |events| == |a.eventIds|;
            var asDeclared := a.roots.Some? ==> StateRoot(applied.state) == a.roots.value.state;
            && (r.Done? <==> complete && asDeclared && storageOk)
            && (r == Refused(MissingEvents(|a.eventIds|, |events|)) <==> !complete)
            && (a.roots.Some? ==>
                  (complete && !asDeclared <==>
                   r == Refused(RootMismatch(StateRoot(applied.state), a.roots.value.state))))
            && (r == Refused(StorageFailed) <==> complete && asDeclared && !storageOk)
            && StateAfter(b, n, r, applied.state, now)
            && (r.Done? ==> r.verdicts == applied.verdicts)
  {
  }

  /** What a leader prepared, a follower that has the events accepts exactly when it arrives at the same trees and,
      if there is one, at the same cells. */
  lemma FollowerAcceptsIff(l: Builder, f: Builder, events: seq<Event>, time: nat, toDepth: nat, timestamp: nat,
                           storageOk: bool, now: nat)
    ensures var mine, its := ApplyCommitted(l.gsm, events, 0).state, ApplyCommitted(f.gsm, events, toDepth + 1).state;
            Follow(f, events, PrepareFrom(l, events, time, toDepth, timestamp).anchor, storageOk, now).1.Done? <==>
            storageOk && its.subnets == mine.subnets && (its.subnets == {} || its.cells == mine.cells)
  {
    FollowEnds(f, events, PrepareFrom(l, events, time, toDepth, timestamp).anchor, storageOk, now);
    Effects.RootTellsApart(ApplyCommitted(f.gsm, events, toDepth + 1).state, ApplyCommitted(l.gsm, events, 0).state);
  }

  // ---- Reports ----

  /** What the sender of an event is told: stale with the object, failed with the reason, or applied; of genesis
      events always applied. */
  predicate ReportFits(r: Report, cf: Digest, e: Event, v: Verdict) {
    && r.cf == cf
    && (r.StaleIn? <==> !e.kind.Genesis? && v.Conflicted?) && (r.StaleIn? ==> r.oid == v.oid)
    && (r.FailedIn? <==> !e.kind.Genesis? && v.ExecFailed?)
    && (r.FailedIn? && e.result.Some? ==> r.reason == e.result.value.message)
  }

  /** Exactly the given events are reported anew, each by its verdict. */
  ghost predicate ReportsFit(before: map<EventId, Report>, after: map<EventId, Report>, cf: Digest, events: seq<Event>,
                             verdicts: map<EventId, Verdict>) {
    && (forall e | e in events ::
          e.id in verdicts && e.id in after && ReportFits(after[e.id], cf, e, verdicts[e.id]))
    && (forall id | forall e | e in events :: e.id != id ::
          (id in after <==> id in before) && (id in after ==> after[id] == before[id]))
  }

  lemma IngestFits(before: map<EventId, Report>, cf: Digest, events: seq<Event>, verdicts: map<EventId, Verdict>)
    requires DistinctIds(events) && forall e | e in events :: e.id in verdicts
    ensures ReportsFit(before, Ingest(before, cf, events, verdicts), cf, events, verdicts)
  {
    var after := Ingest(before, cf, events, verdicts);
    forall e | e in events ensures e.id in after && ReportFits(after[e.id], cf, e, verdicts[e.id]) {
      IngestAt(before, cf, events, verdicts, e.id);
    }
    forall id | forall e | e in events :: e.id != id
      ensures (id in after <==> id in before) && (id in after ==> after[id] == before[id])
    {
      IngestAt(before, cf, events, verdicts, id);
    }
  }

  lemma AllJudged(g: GlobalState, events: seq<Event>, depth: nat)
    requires DistinctIds(events)
    ensures forall e | e in events :: e.id in ApplyCommitted(g, events, depth).verdicts
  {
    var s := SortByVlc(events);
    SameElements(s, events);
    DistinctKept(events, s);
    var g0 := g.(lastDepth := if g.lastDepth < depth then depth else g.lastDepth);
    forall e | e in events ensures e.id in ApplyCommitted(g, events, depth).verdicts {
      assert e in s;
      var i :| 0 <= i < |s| && s[i] == e;
      Effects.VerdictAt(g0, s, depth, i);
    }
  }

  /** After a commit that went through, every event of the build is reported by its verdict. */
  lemma CommitReports(b: Builder, p: PendingBuild, storageOk: bool, now: nat)
    requires WellBuilt(p) && Commit(b, p, storageOk, now).1.Done?
    ensures var (n, r) := Commit(b, p, storageOk, now);
            ReportsFit(b.reports, n.reports, p.anchor.id, p.folded, r.verdicts)
  {
    AllJudged(b.gsm, p.folded, p.newDepth);
    IngestFits(b.reports, p.anchor.id, p.folded, ApplyCommitted(b.gsm, p.folded, p.newDepth).verdicts);
  }

  lemma FollowReports(b: Builder, events: seq<Event>, a: Anchor, storageOk: bool, now: nat)
    requires DistinctIds(events) && Follow(b, events, a, storageOk, now).1.Done?
    ensures var (n, r) := Follow(b, events, a, storageOk, now);
            ReportsFit(b.reports, n.reports, a.id, events, r.verdicts)
  {
    AllJudged(b.gsm, events, a.depth + 1);
    FollowIngests(b, events, a, storageOk, now);
    IngestFits(b.reports, a.id, events, ApplyCommitted(b.gsm, events, a.depth + 1).verdicts);
  }

  lemma FollowIngests(b: Builder, events: seq<Event>, a: Anchor, storageOk: bool, now: nat)
    requires Follow(b, events, a, storageOk, now).1.Done?
    ensures var (n, r) := Follow(b, events, a, storageOk, now);
            && r.verdicts == ApplyCommitted(b.gsm, events, a.depth + 1).verdicts
            && n.reports == Ingest(b.reports, a.id, events, r.verdicts)
  {
  }

  // ---- The end of a frame ----

  /** The frame's anchor can be applied: as leader while the chain has not moved, else as follower. */
  predicate WillApply(m: Manager, id: Digest, storageOk: bool)
    requires id in m.frames
  {
    var a := m.frames[id].anchor;
    if id in m.builds
    then if Unmoved(m.builder.meta, m.builds[id].snapshot) then storageOk
         else Applicable(m.builder, m.builds[id].folded, a, storageOk)
    else Applicable(m.builder, StoredFor(m, id), a, storageOk)
  }

  lemma AppliesIff(m: Manager, id: Digest, storageOk: bool, now: nat)
    requires id in m.frames
    ensures ApplyFrame(m, id, m.frames[id].anchor, storageOk, now).1.None? <==> WillApply(m, id, storageOk)
  {
    var a := m.frames[id].anchor;
    if id in m.builds {
      var p := m.builds[id];
      CommitEnds(m.builder, p, storageOk, now);
      FollowsIff(Commit(m.builder, p, storageOk, now).0, p.folded, a, storageOk, now);
    } else {
      FollowsIff(m.builder, StoredFor(m, id), a, storageOk, now);
    }
  }

  /** The outcome for a frame that awaits votes: more than two thirds approving and applicable, more than two thirds
      and not, else more than a third rejecting, else past its timeout, else still pending. */
  lemma ClassifyEnds(m: Manager, id: Digest, storageOk: bool, now: nat)
    requires id in m.frames
    ensures var f, n, o := m.frames[id], m.cfg.validatorCount, Classify(m, id, storageOk, now).1;
            var yes := |set v | v in f.votes && f.votes[v].approve|;
            var no := |set v | v in f.votes && !f.votes[v].approve|;
            && (o == Finalizes(id) <==> 3 * yes > 2 * n && WillApply(m, id, storageOk))
            && (o.ApplyFails? <==> 3 * yes > 2 * n && !WillApply(m, id, storageOk))
            && (o == Rejects(id) <==> 3 * yes <= 2 * n && 3 * no > n)
            && (o == TimesOut(id) <==> 3 * yes <= 2 * n && 3 * no <= n && now > f.createdAt + m.cfg.timeoutMs)
            && (o == StillPending <==> 3 * yes <= 2 * n && 3 * no <= n && now <= f.createdAt + m.cfg.timeoutMs)
  {
    ThresholdsAre(m.frames[id], m.cfg.validatorCount);
    AppliesIff(m, id, storageOk, now);
    FinishShape(m, id, storageOk, now);
  }

  /** A failure names the frame, its anchor, the path it failed on and the cause, and is remembered until a frame
      is final or the record is cleaned up. */
  lemma FailureSays(m: Manager, id: Digest, storageOk: bool, now: nat)
    requires id in m.frames && Classify(m, id, storageOk, now).1.ApplyFails?
    ensures var (n, o) := Classify(m, id, storageOk, now);
            var x, a := o.failure, m.frames[id].anchor;
            && n.lastFailure == Some(x) && x.frame == id && x.anchor == a.id && x.depth == a.depth
            && (x.role.Follower? <==> id !in m.builds)
            && (x.role.LeaderCommitError? <==> id in m.builds && Unmoved(m.builder.meta, m.builds[id].snapshot))
            && (x.role.LeaderCommitError? ==> x.error == StorageFailed)
            && (x.role.LeaderFollowerFallback? <==> id in m.builds && !Unmoved(m.builder.meta, m.builds[id].snapshot))
            && (!x.role.LeaderCommitError? ==>
                  var events := if id in m.builds then m.builds[id].folded else StoredFor(m, id);
                  Refused(x.error) == Follow(m.builder, events, a, storageOk, now).1)
  {
    ClassifyCases(m, id, storageOk, now);
    var a := m.frames[id].anchor;
    if id in m.builds {
      CommitEnds(m.builder, m.builds[id], storageOk, now);
      var (mid, r) := Commit(m.builder, m.builds[id], storageOk, now);
      if mid.gsm == m.builder.gsm { SameRefusal(m.builder, mid, m.builds[id].folded, a, storageOk, now); }
    }
  }

  /** Which error a follower reports depends on the state alone. */
  lemma SameRefusal(b: Builder, c: Builder, events: seq<Event>, a: Anchor, storageOk: bool, now: nat)
    requires b.gsm == c.gsm
    ensures Follow(b, events, a, storageOk, now).1 == Follow(c, events, a, storageOk, now).1
  {
  }

  /** A frame that becomes final clears the record of a failure; one that is rejected, times out or stays pending
      leaves it. */
  lemma FailureStays(m: Manager, id: Digest, storageOk: bool, now: nat)
    ensures var (n, o) := Classify(m, id, storageOk, now);
            && (o.Finalizes? ==> n.lastFailure == None)
            && (!o.Finalizes? && !o.ApplyFails? ==> n.lastFailure == m.lastFailure && n.persisted == m.persisted)
  {
    if id in m.frames { FinishClears(m, id, ApplyFrame(m, id, m.frames[id].anchor, storageOk, now)); }
  }

  lemma FinishClears(m: Manager, id: Digest, applied: (Builder, Option<Failure>))
    requires id in m.frames
    ensures var (n, o) := Concluded(m, id, applied);
            (o.Finalizes? && n.lastFailure == None) || (o.ApplyFails? && n.lastFailure == Some(o.failure))
  {
  }

  predicate QuietEnd(o: Outcome) { !o.Finalizes? && !o.ApplyFails? }

  lemma ReachKeepsFailure(m: Manager, t: Turn)
    ensures var c := Reach(m, t).0; c.lastFailure.Some? ==> c.lastFailure == m.lastFailure
  {
    if t.call.Create? {
      var (s, f) := TryCreate(m, t.call.p);
      if f.Some? { CastKeepsFailure(s, f.value.id); }
    } else if t.call.Receive? {
      CastKeepsFailure(ReceiveFrame(StoreEvents(m, t.call.d, t.call.f), t.call.f), t.call.f.id);
    }
  }

  lemma CastKeepsFailure(m: Manager, id: Digest)
    ensures Cast(m, id).0.lastFailure == m.lastFailure
  {
  }

  /** The record after a call: what the call failed with, or what it was if the call made no frame final and did
      not fail. */
  ghost predicate Records(before: Option<Failure>, o: Outcome, after: Option<Failure>) {
    after.Some? ==> o == ApplyFails(after.value) || (QuietEnd(o) && before == after)
  }

  lemma DoRecords(m: Manager, t: Turn)
    requires Inv(m) && Sensible(m, t)
    ensures Records(m.lastFailure, Do(m, t).1, Do(m, t).0.lastFailure)
  {
    DoIsReach(m, t);
    ReachKeepsFailure(m, t);
    ReachIs(m, t);
    var (c, about) := Reach(m, t);
    if about.Some? {
      FailureStays(c, about.value, t.storageOk, t.now);
      if Do(m, t).1.ApplyFails? { FailureSays(c, about.value, t.storageOk, t.now); }
    }
  }

  /** The outcomes of the calls of a run. */
  ghost predicate EndsOf(ms: seq<Manager>, turns: seq<Turn>, ends: seq<Outcome>) {
    && |ms| == |turns| + 1 && |ends| == |turns|
    && forall i {:trigger ends[i]} | 0 <= i < |turns| :: ends[i] == Do(ms[i], turns[i]).1
  }

  /** Call `k` failed with `x`, and no call after it, before `i`, made a frame final or failed. */
  ghost predicate LastFailed(ends: seq<Outcome>, i: nat, x: Failure, k: int)
    requires i <= |ends|
  {
    0 <= k < i && ends[k] == ApplyFails(x) && forall h | k < h < i :: QuietEnd(ends[h])
  }

  ghost predicate RecordsAt(ms: seq<Manager>, ends: seq<Outcome>, i: nat)
    requires |ms| == |ends| + 1 && i < |ends|
  {
    Records(ms[i].lastFailure, ends[i], ms[i + 1].lastFailure)
  }

  lemma RecordStep(ms: seq<Manager>, turns: seq<Turn>, made: seq<seq<Anchor>>, ends: seq<Outcome>, i: nat)
    requires Trace(ms, turns, made) && Inv(ms[0]) && EndsOf(ms, turns, ends) && i < |turns|
    ensures RecordsAt(ms, ends, i)
  {
    RunKeeps(ms, turns, made, i);
    assert StepAt(ms, turns, made, i);
    DoRecords(ms[i], turns[i]);
    assert ends[i] == Do(ms[i], turns[i]).1;
  }

  lemma {:induction false} RecordIsLast(ms: seq<Manager>, ends: seq<Outcome>, i: nat)
    requires |ms| == |ends| + 1 && i <= |ends| && ms[0].lastFailure == None
    requires forall h {:trigger RecordsAt(ms, ends, h)} | 0 <= h < |ends| :: RecordsAt(ms, ends, h)
    ensures ms[i].lastFailure.Some? ==> exists k :: LastFailed(ends, i, ms[i].lastFailure.value, k)
    decreases i
  {
    if i > 0 && ms[i].lastFailure.Some? {
      var x := ms[i].lastFailure.value;
      assert RecordsAt(ms, ends, i - 1);
      if QuietEnd(ends[i - 1]) {
        RecordIsLast(ms, ends, i - 1);
        var k :| LastFailed(ends, i - 1, x, k);
        assert LastFailed(ends, i, x, k);
      } else {
        assert LastFailed(ends, i, x, i - 1);
      }
    }
  }

  /** Over every run, a failure on record is that of the last call that failed, with no frame final since. */
  lemma FailureIsLast(ms: seq<Manager>, turns: seq<Turn>, made: seq<seq<Anchor>>, ends: seq<Outcome>, i: nat)
    requires Trace(ms, turns, made) && Inv(ms[0]) && ms[0].lastFailure == None
    requires EndsOf(ms, turns, ends) && i <= |turns|
    ensures ms[i].lastFailure.Some? ==> exists k :: LastFailed(ends, i, ms[i].lastFailure.value, k)
  {
    forall h {:trigger RecordsAt(ms, ends, h)} | 0 <= h < |ends| ensures RecordsAt(ms, ends, h) {
      RecordStep(ms, turns, made, ends, h);
    }
    RecordIsLast(ms, ends, i);
  }

  // ---- Cleaning up ----

  /** The frame awaits votes and its time is over. */
  predicate Late(m: Manager, id: Digest, now: nat) {
    id in m.frames && now > m.frames[id].createdAt + m.cfg.timeoutMs
  }

  /** Cleaning up takes the late frames away with everything kept for them, and nothing else. */
  lemma CleanupTakesLate(m: Manager, now: nat, id: Digest)
    ensures var n := Cleanup(m, now);
            && (id in n.frames <==> id in m.frames && !Late(m, id, now))
            && (id in n.frames ==> n.frames[id] == m.frames[id])
            && (id in n.builds <==> id in m.builds && !Late(m, id, now))
            && (id in n.builds ==> n.builds[id] == m.builds[id])
            && (id in n.frameEvents <==> id in m.frameEvents && !Late(m, id, now))
            && (id in n.frameEvents ==> n.frameEvents[id] == m.frameEvents[id])
            && (id in n.buffered <==> id in m.buffered && !Late(m, id, now))
            && (id in n.buffered ==> n.buffered[id] == m.buffered[id])
            && n.lastFailure == (if m.lastFailure.Some? && Late(m, m.lastFailure.value.frame, now) then None
                                 else m.lastFailure)
            && n.finalized == m.finalized && n.persisted == m.persisted && n.builder == m.builder
  {
  }

  // ---- Trimming ----

  lemma {:induction false} DroppedAre(fs: seq<Frame>, persisted: set<Digest>, excess: nat, a: Digest)
    ensures a in Dropped(fs, persisted, excess) <==>
            exists i :: DropsAt(fs, persisted, excess, i) && fs[i].anchor.id == a
    decreases |fs|
  {
    if fs != [] {
      var drops := excess > 0 && fs[0].anchor.id in persisted;
      var less := if drops then excess - 1 else excess;
      DroppedAre(fs[1..], persisted, less, a);
      forall i | 0 <= i < |fs| - 1
        ensures DropsAt(fs[1..], persisted, less, i) <==> DropsAt(fs, persisted, excess, i + 1)
      {
        assert fs[1..][..i] == fs[..i + 1][1..];
      }
      if drops && fs[0].anchor.id == a { assert DropsAt(fs, persisted, excess, 0); }
      if i :| DropsAt(fs[1..], persisted, less, i) && fs[1..][i].anchor.id == a {
        assert DropsAt(fs, persisted, excess, i + 1);
      }
      if i :| DropsAt(fs, persisted, excess, i) && fs[i].anchor.id == a {
        if i > 0 { assert DropsAt(fs[1..], persisted, less, i - 1); }
      }
    }
  }

  /** The frame at place `i` is persisted and one of the first `excess` that are. */
  ghost predicate DropsAt(fs: seq<Frame>, persisted: set<Digest>, excess: nat, i: int) {
    0 <= i < |fs| && fs[i].anchor.id in persisted && PersistedCount(fs[..i], persisted) < excess
  }

  /** Trimming forgets that an anchor is persisted exactly when it drops a frame of it. */
  lemma TrimmedIdsAre(fs: seq<Frame>, persisted: set<Digest>, a: Digest)
    ensures a in TrimmedIds(fs, persisted) <==>
            && a in persisted
            && !(|fs| > 1000 && exists i :: DropsAt(fs, persisted, |fs| - 1000, i) && fs[i].anchor.id == a)
  {
    if |fs| > MAX_FINALIZED { DroppedAre(fs, persisted, |fs| - MAX_FINALIZED, a); }
  }
}
