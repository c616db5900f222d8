/** A leader and a follower that start equal stay equal. */
module Agreement {
  import opened Types
  import opened Order
  import opened StateApply
  import opened DagModel
  import opened BuilderModel

  /** The builders agree on state, snapshot, reports and chain; configuration, overlay and
      wall-clock are each node's own. */
  ghost predicate Aligned(l: Builder, f: Builder) {
    l.gsm == f.gsm && l.published == f.published && l.reports == f.reports && l.meta == f.meta
  }

  /** One round: what the leader prepares from, the order its buckets come out in, the follower's
      DAG, and the clocks. */
  datatype Round = Round(heartbeat: bool, interval: nat, pending: seq<Event>, maxDepth: nat, time: nat,
                         inFlight: set<EventId>, timestamp: nat, listing: seq<Event>, replica: DagState,
                         leaderNow: nat, followerNow: nat)

  function PrepareRound(l: Builder, r: Round): Prepared {
    if r.heartbeat then PrepareHeartbeat(l, r.pending, r.maxDepth, r.time, r.interval, r.inFlight, r.timestamp)
    else Prepare(l, r.pending, r.maxDepth, r.time, r.inFlight, r.timestamp)
  }

  ghost predicate Holds(d: DagState, events: seq<Event>) {
    forall e | e in events :: e.id in d.events && d.events[e.id].event == e
  }

  /** The leader gets a build, lists its buckets in some order, and the follower has the events. */
  ghost predicate GoodRound(l: Builder, r: Round) {
    && DistinctIds(r.pending)
    && PrepareRound(l, r).Ready?
    && multiset(r.listing) == multiset(PrepareRound(l, r).build.folded)
    && Holds(r.replica, PrepareRound(l, r).build.folded)
  }

  function Lead(l: Builder, r: Round): (Builder, Committed)
    requires PrepareRound(l, r).Ready?
  {
    CommitListed(l, PrepareRound(l, r).build, r.listing, true, r.leaderNow)
  }

  function FollowRound(l: Builder, f: Builder, r: Round): (Builder, Committed)
    requires PrepareRound(l, r).Ready?
  {
    var a := PrepareRound(l, r).build.anchor;
    Follow(f, CollectEvents(r.replica, a.eventIds), a, true, r.followerNow)
  }

  // ---- One round ----

  /** The root does not depend on the depth recorded beside the state. */
  lemma {:induction false} DepthLeavesRoot(g: GlobalState, h: GlobalState, events: seq<Event>, d1: nat, d2: nat)
    requires g.cells == h.cells && g.subnets == h.subnets
    ensures var x, y := ApplyAll(g, events, d1), ApplyAll(h, events, d2);
            x.state.cells == y.state.cells && x.state.subnets == y.state.subnets && x.verdicts == y.verdicts
    decreases |events|
  {
    if events != [] { DepthLeavesRoot(g, h, events[..|events| - 1], d1, d2); }
  }

  lemma {:induction false} CollectsAll(d: DagState, events: seq<Event>)
    requires Holds(d, events)
    ensures CollectEvents(d, IdsOf(events)) == events
    decreases |events|
  {
    if events != [] {
      var k := |events| - 1;
      CollectsAll(d, events[..k]);
      assert IdsOf(events)[..k] == IdsOf(events[..k]);
      assert events[k] in events && events == events[..k] + [events[k]];
    }
  }

  lemma PreparedIsSelected(l: Builder, r: Round)
    requires DistinctIds(r.pending) && PrepareRound(l, r).Ready?
    ensures var p := PrepareRound(l, r).build;
            && p == PrepareFrom(l, Select(l.cfg, r.pending, r.inFlight), r.time, r.maxDepth, r.timestamp)
            && DistinctIds(p.folded)
  {
    SelectedAreDistinct(l.cfg, r.pending, r.inFlight);
  }

  /** What the leader prepares from a list and commits, a follower accepts from the same list. */
  lemma BuildAgrees(l: Builder, f: Builder, p: PendingBuild, events: seq<Event>, time: nat, toDepth: nat,
                    timestamp: nat, leaderNow: nat, followerNow: nat)
    requires Aligned(l, f) && p == PrepareFrom(l, events, time, toDepth, timestamp)
    ensures var lead, follow := Commit(l, p, true, leaderNow), Follow(f, events, p.anchor, true, followerNow);
            && lead.1.Done? && follow.1 == lead.1 && Aligned(lead.0, follow.0)
            && lead.0.meta.count == l.meta.count + 1
  {
    RootAsDeclared(l.gsm, events, toDepth + 1);
    assert VerifySnapshot(l.meta, p.snapshot);
    assert ApplyCommitted(l.gsm, events, p.newDepth) == ApplyCommitted(f.gsm, events, p.anchor.depth + 1);
  }

  lemma RoundAgrees(l: Builder, f: Builder, r: Round)
    requires Aligned(l, f) && GoodRound(l, r)
    ensures Lead(l, r).1.Done? && FollowRound(l, f, r).1 == Lead(l, r).1
    ensures Aligned(Lead(l, r).0, FollowRound(l, f, r).0)
    ensures Lead(l, r).0.meta.count == l.meta.count + 1
  {
    PreparedIsSelected(l, r);
    var p := PrepareRound(l, r).build;
    CommitForgetsOrder(l, p, r.listing, true, r.leaderNow);
    CollectsAll(r.replica, p.folded);
    BuildAgrees(l, f, p, p.folded, r.time, r.maxDepth, r.timestamp, r.leaderNow, r.followerNow);
  }

  lemma RootAsDeclared(g: GlobalState, events: seq<Event>, depth: nat)
    ensures StateRoot(ApplyCommitted(g, events, depth).state) == StateRoot(ApplyCommitted(g, events, 0).state)
  {
    DepthLeavesRoot(g.(lastDepth := if g.lastDepth < depth then depth else g.lastDepth),
                    g, SortByVlc(events), depth, 0);
  }

  // ---- Whole runs ----

  ghost predicate RoundStep(l: Builder, f: Builder, r: Round, l': Builder, f': Builder) {
    GoodRound(l, r) && l' == Lead(l, r).0 && f' == FollowRound(l, f, r).0
  }

  /** The states a leader and a follower pass through. */
  ghost predicate Trace(ls: seq<Builder>, fs: seq<Builder>, rounds: seq<Round>) {
    && |ls| == |fs| == |rounds| + 1
    && forall i {:trigger RoundAt(ls, fs, rounds, i)} | 0 <= i < |rounds| :: RoundAt(ls, fs, rounds, i)
  }

  ghost predicate RoundAt(ls: seq<Builder>, fs: seq<Builder>, rounds: seq<Round>, i: nat)
    requires |ls| == |fs| == |rounds| + 1 && i < |rounds|
  {
    RoundStep(ls[i], fs[i], rounds[i], ls[i + 1], fs[i + 1])
  }

  lemma StepAgrees(l: Builder, f: Builder, r: Round, l': Builder, f': Builder)
    requires Aligned(l, f) && RoundStep(l, f, r, l', f')
    ensures Aligned(l', f') && FollowRound(l, f, r).1.Done? && l'.meta.count == l.meta.count + 1
  {
    RoundAgrees(l, f, r);
  }

  lemma TraceAligned(ls: seq<Builder>, fs: seq<Builder>, rounds: seq<Round>, i: nat)
    requires Trace(ls, fs, rounds) && i < |rounds| && Aligned(ls[i], fs[i])
    ensures Aligned(ls[i + 1], fs[i + 1]) && ls[i + 1].meta.count == ls[i].meta.count + 1
  {
    assert RoundAt(ls, fs, rounds, i);
    StepAgrees(ls[i], fs[i], rounds[i], ls[i + 1], fs[i + 1]);
  }

  lemma TraceAccepted(ls: seq<Builder>, fs: seq<Builder>, rounds: seq<Round>, i: nat)
    requires Trace(ls, fs, rounds) && i < |rounds| && Aligned(ls[i], fs[i])
    ensures Accepted(ls[i], fs[i], rounds[i])
  {
    assert RoundAt(ls, fs, rounds, i);
    StepAgrees(ls[i], fs[i], rounds[i], ls[i + 1], fs[i + 1]);
  }

  /** The leader's build was accepted by the follower: no missing event, no root mismatch. */
  ghost predicate Accepted(l: Builder, f: Builder, r: Round) {
    PrepareRound(l, r).Ready? && FollowRound(l, f, r).1.Done?
  }

  lemma {:induction false} AlignedAt(ls: seq<Builder>, fs: seq<Builder>, rounds: seq<Round>, i: nat)
    requires Trace(ls, fs, rounds) && Aligned(ls[0], fs[0]) && i <= |rounds|
    ensures Aligned(ls[i], fs[i]) && ls[i].meta.count == ls[0].meta.count + i
    decreases i
  {
    if i > 0 {
      AlignedAt(ls, fs, rounds, i - 1);
      TraceAligned(ls, fs, rounds, i - 1);
    }
  }

  /** No follower ever misses an event or a root, and at every point both sides have the same
      state, chain and reports, however the leader's buckets were ordered. */
  lemma LeaderAndFollowerAgree(ls: seq<Builder>, fs: seq<Builder>, rounds: seq<Round>)
    requires Trace(ls, fs, rounds) && Aligned(ls[0], fs[0])
    ensures forall i | 0 <= i <= |rounds| :: Aligned(ls[i], fs[i]) && ls[i].meta.count == ls[0].meta.count + i
    ensures forall i | 0 <= i < |rounds| :: Accepted(ls[i], fs[i], rounds[i])
  {
    forall i | 0 <= i <= |rounds| ensures Aligned(ls[i], fs[i]) && ls[i].meta.count == ls[0].meta.count + i {
      AlignedAt(ls, fs, rounds, i);
    }
    forall i | 0 <= i < |rounds| ensures Accepted(ls[i], fs[i], rounds[i]) {
      AlignedAt(ls, fs, rounds, i);
      TraceAccepted(ls, fs, rounds, i);
    }
  }

  // ---- The chain root ----

  /** The chain root is a left fold over the anchors. */
  function ChainRoot(start: Digest, anchors: seq<Anchor>): Digest {
    if anchors == [] then start
    else ChainOf(ChainRoot(start, anchors[..|anchors| - 1]), anchors[|anchors| - 1].Hash())
  }

  function SyncAll(m: ChainMeta, anchors: seq<Anchor>): ChainMeta {
    if anchors == [] then m else Synchronized(SyncAll(m, anchors[..|anchors| - 1]), anchors[|anchors| - 1])
  }

  /** Each anchor carries the chain root it was applied on. */
  ghost predicate Chained(m: ChainMeta, anchors: seq<Anchor>) {
    forall i | 0 <= i < |anchors| ::
      anchors[i].roots.Some? && anchors[i].roots.value.chain == SyncAll(m, anchors[..i]).chainRoot
  }

  lemma {:induction false} ChainIsFold(m: ChainMeta, anchors: seq<Anchor>)
    requires Chained(m, anchors)
    ensures SyncAll(m, anchors).chainRoot == ChainRoot(m.chainRoot, anchors)
    ensures SyncAll(m, anchors).count == m.count + |anchors|
    decreases |anchors|
  {
    if anchors != [] {
      var k := |anchors| - 1;
      ChainedPrefix(m, anchors, k);
      ChainIsFold(m, anchors[..k]);
      assert anchors[k].roots.value.chain == SyncAll(m, anchors[..k]).chainRoot;
    }
  }

  lemma ChainedPrefix(m: ChainMeta, anchors: seq<Anchor>, k: nat)
    requires Chained(m, anchors) && k <= |anchors|
    ensures Chained(m, anchors[..k])
  {
    forall i | 0 <= i < k
      ensures anchors[..k][i].roots.Some?
              && anchors[..k][i].roots.value.chain == SyncAll(m, anchors[..k][..i]).chainRoot
    {
      assert anchors[..k][..i] == anchors[..i];
    }
  }

  function ChainLength(d: Digest): nat { if d.ChainOf? then 1 + ChainLength(d.before) else 0 }

  lemma {:induction false} ChainGrows(start: Digest, anchors: seq<Anchor>)
    ensures ChainLength(ChainRoot(start, anchors)) == ChainLength(start) + |anchors|
    decreases |anchors|
  {
    if anchors != [] { ChainGrows(start, anchors[..|anchors| - 1]); }
  }

  /** Anchors that carry the root they are applied on are all different. */
  lemma ChainedDistinct(m: ChainMeta, anchors: seq<Anchor>, i: nat, j: nat)
    requires Chained(m, anchors) && i < j < |anchors|
    ensures anchors[i] != anchors[j]
  {
    HeightAt(m, anchors, i);
    HeightAt(m, anchors, j);
  }

  lemma HeightAt(m: ChainMeta, anchors: seq<Anchor>, i: nat)
    requires Chained(m, anchors) && i < |anchors|
    ensures anchors[i].roots.Some? && ChainLength(anchors[i].roots.value.chain) == ChainLength(m.chainRoot) + i
  {
    ChainedPrefix(m, anchors, i);
    ChainIsFold(m, anchors[..i]);
    ChainGrows(m.chainRoot, anchors[..i]);
  }

  /** After anchors were committed the chain stands at the last of them. */
  lemma StandsAtLast(m: ChainMeta, anchors: seq<Anchor>)
    ensures var s := SyncAll(m, anchors);
            if anchors == [] then s == m
            else var a := anchors[|anchors| - 1];
                 s.lastAnchor == Some(a) && s.depth == a.depth + 1 && s.foldTime == a.time
  {
  }

  /** What the hash of an anchor covers; the list of events counts only through the id. */
  predicate Alike(a: Anchor, b: Anchor) {
    && a.id == b.id && a.depth == b.depth && a.previous == b.previous && a.roots == b.roots
    && a.time == b.time && a.timestamp == b.timestamp
  }

  lemma HashTellsApart(a: Anchor, b: Anchor)
    ensures a.Hash() == b.Hash() <==> Alike(a, b)
  {
  }

  /** The chain root tells histories apart: it is the same exactly for equally long ones that are alike place by
      place. */
  lemma {:induction false} ChainTellsApart(start: Digest, a: seq<Anchor>, b: seq<Anchor>)
    ensures ChainRoot(start, a) == ChainRoot(start, b) <==>
            |a| == |b| && forall i | 0 <= i < |a| :: Alike(a[i], b[i])
    decreases |a|
  {
    ChainGrows(start, a);
    ChainGrows(start, b);
    if a != [] && |a| == |b| {
      var k := |a| - 1;
      ChainTellsApart(start, a[..k], b[..k]);
      HashTellsApart(a[k], b[k]);
      if ChainRoot(start, a) == ChainRoot(start, b) {
        forall i | 0 <= i < |a| ensures Alike(a[i], b[i]) {
          if i < k { assert a[..k][i] == a[i] && b[..k][i] == b[i]; }
        }
      }
    }
  }

  /** Commits of any anchors go unnoticed by a snapshot exactly when they end with the anchor it was taken
      at, or one like it, and leave the chain root. */
  lemma SnapshotMissesIff(m: ChainMeta, anchors: seq<Anchor>)
    requires anchors != []
    ensures var a := anchors[|anchors| - 1];
            VerifySnapshot(SyncAll(m, anchors), TakeSnapshot(m)) <==>
            && m.lastAnchor.Some? && m.lastAnchor.value.id == a.id
            && m.depth == a.depth + 1 && m.foldTime == a.time && SyncAll(m, anchors).chainRoot == m.chainRoot
  {
    StandsAtLast(m, anchors);
  }

  /** A snapshot taken before a chain of commits is never mistaken for the state after it. */
  lemma SnapshotDetectsCommits(m: ChainMeta, anchors: seq<Anchor>)
    requires Chained(m, anchors)
    ensures VerifySnapshot(SyncAll(m, anchors), TakeSnapshot(m)) <==> anchors == []
  {
    ChainIsFold(m, anchors);
    ChainGrows(m.chainRoot, anchors);
  }
}
