/** The consensus manager, changed in place. */
module ConsensusManagerClass {
  import opened Types
  import opened DagModel
  import opened Router
  import opened BuilderModel
  import opened ManagerModel
  import opened AnchorBuilderClass

  lemma MinusOneMore<V>(m: map<Digest, V>, done: set<Digest>, id: Digest)
    ensures (m - done) - {id} == m - (done + {id})
  {
  }

  class ConsensusManager {
    const config: Config
    const localId: ValidatorId
    const anchorBuilder: AnchorBuilder
    var pendingCfs: map<Digest, Frame>
    var pendingBuilds: map<Digest, PendingBuild>
    var pendingCfEvents: map<Digest, seq<Event>>
    var bufferedVotes: map<Digest, seq<Vote>>
    var finalizedCfs: seq<Frame>
    var persistedAnchorIds: set<Digest>
    var lastApplyFailure: Option<Failure>

    function View(): Manager
      reads this, anchorBuilder
    {
      Manager(config, localId, anchorBuilder.View(), pendingCfs, pendingBuilds, pendingCfEvents, bufferedVotes,
              finalizedCfs, persistedAnchorIds, lastApplyFailure)
    }

    /** Open builds are as the builder prepared them. */
    ghost predicate Valid()
      reads this
    {
      forall id | id in pendingBuilds :: WellBuilt(pendingBuilds[id])
    }

    constructor (config: Config, localId: ValidatorId, builder: AnchorBuilder)
      ensures Valid() && anchorBuilder == builder
      ensures View() == Manager(config, localId, builder.View(), map[], map[], map[], map[], [], {}, None)
    {
      this.config, this.localId, anchorBuilder := config, localId, builder;
      pendingCfs, pendingBuilds, pendingCfEvents, bufferedVotes := map[], map[], map[], map[];
      finalizedCfs, persistedAnchorIds, lastApplyFailure := [], {}, None;
    }

    // ---- Creating a frame ----

    method CollectInFlightEventIds() returns (ids: set<EventId>)
      ensures ids == InFlight(View())
      ensures forall e :: e in ids <==>
                || (exists id :: id in pendingBuilds && e in pendingBuilds[id].anchor.eventIds)
                || (exists id, x :: id in pendingCfEvents && x in pendingCfEvents[id] && x.id == e)
    {
      ids := {};
      var left := pendingBuilds.Keys;
      while left != {}
        invariant left <= pendingBuilds.Keys
        invariant forall e :: e in ids <==>
                    exists id :: id in pendingBuilds.Keys - left && e in pendingBuilds[id].anchor.eventIds
        decreases left
      {
        var id :| id in left;
        left := left - {id};
        ids := ids + IdSet(pendingBuilds[id].anchor.eventIds);
      }
      ghost var built := ids;
      left := pendingCfEvents.Keys;
      while left != {}
        invariant left <= pendingCfEvents.Keys
        invariant forall e :: e in ids <==>
                    || e in built
                    || exists id, x :: id in pendingCfEvents.Keys - left && x in pendingCfEvents[id] && x.id == e
        decreases left
      {
        var id :| id in left;
        left := left - {id};
        IdsAre(pendingCfEvents[id]);
        ids := ids + IdSet(IdsOf(pendingCfEvents[id]));
      }
    }

    method FinalizePendingBuild(b: PendingBuild, round: nat, timestamp: nat) returns (f: Frame)
      requires Valid() && WellBuilt(b)
      modifies this`pendingBuilds, this`pendingCfs
      ensures Valid() && f == NewFrame(old(View()), b.anchor, round, timestamp)
      ensures pendingBuilds == old(pendingBuilds)[f.id := b] && pendingCfs == old(pendingCfs)[f.id := f]
    {
      var id := FrameIdOf(round, b.anchor.id, localId, timestamp);
      f := Frame(id, round, b.anchor, localId, Proposed, map[], timestamp);
      pendingBuilds := pendingBuilds[f.id := b];
      pendingCfs := pendingCfs[f.id := f];
    }

    /** The frame does not depend on the order in which the pending set is listed. */
    method TryCreateCf(d: DagState, time: nat, round: nat, timestamp: nat) returns (f: Option<Frame>)
      requires Valid() && d.Consistent()
      modifies this`pendingBuilds, this`pendingCfs
      ensures Valid()
      ensures forall listing | Lists(d, listing) ::
                (View(), f) == TryCreate(old(View()), Proposal(false, 0, listing, d.maxDepth, time, round, timestamp))
    {
      if pendingBuilds != map[] { return None; }
      var inFlight := CollectInFlightEventIds();
      var prepared := anchorBuilder.PrepareBuild(d, time, inFlight, timestamp);
      if prepared.NotReady? { return None; }
      var frame := FinalizePendingBuild(prepared.build, round, timestamp);
      f := Some(frame);
    }

    method TryCreateCfHeartbeat(d: DagState, time: nat, interval: nat, round: nat, timestamp: nat)
      returns (f: Option<Frame>)
      requires Valid() && d.Consistent()
      modifies this`pendingBuilds, this`pendingCfs
      ensures Valid()
      ensures forall listing | Lists(d, listing) ::
                (View(), f) ==
                TryCreate(old(View()), Proposal(true, interval, listing, d.maxDepth, time, round, timestamp))
    {
      if pendingBuilds != map[] { return None; }
      var inFlight := CollectInFlightEventIds();
      var prepared := anchorBuilder.PrepareBuildHeartbeat(d, time, interval, inFlight, timestamp);
      if prepared.NotReady? { return None; }
      var frame := FinalizePendingBuild(prepared.build, round, timestamp);
      f := Some(frame);
    }

    // ---- Receiving frames and votes ----

    method ApplyCfStateChanges(d: DagState, f: Frame)
      modifies this`pendingCfEvents
      ensures View() == StoreEvents(old(View()), d, f)
    {
      var events := [];
      var ids := f.anchor.eventIds;
      for i := 0 to |ids|
        invariant events == CollectEvents(d, ids[..i])
      {
        assert ids[..i + 1][..i] == ids[..i];
        if ids[i] in d.events { events := events + [d.events[ids[i]].event]; }
      }
      assert ids[..|ids|] == ids;
      pendingCfEvents := pendingCfEvents[f.id := events];
    }

    method ReceiveCf(f: Frame)
      modifies this`pendingCfs, this`bufferedVotes
      ensures View() == ReceiveFrame(old(View()), f)
    {
      if f.id in pendingCfs { return; }
      var votes := f.votes;
      if f.id in bufferedVotes {
        var waiting := bufferedVotes[f.id];
        for i := 0 to |waiting|
          invariant votes == AddAllOnce(f.votes, waiting[..i])
        {
          assert waiting[..i + 1][..i] == waiting[..i];
          if waiting[i].voter !in votes { votes := votes[waiting[i].voter := waiting[i]]; }
        }
        assert waiting[..|waiting|] == waiting;
        bufferedVotes := bufferedVotes - {f.id};
      }
      pendingCfs := pendingCfs[f.id := f.(votes := votes)];
    }

    method VoteForCf(id: Digest, approve: bool) returns (v: Option<Vote>)
      modifies this`pendingCfs
      ensures (View(), v) == CastVote(old(View()), id, approve)
    {
      if id !in pendingCfs || localId in pendingCfs[id].votes { return None; }
      var vote := Vote(localId, id, approve);
      var f := pendingCfs[id];
      pendingCfs := pendingCfs[id := f.(votes := f.votes[localId := vote])];
      v := Some(vote);
    }

    method ReceiveVote(v: Vote, storageOk: bool, now: nat) returns (o: Outcome)
      requires Valid()
      modifies this, anchorBuilder
      ensures Valid() && (View(), o) == ManagerModel.ReceiveVote(old(View()), v, storageOk, now)
    {
      if v.frame !in pendingCfs {
        var waiting := if v.frame in bufferedVotes then bufferedVotes[v.frame] else [];
        bufferedVotes := bufferedVotes[v.frame := waiting + [v]];
        return StillPending;
      }
      var f := pendingCfs[v.frame];
      if v.voter in f.votes { return StillPending; }
      pendingCfs := pendingCfs[v.frame := f.(votes := f.votes[v.voter := v])];
      o := ClassifyFinalization(v.frame, storageOk, now);
    }

    /** A table is read in no particular order; `values` is the order it was read in. */
    method AddMissingVotes(f: Frame) returns (ghost values: seq<Vote>)
      requires f.id in pendingCfs
      modifies this`pendingCfs
      ensures Enumerates(f.votes, values) && View() == MergeVotes(old(View()), f.id, values)
    {
      var existing := pendingCfs[f.id];
      var votes, left := existing.votes, f.votes.Keys;
      values := [];
      ghost var keys: seq<ValidatorId> := [];
      while left != {}
        invariant left <= f.votes.Keys
        invariant EnumeratesBy(f.votes - left, values, keys)
        invariant votes == AddAllOnce(existing.votes, values)
        decreases left
      {
        var k :| k in left;
        var v := f.votes[k];
        left := left - {k};
        assert (values + [v])[..|values|] == values;
        keys, values := keys + [k], values + [v];
        if v.voter !in votes { votes := votes[v.voter := v]; }
      }
      assert f.votes - left == f.votes;
      pendingCfs := pendingCfs[f.id := existing.(votes := votes)];
    }

    method ReceiveFinalizedCf(f: Frame, storageOk: bool, now: nat) returns (o: Outcome, ghost values: seq<Vote>)
      requires Valid()
      modifies this, anchorBuilder
      ensures Valid() && (View(), o) == ReceiveFinalized(old(View()), f, values, storageOk, now)
      ensures old(f.id in pendingCfs && f.id !in FinalizedIds(View())) ==> Enumerates(f.votes, values)
    {
      values := [];
      if f.id in FinalizedIds(View()) { return StillPending, values; }
      if f.id in pendingCfs { values := AddMissingVotes(f); } else { ReceiveCf(f); }
      o := ClassifyFinalization(f.id, storageOk, now);
    }

    // ---- The end of a frame ----

    /** Commits the build of a frame, or applies its stored events if there is none. */
    method ApplyFinal(ghost m: Manager, id: Digest, a: Anchor, build: Option<PendingBuild>, events: seq<Event>,
                      storageOk: bool, now: nat)
      returns (failure: Option<Failure>)
      requires m.builder == anchorBuilder.View()
      requires build == (if id in m.builds then Some(m.builds[id]) else None)
      requires build.Some? ==> WellBuilt(build.value)
      requires events == if id in m.frameEvents then m.frameEvents[id] else []
      modifies anchorBuilder
      ensures (anchorBuilder.View(), failure) == ApplyFrame(m, id, a, storageOk, now)
    {
      if build.None? {
        var followed := anchorBuilder.ApplyFollowerFinalizedCf(events, a, storageOk, now);
        return if followed.Done? then None else Some(Failure(id, a.id, a.depth, Follower, followed.error));
      }
      var committed := anchorBuilder.CommitBuild(build.value, storageOk, now);
      if committed.Done? { return None; }
      if !committed.error.SnapshotMismatch? {
        return Some(Failure(id, a.id, a.depth, LeaderCommitError, committed.error));
      }
      var all := AllEvents(build.value.routed, build.value.folded);
      FollowForgetsOrder(anchorBuilder.View(), build.value.folded, all, a, storageOk, now);
      var followed := anchorBuilder.ApplyFollowerFinalizedCf(all, a, storageOk, now);
      return if followed.Done? then None else Some(Failure(id, a.id, a.depth, LeaderFollowerFallback, followed.error));
    }

    method Remove(id: Digest)
      requires Valid()
      modifies this`pendingCfs, this`pendingBuilds, this`pendingCfEvents
      ensures Valid() && pendingCfs == old(pendingCfs) - {id} && pendingBuilds == old(pendingBuilds) - {id}
      ensures pendingCfEvents == old(pendingCfEvents) - {id}
    {
      pendingCfs := pendingCfs - {id};
      pendingBuilds := pendingBuilds - {id};
      pendingCfEvents := pendingCfEvents - {id};
    }

    method ClassifyFinalization(id: Digest, storageOk: bool, now: nat) returns (o: Outcome)
      requires Valid()
      modifies this, anchorBuilder
      ensures Valid() && (View(), o) == Classify(old(View()), id, storageOk, now)
    {
      if id !in pendingCfs { return StillPending; }
      var f := pendingCfs[id];
      if HasQuorum(f, config.validatorCount) {
        o := FinishFrame(id, f, storageOk, now);
      } else if IsRejected(f, config.validatorCount) {
        Remove(id);
        o := Rejects(id);
      } else if IsTimeout(f, config.timeoutMs, now) {
        Remove(id);
        o := TimesOut(id);
      } else {
        o := StillPending;
      }
    }

    method FinishFrame(id: Digest, f: Frame, storageOk: bool, now: nat) returns (o: Outcome)
      requires Valid() && id in pendingCfs && pendingCfs[id] == f
      modifies this, anchorBuilder
      ensures Valid() && (View(), o) == Finish(old(View()), id, storageOk, now)
    {
      ghost var m := View();
      var build := if id in pendingBuilds then Some(pendingBuilds[id]) else None;
      var events := if id in pendingCfEvents then pendingCfEvents[id] else [];
      Remove(id);
      var failure := ApplyFinal(m, id, f.anchor, build, events, storageOk, now);
      o := Conclude(m, id, f, failure);
    }

    method Conclude(ghost m: Manager, id: Digest, f: Frame, failure: Option<Failure>) returns (o: Outcome)
      requires id in m.frames && m.frames[id] == f && View() == Discard(m, id).(builder := anchorBuilder.View())
      modifies this`finalizedCfs, this`persistedAnchorIds, this`lastApplyFailure
      ensures (View(), o) == Concluded(m, id, (anchorBuilder.View(), failure))
    {
      if failure.Some? {
        lastApplyFailure := failure;
        return ApplyFails(failure.value);
      }
      Record(f);
      o := Finalizes(id);
    }

    method Record(f: Frame)
      modifies this`finalizedCfs, this`persistedAnchorIds, this`lastApplyFailure
      ensures lastApplyFailure == None
      ensures finalizedCfs == Trimmed(old(finalizedCfs) + [f.(status := FrameFinalized)], old(persistedAnchorIds))
      ensures persistedAnchorIds
              == TrimmedIds(old(finalizedCfs) + [f.(status := FrameFinalized)], old(persistedAnchorIds))
    {
      lastApplyFailure := None;
      finalizedCfs := finalizedCfs + [f.(status := FrameFinalized)];
      GcFinalizedCfs();
    }

    method GcFinalizedCfs()
      modifies this`finalizedCfs, this`persistedAnchorIds
      ensures finalizedCfs == Trimmed(old(finalizedCfs), old(persistedAnchorIds))
      ensures persistedAnchorIds == TrimmedIds(old(finalizedCfs), old(persistedAnchorIds))
    {
      if |finalizedCfs| <= MAX_FINALIZED { return; }
      var fs, excess := finalizedCfs, |finalizedCfs| - MAX_FINALIZED;
      var kept, removed, count := [], {}, 0;
      for i := 0 to |fs|
        invariant 0 <= count <= excess && persistedAnchorIds == old(persistedAnchorIds)
        invariant Retain(fs, persistedAnchorIds, excess) == kept + Retain(fs[i..], persistedAnchorIds, excess - count)
        invariant Dropped(fs, persistedAnchorIds, excess)
                  == removed + Dropped(fs[i..], persistedAnchorIds, excess - count)
      {
        assert fs[i..][1..] == fs[i + 1..];
        if count < excess && fs[i].anchor.id in persistedAnchorIds {
          removed, count := removed + {fs[i].anchor.id}, count + 1;
        } else {
          kept := kept + [fs[i]];
        }
      }
      finalizedCfs := kept;
      persistedAnchorIds := persistedAnchorIds - removed;
    }

    method MarkAnchorPersisted(anchor: Digest)
      modifies this`persistedAnchorIds
      ensures View() == old(View()).(persisted := old(persistedAnchorIds) + {anchor})
    {
      persistedAnchorIds := persistedAnchorIds + {anchor};
    }

    method RemoveAll(ids: set<Digest>)
      requires Valid()
      modifies this`pendingCfs, this`pendingBuilds, this`pendingCfEvents, this`bufferedVotes
      ensures Valid() && pendingCfs == old(pendingCfs) - ids && pendingBuilds == old(pendingBuilds) - ids
      ensures pendingCfEvents == old(pendingCfEvents) - ids && bufferedVotes == old(bufferedVotes) - ids
    {
      var left := ids;
      ghost var done: set<Digest> := {};
      while left != {}
        invariant done + left == ids && Valid()
        invariant pendingCfs == old(pendingCfs) - done && pendingBuilds == old(pendingBuilds) - done
        invariant pendingCfEvents == old(pendingCfEvents) - done && bufferedVotes == old(bufferedVotes) - done
        decreases left
      {
        var id :| id in left;
        MinusOneMore(old(pendingCfs), done, id);
        MinusOneMore(old(pendingBuilds), done, id);
        MinusOneMore(old(pendingCfEvents), done, id);
        MinusOneMore(old(bufferedVotes), done, id);
        left, done := left - {id}, done + {id};
        Remove(id);
        bufferedVotes := bufferedVotes - {id};
      }
      assert done == ids;
    }

    method CleanupTimeoutCfs(now: nat) returns (count: nat)
      requires Valid()
      modifies this`pendingCfs, this`pendingBuilds, this`pendingCfEvents, this`bufferedVotes, this`lastApplyFailure
      ensures Valid() && View() == Cleanup(old(View()), now)
      ensures count == |TimedOutIds(old(View()), now)|
    {
      var ids := set id | id in pendingCfs && IsTimeout(pendingCfs[id], config.timeoutMs, now);
      assert ids == TimedOutIds(View(), now);
      count := |ids|;
      RemoveAll(ids);
      if lastApplyFailure.Some? && lastApplyFailure.value.frame in ids { lastApplyFailure := None; }
    }
  }
}
