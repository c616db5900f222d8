/** Whether a frame whose votes decide it is judged at once. */
module Judged {
  import opened Types
  import opened DagModel
  import opened ManagerModel
  import opened Lifecycle
  import opened Calls
  import opened LifecycleRuns
  import opened Outcomes
  import Votes

  /** Neither more than two thirds approve nor more than a third reject. */
  ghost predicate Undecided(f: Frame, n: nat) {
    && 3 * |set v | v in f.votes && f.votes[v].approve| <= 2 * n
    && 3 * |set v | v in f.votes && !f.votes[v].approve| <= n
  }

  ghost predicate AllUndecided(m: Manager) {
    forall id | id in m.frames :: Undecided(m.frames[id], m.cfg.validatorCount)
  }

  /** The frame with the votes it brings and those that waited for it. */
  function Arrived(m: Manager, f: Frame): Frame { f.(votes := AddAllOnce(f.votes, Buffered(m, f.id))) }

  /** A frame the node does not have comes as a proposal, and a vote in the node's own name is among those it
      brings or those that waited. */
  ghost predicate OwnVoteIsThere(m: Manager, t: Turn) {
    && t.call.Receive? && !HasFrame(m, t.call.f.id)
    && (m.localId in t.call.f.votes || exists v | v in Buffered(m, t.call.f.id) :: v.voter == m.localId)
  }

  /** Such a frame, with votes that decide it. */
  ghost predicate Overlooked(m: Manager, t: Turn) {
    OwnVoteIsThere(m, t) && !Undecided(Arrived(m, t.call.f), m.cfg.validatorCount)
  }

  lemma OwnVoteIs(m: Manager, f: Frame)
    ensures m.localId in Arrived(m, f).votes <==>
            m.localId in f.votes || exists v | v in Buffered(m, f.id) :: v.voter == m.localId
  {
    var more := Buffered(m, f.id);
    Votes.FirstVoteCounts(f.votes, more, m.localId);
    if v :| v in more && v.voter == m.localId { var i :| 0 <= i < |more| && more[i] == v; }
  }

  // ---- One call ----

  /** The frame whose votes a call may change. */
  function Touched(t: Turn, about: Option<Digest>): Option<Digest> {
    if t.call.Receive? then Some(t.call.f.id) else about
  }

  lemma OthersAsBefore(m: Manager, t: Turn, x: Digest)
    requires Inv(m) && Sensible(m, t)
    requires x in Reach(m, t).0.frames && Touched(t, Reach(m, t).1) != Some(x)
    ensures x in m.frames && Reach(m, t).0.frames[x] == m.frames[x]
  {
    if t.call.Create? { CreateOthers(m, t, x); }
    else if t.call.Receive? { ReceiveOthers(m, t, x); }
    else { RestOthers(m, t, x); }
  }

  lemma CreateOthers(m: Manager, t: Turn, x: Digest)
    requires t.call.Create? && Sensible(m, t) && x in Reach(m, t).0.frames && Reach(m, t).1 != Some(x)
    ensures x in m.frames && Reach(m, t).0.frames[x] == m.frames[x]
  {
    var (s, f) := TryCreate(m, t.call.p);
    if f.Some? { CastOthers(s, f.value.id, x); }
  }

  lemma ReceiveOthers(m: Manager, t: Turn, x: Digest)
    requires t.call.Receive? && x in Reach(m, t).0.frames && t.call.f.id != x
    ensures x in m.frames && Reach(m, t).0.frames[x] == m.frames[x]
  {
    if !HasFrame(m, t.call.f.id) {
      CastOthers(ReceiveFrame(StoreEvents(m, t.call.d, t.call.f), t.call.f), t.call.f.id, x);
    }
  }

  lemma RestOthers(m: Manager, t: Turn, x: Digest)
    requires !t.call.Create? && !t.call.Receive? && x in Reach(m, t).0.frames && Reach(m, t).1 != Some(x)
    ensures x in m.frames && Reach(m, t).0.frames[x] == m.frames[x]
  {
  }

  lemma CastOthers(s: Manager, id: Digest, x: Digest)
    ensures var c := Cast(s, id).0;
            (x in c.frames <==> x in s.frames) && (x != id && x in s.frames ==> c.frames[x] == s.frames[x])
    ensures id in s.frames && s.localId !in s.frames[id].votes ==> Cast(s, id).1 == Some(id)
  {
  }

  /** A proposal that arrives is judged unless the node's own vote is there already. */
  lemma ArrivalIsJudged(m: Manager, t: Turn)
    requires t.call.Receive? && !HasFrame(m, t.call.f.id)
    ensures var (c, about) := Reach(m, t);
            && t.call.f.id in c.frames
            && (about == None <==> OwnVoteIsThere(m, t)) && (about.Some? ==> about.value == t.call.f.id)
            && (about == None ==> c.frames[t.call.f.id] == Arrived(m, t.call.f))
  {
    OwnVoteIs(m, t.call.f);
    var s := ReceiveFrame(StoreEvents(m, t.call.d, t.call.f), t.call.f);
    assert s.frames[t.call.f.id] == Arrived(m, t.call.f);
  }

  lemma KnownIsLeft(m: Manager, t: Turn)
    requires t.call.Receive? && HasFrame(m, t.call.f.id)
    ensures Reach(m, t) == (m, None)
  {
  }

  lemma StaysIsUndecided(c: Manager, id: Digest, storageOk: bool, now: nat)
    requires id in c.frames
    ensures var n := Classify(c, id, storageOk, now).0;
            && n.cfg == c.cfg
            && (forall x | x in n.frames :: x in c.frames && n.frames[x] == c.frames[x])
            && (forall x | x in c.frames && x != id :: x in n.frames)
            && (id in n.frames ==> Undecided(c.frames[id], c.cfg.validatorCount))
  {
    ClassifyEnds(c, id, storageOk, now);
    FinishShape(c, id, storageOk, now);
    FinishKeepsConfig(c, id, storageOk, now);
  }

  lemma FinishKeepsConfig(c: Manager, id: Digest, storageOk: bool, now: nat)
    requires id in c.frames
    ensures Finish(c, id, storageOk, now).0.cfg == c.cfg
  {
  }

  lemma ReachUndecided(m: Manager, t: Turn, c: Manager, about: Option<Digest>)
    requires Inv(m) && Sensible(m, t) && AllUndecided(m) && Reach(m, t) == (c, about)
    ensures forall x | x in c.frames && about != Some(x) && !(Overlooked(m, t) && x == t.call.f.id) ::
              Undecided(c.frames[x], m.cfg.validatorCount)
    ensures Overlooked(m, t) ==>
              about == None && t.call.f.id in c.frames && !Undecided(c.frames[t.call.f.id], m.cfg.validatorCount)
  {
    if t.call.Receive? {
      if HasFrame(m, t.call.f.id) { KnownIsLeft(m, t); } else { ArrivalIsJudged(m, t); }
    }
    forall x | x in c.frames && about != Some(x) && !(Overlooked(m, t) && x == t.call.f.id)
      ensures Undecided(c.frames[x], m.cfg.validatorCount)
    {
      if Touched(t, about) != Some(x) { OthersAsBefore(m, t, x); }
    }
  }

  /** After a call every pending frame is undecided, exactly unless the call brought a proposal whose votes decide
      it and among which the node's own already was. */
  lemma JudgedIff(m: Manager, t: Turn)
    requires Inv(m) && Sensible(m, t) && AllUndecided(m)
    ensures AllUndecided(Do(m, t).0) <==> !Overlooked(m, t)
    ensures Overlooked(m, t) ==> Do(m, t).1.StillPending?
  {
    DoIsReach(m, t);
    ReachIs(m, t);
    var (c, about) := Reach(m, t);
    ReachUndecided(m, t, c, about);
    if about.Some? { StaysIsUndecided(c, about.value, t.storageOk, t.now); }
  }

  /** A lone validator that gets its own frame back as a proposal, its vote in it: the frame has its quorum and
      stays pending. */
  lemma CanBeOverlooked(m: Manager, d: DagState, f: Frame, now: nat)
    requires Empty(m) && m.buffered == map[] && m.cfg.validatorCount == 1
    requires f.votes == map[m.localId := Vote(m.localId, f.id, true)]
    ensures Overlooked(m, Turn(Receive(d, f), true, now)) && HasQuorum(f, 1)
    ensures f.id in Do(m, Turn(Receive(d, f), true, now)).0.frames
  {
    assert (set v | v in f.votes && f.votes[v].approve) == {m.localId};
    assert AddAllOnce(f.votes, []) == f.votes;
  }

  // ---- Runs ----

  ghost predicate NoneOverlooked(ms: seq<Manager>, turns: seq<Turn>, i: nat)
    requires |ms| == |turns| + 1 && i <= |turns|
  {
    forall k | 0 <= k < i :: !Overlooked(ms[k], turns[k])
  }

  ghost predicate AlwaysUndecided(ms: seq<Manager>, i: nat)
    requires i < |ms|
  {
    forall k | 0 <= k <= i :: AllUndecided(ms[k])
  }

  lemma JudgedAt(ms: seq<Manager>, turns: seq<Turn>, made: seq<seq<Anchor>>, i: nat)
    requires Trace(ms, turns, made) && Inv(ms[0]) && i < |turns| && AllUndecided(ms[i])
    ensures AllUndecided(ms[i + 1]) <==> !Overlooked(ms[i], turns[i])
  {
    RunKeeps(ms, turns, made, i);
    assert StepAt(ms, turns, made, i);
    JudgedIff(ms[i], turns[i]);
  }

  /** Over a run, no pending frame is ever decided by its votes exactly when no call brings such a proposal. */
  lemma {:induction false} AlwaysJudgedIff(ms: seq<Manager>, turns: seq<Turn>, made: seq<seq<Anchor>>, i: nat)
    requires Trace(ms, turns, made) && Inv(ms[0]) && AllUndecided(ms[0]) && i <= |turns|
    ensures AlwaysUndecided(ms, i) <==> NoneOverlooked(ms, turns, i)
    decreases i
  {
    if i > 0 {
      AlwaysJudgedIff(ms, turns, made, i - 1);
      if AlwaysUndecided(ms, i - 1) { JudgedAt(ms, turns, made, i - 1); }
      else { assert !NoneOverlooked(ms, turns, i - 1); }
    }
  }
}
