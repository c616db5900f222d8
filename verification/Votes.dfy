/** Votes may arrive before the frame they are for; the vote table does not depend on when it came. */
module Votes {
  import opened Types
  import opened ManagerModel
  import opened Lifecycle
  import opened Calls
  import opened LifecycleRuns

  // ---- What each call has to do with one frame ----

  /** The call brings the frame `id` along. */
  predicate Delivers(call: Call, id: Digest) {
    (call.Receive? || call.ReceiveFinal?) && call.f.id == id
  }

  /** The votes a call brings for a frame that is known or still to come. */
  function Brings(call: Call, id: Digest): seq<Vote> {
    if call.VoteArrives? && call.v.frame == id then [call.v]
    else if call.ReceiveFinal? && call.f.id == id then call.values
    else []
  }

  /** On the arrival of a proposal the node votes itself; with a frame that is already final it does not. */
  function OwnVote(call: Call, id: Digest, self: ValidatorId): seq<Vote> {
    if call.Receive? then [Vote(self, id, true)] else []
  }

  lemma {:induction false} AddAllBoth(votes: map<ValidatorId, Vote>, a: seq<Vote>, b: seq<Vote>)
    ensures AddAllOnce(AddAllOnce(votes, a), b) == AddAllOnce(votes, a + b)
    decreases |b|
  {
    if b == [] {
      assert a + b == a;
    } else {
      AddAllBoth(votes, a, b[..|b| - 1]);
      assert (a + b)[..|a + b| - 1] == a + b[..|b| - 1];
    }
  }

  lemma AddOneIsOnce(votes: map<ValidatorId, Vote>, v: Vote)
    ensures AddAllOnce(votes, [v]) == AddOnce(votes, v)
  {
    assert [v][..0] == [];
  }

  lemma FinishParts(m: Manager, id: Digest, ok: bool, now: nat)
    requires id in m.frames
    ensures var n := Finish(m, id, ok, now).0;
            n.buffered == m.buffered && n.frames == m.frames - {id} && n.localId == m.localId
  {
  }

  /** Classifying any frame changes no vote and no buffer; at most it takes the frame away. */
  lemma ClassifyVotes(m: Manager, id: Digest, ok: bool, now: nat, c: Digest)
    ensures var n := Classify(m, id, ok, now).0;
            && n.buffered == m.buffered && n.localId == m.localId
            && (c in n.frames ==> c in m.frames && n.frames[c] == m.frames[c])
            && (c != id && c in m.frames ==> c in n.frames)
  {
    if id in m.frames { FinishParts(m, id, ok, now); }
  }

  lemma CastVotes(m: Manager, id: Digest)
    requires id in m.frames
    ensures var c := Cast(m, id).0;
            && c.buffered == m.buffered && c.frames.Keys == m.frames.Keys
            && c.frames[id].votes == AddAllOnce(m.frames[id].votes, [Vote(m.localId, id, true)])
            && (forall x | x in m.frames && x != id :: c.frames[x] == m.frames[x])
  {
    AddOneIsOnce(m.frames[id].votes, Vote(m.localId, id, true));
  }

  lemma CreateKeepsBuffer(m: Manager, t: Turn)
    requires t.call.Create?
    ensures Reach(m, t).0.buffered == m.buffered
  {
    var (s, f) := TryCreate(m, t.call.p);
    if f.Some? { CastVotes(s, f.value.id); }
  }

  lemma ArrivalKeepsBuffer(m: Manager, t: Turn, id: Digest)
    requires (t.call.Receive? || t.call.ReceiveFinal?) && t.call.f.id != id
    ensures Buffered(Reach(m, t).0, id) == Buffered(m, id)
  {
    if t.call.Receive? && !HasFrame(m, t.call.f.id) {
      CastVotes(ReceiveFrame(StoreEvents(m, t.call.d, t.call.f), t.call.f), t.call.f.id);
    }
  }

  /** Before the frame has come, its votes gather in the buffer. */
  lemma ReachBuffers(m: Manager, t: Turn, id: Digest)
    requires id !in m.frames && !Delivers(t.call, id)
    ensures Buffered(Reach(m, t).0, id) == Buffered(m, id) + Brings(t.call, id)
  {
    if t.call.Create? { CreateKeepsBuffer(m, t); }
    else if t.call.Receive? || t.call.ReceiveFinal? { ArrivalKeepsBuffer(m, t, id); }
  }

  /** When it comes, they join the votes it brings, and the node adds its own. */
  lemma ReachArrives(m: Manager, t: Turn, id: Digest)
    requires Delivers(t.call, id) && id !in m.frames && id !in FinalizedIds(m)
    ensures id in Reach(m, t).0.frames
    ensures Reach(m, t).0.frames[id].votes
            == AddAllOnce(t.call.f.votes, Buffered(m, id) + OwnVote(t.call, id, m.localId))
  {
    var f := t.call.f;
    var s := ReceiveFrame(StoreEvents(m, t.call.d, f), f);
    assert s.frames[id].votes == AddAllOnce(f.votes, Buffered(m, id));
    if t.call.Receive? {
      CastVotes(s, id);
      AddAllBoth(f.votes, Buffered(m, id), [Vote(m.localId, id, true)]);
    } else {
      assert Buffered(m, id) + [] == Buffered(m, id);
    }
  }

  lemma CreateLeaves(m: Manager, t: Turn, id: Digest)
    requires Inv(m) && Sensible(m, t) && id in m.frames && t.call.Create?
    ensures id in Reach(m, t).0.frames && Reach(m, t).0.frames[id] == m.frames[id]
  {
    var (s, f) := TryCreate(m, t.call.p);
    if f.Some? { CastVotes(s, f.value.id); }
  }

  lemma ReceiveLeaves(m: Manager, t: Turn, id: Digest)
    requires id in m.frames && t.call.Receive?
    ensures id in Reach(m, t).0.frames && Reach(m, t).0.frames[id] == m.frames[id]
  {
    if !HasFrame(m, t.call.f.id) {
      CastVotes(ReceiveFrame(StoreEvents(m, t.call.d, t.call.f), t.call.f), t.call.f.id);
    }
  }

  lemma VoteFills(m: Manager, t: Turn, id: Digest)
    requires id in m.frames && t.call.VoteArrives?
    ensures id in Reach(m, t).0.frames
    ensures Reach(m, t).0.frames[id].votes == AddAllOnce(m.frames[id].votes, Brings(t.call, id))
  {
    AddOneIsOnce(m.frames[id].votes, t.call.v);
  }

  lemma FinalFills(m: Manager, t: Turn, id: Digest)
    requires Inv(m) && id in m.frames && t.call.ReceiveFinal?
    ensures id in Reach(m, t).0.frames
    ensures Reach(m, t).0.frames[id].votes == AddAllOnce(m.frames[id].votes, Brings(t.call, id))
  {
  }

  /** From then on every vote fills a gap. */
  lemma ReachFills(m: Manager, t: Turn, id: Digest)
    requires Inv(m) && Sensible(m, t) && id in m.frames && id in Reach(m, t).0.frames
    ensures Reach(m, t).0.frames[id].votes == AddAllOnce(m.frames[id].votes, Brings(t.call, id))
  {
    if t.call.Create? { CreateLeaves(m, t, id); }
    else if t.call.Receive? { ReceiveLeaves(m, t, id); }
    else if t.call.VoteArrives? { VoteFills(m, t, id); }
    else if t.call.ReceiveFinal? { FinalFills(m, t, id); }
  }

  // ---- Runs ----

  /** What reaches the frame during the first `n` calls, the node's own vote at the arrival, call `k`. */
  function Stream(turns: seq<Turn>, id: Digest, self: ValidatorId, k: nat, n: nat): seq<Vote>
    requires n <= |turns|
  {
    if n == 0 then []
    else
      Stream(turns, id, self, k, n - 1)
      + (if n - 1 == k then OwnVote(turns[n - 1].call, id, self) else Brings(turns[n - 1].call, id))
  }

  /** The frame first comes with call `k`, and is undecided up to call `n`. */
  ghost predicate ArrivesAt(ms: seq<Manager>, turns: seq<Turn>, f: Frame, k: nat, n: nat) {
    && k < n <= |turns| && |ms| == |turns| + 1
    && Delivers(turns[k].call, f.id) && turns[k].call.f == f
    && (forall i | 0 <= i < k :: !Delivers(turns[i].call, f.id))
    && (forall i | 0 <= i <= k :: f.id !in ms[i].frames)
    && (forall i | k < i <= n :: f.id in ms[i].frames)
    && Buffered(ms[0], f.id) == []
  }

  lemma {:induction false} SameSelf(ms: seq<Manager>, turns: seq<Turn>, made: seq<seq<Anchor>>, i: nat)
    requires Trace(ms, turns, made) && Inv(ms[0]) && i <= |turns|
    ensures ms[i].localId == ms[0].localId
    decreases i
  {
    if i > 0 {
      SameSelf(ms, turns, made, i - 1);
      RunKeeps(ms, turns, made, i - 1);
      assert StepAt(ms, turns, made, i - 1);
      StepSelf(ms[i - 1], turns[i - 1], ms[i], made[i - 1]);
    }
  }

  lemma StepSelf(m: Manager, t: Turn, r: Manager, made: seq<Anchor>)
    requires Inv(m) && StepOf(m, t, r, made)
    ensures r.localId == m.localId
  {
    DoIsReach(m, t);
    ReachIs(m, t);
    var (c, about) := Reach(m, t);
    if about.Some? { ClassifyVotes(c, about.value, t.storageOk, t.now, about.value); }
  }

  lemma StepBuffers(m: Manager, t: Turn, r: Manager, made: seq<Anchor>, id: Digest)
    requires StepOf(m, t, r, made) && id !in m.frames && !Delivers(t.call, id)
    ensures Buffered(r, id) == Buffered(m, id) + Brings(t.call, id)
  {
    DoIsReach(m, t);
    ReachBuffers(m, t, id);
    var (c, about) := Reach(m, t);
    if about.Some? { ClassifyVotes(c, about.value, t.storageOk, t.now, id); }
  }

  lemma StepArrives(m: Manager, t: Turn, r: Manager, made: seq<Anchor>, id: Digest)
    requires Inv(m) && StepOf(m, t, r, made) && Delivers(t.call, id) && id !in m.frames && id in r.frames
    ensures r.frames[id].votes == AddAllOnce(t.call.f.votes, Buffered(m, id) + OwnVote(t.call, id, m.localId))
  {
    DoIsReach(m, t);
    var (c, about) := Reach(m, t);
    if about.Some? { ClassifyVotes(c, about.value, t.storageOk, t.now, id); }
    ReachArrives(m, t, id);
  }

  lemma StepFills(m: Manager, t: Turn, r: Manager, made: seq<Anchor>, id: Digest)
    requires Inv(m) && StepOf(m, t, r, made) && id in m.frames && id in r.frames
    ensures r.frames[id].votes == AddAllOnce(m.frames[id].votes, Brings(t.call, id))
  {
    DoIsReach(m, t);
    var (c, about) := Reach(m, t);
    if about.Some? { ClassifyVotes(c, about.value, t.storageOk, t.now, id); }
    ReachFills(m, t, id);
  }

  lemma BufferStep(ms: seq<Manager>, turns: seq<Turn>, made: seq<seq<Anchor>>, id: Digest, i: nat)
    requires Trace(ms, turns, made) && i < |turns| && id !in ms[i].frames && !Delivers(turns[i].call, id)
    ensures Buffered(ms[i + 1], id) == Buffered(ms[i], id) + Brings(turns[i].call, id)
  {
    assert StepAt(ms, turns, made, i);
    StepBuffers(ms[i], turns[i], ms[i + 1], made[i], id);
  }

  lemma {:induction false} BufferIsStream(ms: seq<Manager>, turns: seq<Turn>, made: seq<seq<Anchor>>, f: Frame,
                                          k: nat, n: nat, i: nat)
    requires Trace(ms, turns, made) && ArrivesAt(ms, turns, f, k, n) && i <= k
    ensures Buffered(ms[i], f.id) == Stream(turns, f.id, ms[0].localId, k, i)
    decreases i
  {
    if i > 0 {
      BufferIsStream(ms, turns, made, f, k, n, i - 1);
      BufferStep(ms, turns, made, f.id, i - 1);
    }
  }

  /** While a frame is undecided, its table is the votes it brought plus, for every other validator,
      the first vote of the stream: votes that came before it, the node's own at its arrival, votes and
      finalized copies that came after, whatever else the engine did in between. */
  lemma {:induction false} TableIsStream(ms: seq<Manager>, turns: seq<Turn>, made: seq<seq<Anchor>>, f: Frame,
                                         k: nat, n: nat)
    requires Trace(ms, turns, made) && Inv(ms[0]) && ArrivesAt(ms, turns, f, k, n)
    ensures ms[n].frames[f.id].votes == AddAllOnce(f.votes, Stream(turns, f.id, ms[0].localId, k, n))
    decreases n
  {
    assert StepAt(ms, turns, made, n - 1);
    RunKeeps(ms, turns, made, n - 1);
    if n - 1 == k {
      BufferIsStream(ms, turns, made, f, k, n, k);
      SameSelf(ms, turns, made, k);
      StepArrives(ms[k], turns[k], ms[n], made[k], f.id);
    } else {
      TableIsStream(ms, turns, made, f, k, n - 1);
      StepFills(ms[n - 1], turns[n - 1], ms[n], made[n - 1], f.id);
      AddAllBoth(f.votes, Stream(turns, f.id, ms[0].localId, k, n - 1), Brings(turns[n - 1].call, f.id));
    }
  }

  /** Where in the stream the node's own vote stands does not matter, as long as nobody else votes in
      its name. */
  lemma OwnVoteMayMove(votes: map<ValidatorId, Vote>, a: seq<Vote>, own: Vote, b: seq<Vote>)
    requires forall v | v in b :: v.voter != own.voter
    ensures AddAllOnce(votes, a + [own] + b) == AddAllOnce(votes, a + b + [own])
  {
    AddAllBoth(votes, a + [own], b);
    AddAllBoth(votes, a, [own]);
    AddAllBoth(votes, a + b, [own]);
    AddAllBoth(votes, a, b);
    MovesPast(AddAllOnce(votes, a), own, b);
  }

  lemma {:induction false} MovesPast(votes: map<ValidatorId, Vote>, own: Vote, b: seq<Vote>)
    requires forall v | v in b :: v.voter != own.voter
    ensures AddAllOnce(AddAllOnce(votes, [own]), b) == AddAllOnce(AddAllOnce(votes, b), [own])
    decreases |b|
  {
    AddOneIsOnce(votes, own);
    AddOneIsOnce(AddAllOnce(votes, b), own);
    if b != [] {
      var k := |b| - 1;
      MovesPast(votes, own, b[..k]);
      AddOneIsOnce(AddAllOnce(votes, b[..k]), own);
      assert b[k] in b;
    }
  }

  /** What reaches the frame, without the node's own vote at its arrival. */
  function Others(turns: seq<Turn>, id: Digest, k: nat, n: nat): seq<Vote>
    requires n <= |turns|
  {
    if n == 0 then []
    else Others(turns, id, k, n - 1) + (if n - 1 == k then [] else Brings(turns[n - 1].call, id))
  }

  lemma {:induction false} StreamSplits(turns: seq<Turn>, id: Digest, self: ValidatorId, k: nat, n: nat)
    returns (a: seq<Vote>, b: seq<Vote>)
    requires k < n <= |turns|
    ensures Others(turns, id, k, n) == a + b
    ensures Stream(turns, id, self, k, n) == a + OwnVote(turns[k].call, id, self) + b
    decreases n
  {
    if n - 1 == k {
      StreamBefore(turns, id, self, k, k);
      a, b := Others(turns, id, k, k), [];
    } else {
      a, b := StreamSplits(turns, id, self, k, n - 1);
      b := b + Brings(turns[n - 1].call, id);
    }
  }

  lemma {:induction false} StreamBefore(turns: seq<Turn>, id: Digest, self: ValidatorId, k: nat, n: nat)
    requires n <= k && n <= |turns|
    ensures Stream(turns, id, self, k, n) == Others(turns, id, k, n)
    decreases n
  {
    if n > 0 { StreamBefore(turns, id, self, k, n - 1); }
  }

  /** The own vote may as well come last. */
  lemma OwnVoteLast(votes: map<ValidatorId, Vote>, turns: seq<Turn>, id: Digest, self: ValidatorId, k: nat, n: nat)
    requires k < n <= |turns| && (forall v | v in Others(turns, id, k, n) :: v.voter != self)
    ensures AddAllOnce(votes, Stream(turns, id, self, k, n))
            == AddAllOnce(votes, Others(turns, id, k, n) + OwnVote(turns[k].call, id, self))
  {
    var a, b := StreamSplits(turns, id, self, k, n);
    if turns[k].call.Receive? {
      OwnVoteMayMove(votes, a, Vote(self, id, true), b);
    } else {
      assert a + [] + b == a + b + [];
    }
  }

  /** Two runs that bring the same frame and the same votes of others for it, in the same order, give it
      the same table, wherever among those votes the frame falls, as long as nobody else votes in the
      node's name. */
  lemma PlaceOfFrameIsIrrelevant(ms: seq<Manager>, turns: seq<Turn>, made: seq<seq<Anchor>>, k: nat, n: nat,
                                 ms': seq<Manager>, turns': seq<Turn>, made': seq<seq<Anchor>>, k': nat, n': nat,
                                 f: Frame)
    requires Trace(ms, turns, made) && Inv(ms[0]) && ArrivesAt(ms, turns, f, k, n)
    requires Trace(ms', turns', made') && Inv(ms'[0]) && ArrivesAt(ms', turns', f, k', n')
    requires ms[0].localId == ms'[0].localId && turns[k].call.Receive? == turns'[k'].call.Receive?
    requires Others(turns, f.id, k, n) == Others(turns', f.id, k', n')
    requires forall v | v in Others(turns, f.id, k, n) :: v.voter != ms[0].localId
    ensures ms[n].frames[f.id].votes == ms'[n'].frames[f.id].votes
  {
    TableIsStream(ms, turns, made, f, k, n);
    TableIsStream(ms', turns', made', f, k', n');
    OwnVoteLast(f.votes, turns, f.id, ms[0].localId, k, n);
    OwnVoteLast(f.votes, turns', f.id, ms[0].localId, k', n');
  }

  // ---- Frames the node creates ----

  /** The frame is undecided from place `k` of the run to place `n`. */
  ghost predicate Pending(ms: seq<Manager>, id: Digest, k: nat, n: nat) {
    k <= n < |ms| && forall i | k <= i <= n :: id in ms[i].frames
  }

  /** Call `k` creates the frame, and it is undecided up to call `n`. */
  ghost predicate CreatedAt(ms: seq<Manager>, turns: seq<Turn>, id: Digest, k: nat, n: nat) {
    && k < n <= |turns| && |ms| == |turns| + 1
    && turns[k].call.Create? && id !in ms[k].frames
    && Pending(ms, id, k + 1, n)
  }

  /** What the calls from `k` up to `n` bring. */
  function Since(turns: seq<Turn>, id: Digest, k: nat, n: nat): seq<Vote>
    requires k <= n <= |turns|
  {
    if n == k then [] else Since(turns, id, k, n - 1) + Brings(turns[n - 1].call, id)
  }

  lemma ReachCreates(m: Manager, t: Turn, id: Digest)
    requires t.call.Create? && id !in m.frames && id in Reach(m, t).0.frames
    ensures Reach(m, t).0.frames[id].votes == AddAllOnce(map[], [Vote(m.localId, id, true)])
  {
    var (s, f) := TryCreate(m, t.call.p);
    if f.Some? { CastVotes(s, f.value.id); }
  }

  lemma StepCreates(m: Manager, t: Turn, r: Manager, made: seq<Anchor>, id: Digest)
    requires StepOf(m, t, r, made) && t.call.Create? && id !in m.frames && id in r.frames
    ensures r.frames[id].votes == AddAllOnce(map[], [Vote(m.localId, id, true)])
  {
    DoIsReach(m, t);
    var (c, about) := Reach(m, t);
    if about.Some? { ClassifyVotes(c, about.value, t.storageOk, t.now, id); }
    ReachCreates(m, t, id);
  }

  lemma CreateStep(ms: seq<Manager>, turns: seq<Turn>, made: seq<seq<Anchor>>, id: Digest, k: nat)
    requires Trace(ms, turns, made) && Inv(ms[0]) && k < |turns|
    requires turns[k].call.Create? && id !in ms[k].frames && id in ms[k + 1].frames
    ensures ms[k + 1].frames[id].votes == AddAllOnce(map[], [Vote(ms[0].localId, id, true)])
  {
    assert StepAt(ms, turns, made, k);
    SameSelf(ms, turns, made, k);
    StepCreates(ms[k], turns[k], ms[k + 1], made[k], id);
  }

  /** Call `i` fills gaps of the frame's table, and does nothing else to it. */
  ghost predicate FillsAt(ms: seq<Manager>, turns: seq<Turn>, id: Digest, i: nat) {
    && i < |turns| && i + 1 < |ms| && id in ms[i].frames && id in ms[i + 1].frames
    && ms[i + 1].frames[id].votes == AddAllOnce(ms[i].frames[id].votes, Brings(turns[i].call, id))
  }

  lemma FillStep(ms: seq<Manager>, turns: seq<Turn>, made: seq<seq<Anchor>>, id: Digest, i: nat)
    requires Trace(ms, turns, made) && Inv(ms[0]) && i < |turns| && id in ms[i].frames && id in ms[i + 1].frames
    ensures FillsAt(ms, turns, id, i)
  {
    assert StepAt(ms, turns, made, i);
    RunKeeps(ms, turns, made, i);
    StepFills(ms[i], turns[i], ms[i + 1], made[i], id);
  }

  ghost predicate Fills(ms: seq<Manager>, turns: seq<Turn>, id: Digest, k: nat, n: nat) {
    forall i {:trigger FillsAt(ms, turns, id, i)} | k <= i < n :: FillsAt(ms, turns, id, i)
  }

  lemma PendingFills(ms: seq<Manager>, turns: seq<Turn>, made: seq<seq<Anchor>>, id: Digest, k: nat, n: nat)
    requires Trace(ms, turns, made) && Inv(ms[0]) && n <= |turns| && Pending(ms, id, k, n)
    ensures Fills(ms, turns, id, k, n)
  {
    forall i {:trigger FillsAt(ms, turns, id, i)} | k <= i < n ensures FillsAt(ms, turns, id, i) {
      FillStep(ms, turns, made, id, i);
    }
  }

  lemma MoreSince(votes: map<ValidatorId, Vote>, turns: seq<Turn>, id: Digest, k: nat, n: nat)
    requires k < n <= |turns|
    ensures AddAllOnce(AddAllOnce(votes, Since(turns, id, k, n - 1)), Brings(turns[n - 1].call, id))
            == AddAllOnce(votes, Since(turns, id, k, n))
  {
    AddAllBoth(votes, Since(turns, id, k, n - 1), Brings(turns[n - 1].call, id));
  }

  lemma {:induction false} FilledSince(ms: seq<Manager>, turns: seq<Turn>, id: Digest, k: nat, n: nat)
    requires |ms| == |turns| + 1 && n <= |turns| && Pending(ms, id, k, n) && Fills(ms, turns, id, k, n)
    ensures ms[n].frames[id].votes == AddAllOnce(ms[k].frames[id].votes, Since(turns, id, k, n))
    decreases n
  {
    if k < n {
      FilledSince(ms, turns, id, k, n - 1);
      assert FillsAt(ms, turns, id, n - 1);
      MoreSince(ms[k].frames[id].votes, turns, id, k, n);
    }
  }

  /** A frame of the node's own starts with the node's vote alone, and from then on every vote fills a
      gap; votes that came before it are not replayed. */
  lemma OwnTableIsStream(ms: seq<Manager>, turns: seq<Turn>, made: seq<seq<Anchor>>, id: Digest, k: nat, n: nat)
    requires Trace(ms, turns, made) && Inv(ms[0]) && CreatedAt(ms, turns, id, k, n)
    ensures ms[n].frames[id].votes
            == AddAllOnce(map[], [Vote(ms[0].localId, id, true)] + Since(turns, id, k + 1, n))
  {
    CreateStep(ms, turns, made, id, k);
    PendingFills(ms, turns, made, id, k + 1, n);
    FilledSince(ms, turns, id, k + 1, n);
    AddAllBoth(map[], [Vote(ms[0].localId, id, true)], Since(turns, id, k + 1, n));
  }

  // ---- Counting ----

  /** What that table is, voter by voter. */
  lemma {:induction false} FirstVoteCounts(votes: map<ValidatorId, Vote>, more: seq<Vote>, x: ValidatorId)
    ensures var t := AddAllOnce(votes, more);
            && (x in votes ==> x in t && t[x] == votes[x])
            && (x !in votes ==>
                  && (x in t <==> exists i :: 0 <= i < |more| && more[i].voter == x)
                  && (x in t ==> exists i :: 0 <= i < |more| && more[i] == t[x] && t[x].voter == x
                                             && forall j | 0 <= j < i :: more[j].voter != x))
    decreases |more|
  {
    if more != [] {
      var k := |more| - 1;
      FirstVoteCounts(votes, more[..k], x);
      var t0, t := AddAllOnce(votes, more[..k]), AddAllOnce(votes, more);
      if x !in votes {
        if x in t0 {
          var i :| && 0 <= i < k && more[..k][i] == t0[x] && t0[x].voter == x
                   && forall j | 0 <= j < i :: more[..k][j].voter != x;
          assert more[i] == t[x];
          forall j | 0 <= j < i ensures more[j].voter != x { assert more[..k][j] == more[j]; }
        } else {
          forall j | 0 <= j < k ensures more[j].voter != x { assert more[..k][j] == more[j]; }
        }
      }
    }
  }
}
