/** A run in which a frame becomes final twice, and the second time is not the newest of the
    finalized frames: it was trimmed, marked persisted once more, and received again. */
module Forgotten {
  import opened Types
  import opened DagModel
  import opened BuilderModel
  import opened ManagerModel
  import opened Lifecycle
  import opened Calls
  import opened LifecycleRuns

  /** The k-th of many frames without events and without roots, with the one vote it needs. */
  function Bare(k: nat): Frame {
    var id := AnchorIdOf([], k, Zero, 0);
    var frame := FrameIdOf(k, id, "self", 0);
    Frame(frame, k, Anchor(id, [], k, None, None, 0, 0), "self", Proposed, map["self" := Vote("self", frame, true)], 0)
  }

  function Final(k: nat): Frame { Bare(k).(status := FrameFinalized) }

  function Finals(from: nat, to: nat): (fs: seq<Frame>)
    requires from <= to
    ensures |fs| == to - from && forall i | 0 <= i < |fs| :: fs[i] == Final(from + i)
  {
    seq(to - from, i requires 0 <= i < to - from => Final(from + i))
  }

  function Arrival(k: nat): Turn {
    Turn(ReceiveFinal(EMPTY, Bare(k), [Vote("self", Bare(k).id, true)]), true, 0)
  }

  /** A lone validator with nothing under way. */
  ghost predicate Idle(m: Manager, fs: seq<Frame>, persisted: set<Digest>) {
    && m.frames == map[] && m.builds == map[] && m.frameEvents == map[] && m.buffered == map[]
    && m.cfg.validatorCount == 1 && m.localId == "self" && m.finalized == fs && m.persisted == persisted
  }

  lemma OwnVoteDecides(f: Frame)
    requires f.votes == map["self" := Vote("self", f.id, true)]
    ensures HasQuorum(f, 1)
  {
    assert (set v | v in f.votes && f.votes[v].approve) == {"self"};
  }

  lemma BareReach(m: Manager, k: nat, fs: seq<Frame>, persisted: set<Digest>)
    requires Idle(m, fs, persisted) && Bare(k).id !in FinalizedIds(m)
    ensures var (c, about) := Reach(m, Arrival(k));
            && about == Some(Bare(k).id) && c.builder == m.builder && c.builds == map[]
            && c.frames == map[Bare(k).id := Bare(k)] && c.frameEvents == map[Bare(k).id := []]
            && c.buffered == map[] && c.cfg == m.cfg && c.localId == m.localId
            && c.finalized == fs && c.persisted == persisted
  {
    var f := Bare(k);
    var s := ReceiveFrame(StoreEvents(m, EMPTY, f), f);
    assert AddAllOnce(f.votes, []) == f.votes;
    assert s.frames == map[f.id := f];
    assert s.buffered == map[];
  }

  lemma BareApplies(b: Builder, k: nat, now: nat)
    ensures Follow(b, [], Bare(k).anchor, true, now).1.Done?
  {
  }

  lemma BareFinal(m: Manager, k: nat, fs: seq<Frame>, persisted: set<Digest>)
    requires Idle(m, fs, persisted) && Bare(k).id !in FinalizedIds(m)
    ensures Sensible(m, Arrival(k)) && MakesFinal(m, Arrival(k), Bare(k).id)
    ensures Idle(Do(m, Arrival(k)).0, Trimmed(fs + [Final(k)], persisted), TrimmedIds(fs + [Final(k)], persisted))
  {
    BareReach(m, k, fs, persisted);
    DoIsReach(m, Arrival(k));
    var (c, about) := Reach(m, Arrival(k));
    var f := c.frames[Bare(k).id];
    OwnVoteDecides(f);
    BareApplies(c.builder, k, 0);
    FinishShape(c, f.id, true, 0);
    assert ApplyFrame(c, f.id, f.anchor, true, 0).1.None?;
    BareFinish(c, k, fs, persisted);
  }

  lemma BareFinish(c: Manager, k: nat, fs: seq<Frame>, persisted: set<Digest>)
    requires c.frames == map[Bare(k).id := Bare(k)] && c.frameEvents == map[Bare(k).id := []]
    requires c.builds == map[] && c.buffered == map[] && c.cfg.validatorCount == 1 && c.localId == "self"
    requires c.finalized == fs && c.persisted == persisted
    requires ApplyFrame(c, Bare(k).id, Bare(k).anchor, true, 0).1.None?
    ensures var (n, o) := Finish(c, Bare(k).id, true, 0);
            && o == Finalizes(Bare(k).id)
            && Idle(n, Trimmed(fs + [Final(k)], persisted), TrimmedIds(fs + [Final(k)], persisted))
  {
    var id := Bare(k).id;
    assert c.frames - {id} == map[] && c.frameEvents - {id} == map[] && c.builds - {id} == map[];
    assert c.frames[id].(status := FrameFinalized) == Final(k);
  }

  // ---- Trimming ----

  lemma {:induction false} NothingToDrop(fs: seq<Frame>, persisted: set<Digest>)
    ensures Retain(fs, persisted, 0) == fs && Dropped(fs, persisted, 0) == {}
    decreases |fs|
  {
    if fs != [] { NothingToDrop(fs[1..], persisted); }
  }

  lemma {:induction false} LastDropped(fs: seq<Frame>, f: Frame, persisted: set<Digest>)
    requires f.anchor.id in persisted && forall g | g in fs :: g.anchor.id !in persisted
    ensures Retain(fs + [f], persisted, 1) == fs
    decreases |fs|
  {
    if fs == [] {
      NothingToDrop([f][1..], persisted);
    } else {
      assert (fs + [f])[1..] == fs[1..] + [f];
      LastDropped(fs[1..], f, persisted);
    }
  }

  lemma OldestDropped(k: nat)
    requires k == MAX_FINALIZED
    ensures Trimmed(Finals(0, k) + [Final(k)], {Bare(0).anchor.id}) == Finals(1, k + 1)
    ensures TrimmedIds(Finals(0, k) + [Final(k)], {Bare(0).anchor.id}) == {}
  {
    var all, persisted := Finals(0, k) + [Final(k)], {Bare(0).anchor.id};
    assert all == [Final(0)] + Finals(1, k + 1);
    assert all[1..] == Finals(1, k + 1);
    NothingToDrop(all[1..], persisted);
  }

  lemma NewestDropped(k: nat)
    requires k == MAX_FINALIZED
    ensures Trimmed(Finals(1, k + 1) + [Final(0)], {Bare(0).anchor.id}) == Finals(1, k + 1)
  {
    var fs := Finals(1, k + 1);
    forall g | g in fs ensures g.anchor.id !in {Bare(0).anchor.id} { var i :| 0 <= i < |fs| && fs[i] == g; }
    LastDropped(fs, Final(0), {Bare(0).anchor.id});
  }

  // ---- The run ----

  lemma NotYet(m: Manager, fs: seq<Frame>, persisted: set<Digest>, from: nat, to: nat, k: nat)
    requires Idle(m, fs, persisted) && from <= to && fs == Finals(from, to) && !(from <= k < to)
    ensures Bare(k).id !in FinalizedIds(m)
  {
  }

  ghost predicate Filled(m: Manager, ms: seq<Manager>, turns: seq<Turn>, made: seq<seq<Anchor>>, k: nat) {
    && Trace(ms, turns, made) && ms[0] == m && |turns| == k + 1 && turns[0] == Arrival(0)
    && Idle(ms[k + 1], Finals(0, k), {Bare(0).anchor.id})
  }

  function Persists(a: Digest): Turn { Turn(MarkPersisted(a), true, 0) }

  lemma MarkIdle(m: Manager, fs: seq<Frame>, a: Digest) returns (r: Manager)
    requires Idle(m, fs, {})
    ensures Leads(m, Persists(a), r) && Idle(r, fs, {a})
  {
    DoLeads(m, Persists(a));
    r := Do(m, Persists(a)).0;
    assert {} + {a} == {a};
  }

  lemma FirstIdle(m: Manager) returns (r: Manager)
    requires Idle(m, [], {})
    ensures Leads(m, Arrival(0), r) && Idle(r, Finals(0, 1), {}) && MakesFinal(m, Arrival(0), Bare(0).id)
  {
    BareFinal(m, 0, [], {});
    DoLeads(m, Arrival(0));
    r := Do(m, Arrival(0)).0;
    assert [] + [Final(0)] == Finals(0, 1);
  }

  lemma NextIdle(m: Manager, k: nat) returns (r: Manager)
    requires 1 <= k < MAX_FINALIZED && Idle(m, Finals(0, k), {Bare(0).anchor.id})
    ensures Leads(m, Arrival(k), r) && Idle(r, Finals(0, k + 1), {Bare(0).anchor.id})
  {
    NotYet(m, Finals(0, k), {Bare(0).anchor.id}, 0, k, k);
    BareFinal(m, k, Finals(0, k), {Bare(0).anchor.id});
    DoLeads(m, Arrival(k));
    r := Do(m, Arrival(k)).0;
    assert Finals(0, k) + [Final(k)] == Finals(0, k + 1);
  }

  /** Frame 0 is final and persisted, frames 1 to k - 1 follow. */
  lemma {:induction false} Fill(m: Manager, k: nat) returns (ms: seq<Manager>, turns: seq<Turn>, made: seq<seq<Anchor>>)
    requires Idle(m, [], {}) && 1 <= k <= MAX_FINALIZED
    ensures Filled(m, ms, turns, made, k)
    decreases k
  {
    if k == 1 {
      var r := FirstIdle(m);
      made := OneMoreTurn([m], [], [], Arrival(0), r);
      var p := MarkIdle(r, Finals(0, 1), Bare(0).anchor.id);
      ms, turns := [m] + [r], [] + [Arrival(0)];
      made := OneMoreTurn(ms, turns, made, Persists(Bare(0).anchor.id), p);
      ms, turns := ms + [p], turns + [Persists(Bare(0).anchor.id)];
    } else {
      ms, turns, made := Fill(m, k - 1);
      var r := NextIdle(ms[k], k - 1);
      made := OneMoreTurn(ms, turns, made, Arrival(k - 1), r);
      ms, turns := ms + [r], turns + [Arrival(k - 1)];
    }
  }

  /** One frame more makes the list forget frame 0. */
  lemma ForgetFirst(m: Manager) returns (r: Manager)
    requires Idle(m, Finals(0, MAX_FINALIZED), {Bare(0).anchor.id})
    ensures Leads(m, Arrival(MAX_FINALIZED), r) && Idle(r, Finals(1, MAX_FINALIZED + 1), {})
  {
    var k := MAX_FINALIZED;
    NotYet(m, Finals(0, k), {Bare(0).anchor.id}, 0, k, k);
    BareFinal(m, k, Finals(0, k), {Bare(0).anchor.id});
    OldestDropped(k);
    DoLeads(m, Arrival(k));
    r := Do(m, Arrival(k)).0;
  }

  lemma AgainFinal(m: Manager) returns (r: Manager)
    requires Idle(m, Finals(1, MAX_FINALIZED + 1), {Bare(0).anchor.id})
    ensures Leads(m, Arrival(0), r) && MakesFinal(m, Arrival(0), Bare(0).id)
    ensures r.finalized == Finals(1, MAX_FINALIZED + 1)
  {
    var k := MAX_FINALIZED;
    NotYet(m, Finals(1, k + 1), {Bare(0).anchor.id}, 1, k + 1, 0);
    BareFinal(m, 0, Finals(1, k + 1), {Bare(0).anchor.id});
    NewestDropped(k);
    DoLeads(m, Arrival(0));
    r := Do(m, Arrival(0)).0;
  }

  /** The last call makes the same frame final as the first, and the newest finalized frame is another. */
  lemma FinalTwiceAndNotNewest(m: Manager)
    returns (ms: seq<Manager>, turns: seq<Turn>, made: seq<seq<Anchor>>, last: nat)
    requires Idle(m, [], {})
    ensures Trace(ms, turns, made) && ms[0] == m && Empty(m) && 0 < last && |turns| == last + 1
    ensures MakesFinal(ms[0], turns[0], Bare(0).id) && MakesFinal(ms[last], turns[last], Bare(0).id)
    ensures var fs := ms[last + 1].finalized; fs != [] && fs[|fs| - 1].id != Bare(0).id
  {
    var k, a := MAX_FINALIZED, Bare(0).anchor.id;
    var first := FirstIdle(m);
    ms, turns, made := Fill(m, k);
    var r := ForgetFirst(ms[k + 1]);
    made := OneMoreTurn(ms, turns, made, Arrival(k), r);
    ms, turns := ms + [r], turns + [Arrival(k)];
    var p := MarkIdle(r, Finals(1, k + 1), a);
    made := OneMoreTurn(ms, turns, made, Persists(a), p);
    ms, turns := ms + [p], turns + [Persists(a)];
    var z := AgainFinal(p);
    made := OneMoreTurn(ms, turns, made, Arrival(0), z);
    ms, turns := ms + [z], turns + [Arrival(0)];
    last := k + 3;
  }
}
