/** What happens after a frame is final: its anchor is persisted, then it is announced, then the
    round moves on. */
module Completion {
  import opened Types

  datatype Entry = Entry(frame: Digest, anchor: Digest, expectedRound: nat, persisted: bool)

  // ---- The queue ----

  function MarkedIn(q: seq<Entry>, anchor: Digest): (r: seq<Entry>)
    ensures |r| == |q|
    ensures forall i | 0 <= i < |q| :: r[i] == if q[i].anchor == anchor then q[i].(persisted := true) else q[i]
  {
    seq(|q|, i requires 0 <= i < |q| => if q[i].anchor == anchor then q[i].(persisted := true) else q[i])
  }

  /** The entries whose flag is `p`, in order. */
  function Flagged(q: seq<Entry>, p: bool): seq<Entry> {
    if q == [] then []
    else Flagged(q[..|q| - 1], p) + (if q[|q| - 1].persisted == p then [q[|q| - 1]] else [])
  }

  /** The round after the completion of `done`, one after the other. */
  function Advanced(round: nat, done: seq<Entry>): nat
    decreases |done|
  {
    if done == [] then round
    else Advanced(if round == done[0].expectedRound then round + 1 else round, done[1..])
  }

  function Frames(q: seq<Entry>): seq<Digest> { if q == [] then [] else [q[0].frame] + Frames(q[1..]) }

  lemma {:induction false} FramesAre(q: seq<Entry>)
    ensures |Frames(q)| == |q| && forall i | 0 <= i < |q| :: Frames(q)[i] == q[i].frame
    decreases |q|
  {
    if q != [] { FramesAre(q[1..]); }
  }

  /** The parts of the engine that finish finalized frames; `announced` is what went to peers and
      subscribers. */
  class CompletionQueue {
    var queue: seq<Entry>
    var round: nat
    var announced: seq<Digest>

    constructor (start: nat)
      ensures queue == [] && round == start && announced == []
    {
      queue, round, announced := [], start, [];
    }

    method HandleFinalization(frame: Digest, anchor: Digest)
      modifies this`queue
      ensures queue == old(queue) + [Entry(frame, anchor, round, false)]
    {
      queue := queue + [Entry(frame, anchor, round, false)];
    }

    method MarkAnchorPersisted(anchor: Digest)
      modifies this`queue
      ensures queue == MarkedIn(old(queue), anchor)
    {
      ghost var was := queue;
      for i := 0 to |queue|
        invariant |queue| == |was|
        invariant queue[..i] == MarkedIn(was, anchor)[..i] && queue[i..] == was[i..]
      {
        assert queue[i] == was[i];
        if queue[i].anchor == anchor { queue := queue[i := queue[i].(persisted := true)]; }
        assert queue[i] == MarkedIn(was, anchor)[i];
        assert queue[..i + 1] == MarkedIn(was, anchor)[..i + 1] by {
          assert queue[..i + 1] == queue[..i] + [queue[i]];
          assert MarkedIn(was, anchor)[..i + 1] == MarkedIn(was, anchor)[..i] + [MarkedIn(was, anchor)[i]];
        }
      }
    }

    method TakePersisted() returns (ready: seq<Entry>)
      modifies this`queue
      ensures ready == Flagged(old(queue), true) && queue == Flagged(old(queue), false)
    {
      var q, kept := queue, [];
      ready := [];
      for i := 0 to |q|
        invariant ready == Flagged(q[..i], true) && kept == Flagged(q[..i], false)
      {
        assert q[..i + 1][..i] == q[..i];
        if q[i].persisted { ready := ready + [q[i]]; } else { kept := kept + [q[i]]; }
      }
      assert q[..|q|] == q;
      queue := kept;
    }

    method AdvanceRound()
      modifies this`round
      ensures round == old(round) + 1
    {
      round := round + 1;
    }

    method CompletePendingFinalizations()
      modifies this
      ensures queue == Flagged(old(queue), false)
      ensures announced == old(announced) + Frames(Flagged(old(queue), true))
      ensures var ready := Flagged(old(queue), true);
              && |announced| == |old(announced)| + |ready| && old(announced) <= announced
              && forall i | 0 <= i < |ready| :: announced[|old(announced)| + i] == ready[i].frame
      ensures round == Advanced(old(round), Flagged(old(queue), true))
    {
      FramesAre(Flagged(queue, true));
      var ready := TakePersisted();
      for i := 0 to |ready|
        invariant queue == Flagged(old(queue), false)
        invariant announced + Frames(ready[i..]) == old(announced) + Frames(ready)
        invariant Advanced(round, ready[i..]) == Advanced(old(round), ready)
      {
        announced := announced + [ready[i].frame];
        if round == ready[i].expectedRound { AdvanceRound(); }
      }
    }
  }

  lemma {:induction false} FlaggedIs(q: seq<Entry>, p: bool)
    ensures forall e | e in Flagged(q, p) :: e in q && e.persisted == p
    decreases |q|
  {
    if q != [] { FlaggedIs(q[..|q| - 1], p); }
  }

  lemma {:induction false} FlaggedAll(q: seq<Entry>, p: bool)
    requires forall e | e in q :: e.persisted == p
    ensures Flagged(q, p) == q && Flagged(q, !p) == []
    decreases |q|
  {
    if q != [] {
      FlaggedAll(q[..|q| - 1], p);
      assert q == q[..|q| - 1] + [q[|q| - 1]];
    }
  }

  /** A second call finds nothing to do. */
  lemma NothingLeft(q: seq<Entry>)
    ensures Flagged(Flagged(q, false), true) == [] && Flagged(Flagged(q, false), false) == Flagged(q, false)
  {
    FlaggedIs(q, false);
    FlaggedAll(Flagged(q, false), false);
  }

  // ---- Calls that overlap ----

  /** An entry taken out of the queue by some call, announced or not yet. */
  datatype Item = Item(entry: Entry, announced: bool)

  /** `reading` is an entry whose round has been read but which is not queued yet.  `pushed`,
      `announced`, `completed` and `marked` are history. */
  datatype State = State(queue: seq<Entry>, reading: Option<Entry>, inHand: seq<Item>, round: nat,
                         pushed: seq<Entry>, announced: seq<Entry>, completed: seq<Entry>, marked: set<Digest>)

  datatype Step =
    | ReadRound(frame: Digest, anchor: Digest)
    | Push
    | MarkAnchor(anchor: Digest)
    | Take
    | Announce(i: nat)
    | Advance(i: nat)

  function Plain(e: Entry): Entry { e.(persisted := false) }

  function Items(es: seq<Entry>): (r: seq<Item>)
    ensures |r| == |es| && forall i | 0 <= i < |r| :: r[i] == Item(es[i], false)
  {
    seq(|es|, i requires 0 <= i < |es| => Item(es[i], false))
  }

  predicate Allowed(s: State, step: Step) {
    match step
    case ReadRound(_, _) => s.reading.None?
    case Push => s.reading.Some?
    case Announce(i) => i < |s.inHand| && !s.inHand[i].announced
    case Advance(i) => i < |s.inHand| && s.inHand[i].announced
    case _ => true
  }

  function Next(s: State, step: Step): State
    requires Allowed(s, step)
  {
    match step
    case ReadRound(frame, anchor) => s.(reading := Some(Entry(frame, anchor, s.round, false)))
    case Push => s.(queue := s.queue + [s.reading.value], pushed := s.pushed + [s.reading.value], reading := None)
    case MarkAnchor(a) => s.(queue := MarkedIn(s.queue, a), marked := s.marked + {a})
    case Take => s.(queue := Flagged(s.queue, false), inHand := s.inHand + Items(Flagged(s.queue, true)))
    case Announce(i) =>
      var e := s.inHand[i].entry;
      s.(inHand := s.inHand[i := Item(e, true)], announced := s.announced + [Plain(e)])
    case Advance(i) =>
      var e := s.inHand[i].entry;
      s.(inHand := s.inHand[..i] + s.inHand[i + 1..], completed := s.completed + [Plain(e)],
         round := if s.round == e.expectedRound then s.round + 1 else s.round)
  }

  /** A run, as the states it goes through. */
  ghost predicate Trace(states: seq<State>, steps: seq<Step>) {
    && |states| == |steps| + 1
    && forall i {:trigger steps[i]} | 0 <= i < |steps| ::
         Allowed(states[i], steps[i]) && states[i + 1] == Next(states[i], steps[i])
  }

  function Start(round: nat): State { State([], None, [], round, [], [], [], {}) }

  // ---- Rounds ----

  ghost predicate Covered(completed: seq<Entry>, round: nat) {
    exists i | 0 <= i < |completed| :: completed[i].expectedRound == round
  }

  ghost predicate RoundsOk(s: State, start: nat) {
    && start <= s.round
    && (forall e | e in s.queue :: start <= e.expectedRound <= s.round)
    && (s.reading.Some? ==> start <= s.reading.value.expectedRound <= s.round)
    && (forall i | 0 <= i < |s.inHand| :: start <= s.inHand[i].entry.expectedRound <= s.round)
    && (forall e | e in s.completed :: start <= e.expectedRound < s.round)
    && (forall r | start <= r < s.round :: Covered(s.completed, r))
  }

  lemma RoundsStep(s: State, step: Step, start: nat)
    requires RoundsOk(s, start) && Allowed(s, step)
    ensures RoundsOk(Next(s, step), start)
  {
    var n := Next(s, step);
    if step.Advance? {
      var e := Plain(s.inHand[step.i].entry);
      forall r | start <= r < n.round ensures Covered(n.completed, r) {
        if r == e.expectedRound {
          assert n.completed[|s.completed|] == e;
        } else {
          assert Covered(s.completed, r);
          var k :| 0 <= k < |s.completed| && s.completed[k].expectedRound == r;
          assert n.completed[k] == s.completed[k];
        }
      }
    } else if step.MarkAnchor? {
      forall e | e in n.queue ensures start <= e.expectedRound <= s.round {
        var k :| 0 <= k < |n.queue| && n.queue[k] == e;
        assert s.queue[k] in s.queue;
      }
    } else if step.Take? {
      FlaggedIs(s.queue, true);
      FlaggedIs(s.queue, false);
      TakenFrom(s);
    }
  }

  /** What is in hand after a take was in hand or in the queue before. */
  lemma TakenFrom(s: State)
    ensures var n := Next(s, Take);
            forall i | |s.inHand| <= i < |n.inHand| :: n.inHand[i].entry in s.queue && n.inHand[i].entry.persisted
  {
    FlaggedIs(s.queue, true);
    var ready := Flagged(s.queue, true);
    forall i | 0 <= i < |ready| ensures ready[i] in s.queue && ready[i].persisted { assert ready[i] in ready; }
  }

  // ---- Persisted before announced ----

  ghost predicate PersistedOk(s: State) {
    && (forall e | e in s.queue && e.persisted :: e.anchor in s.marked)
    && (forall i | 0 <= i < |s.inHand| :: s.inHand[i].entry.anchor in s.marked)
    && (forall e | e in s.announced :: e.anchor in s.marked)
  }

  lemma PersistedStep(s: State, step: Step)
    requires PersistedOk(s) && Allowed(s, step) && (s.reading.Some? ==> !s.reading.value.persisted)
    ensures PersistedOk(Next(s, step))
  {
    if step.MarkAnchor? {
      var n := Next(s, step);
      forall e | e in n.queue && e.persisted ensures e.anchor in n.marked {
        var k :| 0 <= k < |n.queue| && n.queue[k] == e;
        assert s.queue[k] in s.queue;
      }
    } else if step.Take? {
      FlaggedIs(s.queue, false);
      TakenFrom(s);
    }
  }

  // ---- Conservation ----

  /** How often `e` occurs, whatever the flag. */
  function Count(q: seq<Entry>, e: Entry): nat {
    if q == [] then 0 else Count(q[..|q| - 1], e) + (if Plain(q[|q| - 1]) == e then 1 else 0)
  }

  /** How often `e` is in hand; with `all` false, in hand and announced. */
  function InHand(h: seq<Item>, all: bool, e: Entry): nat {
    if h == [] then 0 else InHand(h[..|h| - 1], all, e) + One(h[|h| - 1], all, e)
  }

  function One(x: Item, all: bool, e: Entry): nat { if (all || x.announced) && Plain(x.entry) == e then 1 else 0 }

  ghost predicate Conserved(s: State, e: Entry) {
    && Count(s.pushed, e) == Count(s.queue, e) + InHand(s.inHand, true, e) + Count(s.completed, e)
    && Count(s.announced, e) == InHand(s.inHand, false, e) + Count(s.completed, e)
  }

  lemma CountOneMore(q: seq<Entry>, x: Entry, e: Entry)
    ensures Count(q + [x], e) == Count(q, e) + if Plain(x) == e then 1 else 0
  {
    var r := q + [x];
    assert r[..|r| - 1] == q;
  }

  lemma {:induction false} CountMarked(q: seq<Entry>, anchor: Digest, e: Entry)
    ensures Count(MarkedIn(q, anchor), e) == Count(q, e)
    decreases |q|
  {
    if q != [] {
      CountMarked(q[..|q| - 1], anchor, e);
      assert MarkedIn(q, anchor)[..|q| - 1] == MarkedIn(q[..|q| - 1], anchor);
    }
  }

  lemma {:induction false} CountSplit(q: seq<Entry>, e: Entry)
    ensures Count(q, e) == Count(Flagged(q, false), e) + Count(Flagged(q, true), e)
    decreases |q|
  {
    if q != [] {
      var k, x := q[..|q| - 1], q[|q| - 1];
      CountSplit(k, e);
      CountOneMore(Flagged(k, x.persisted), x, e);
      var other := Flagged(k, !x.persisted);
      assert other + [] == other;
    }
  }

  lemma HandOneMore(h: seq<Item>, x: Item, all: bool, e: Entry)
    ensures InHand(h + [x], all, e) == InHand(h, all, e) + One(x, all, e)
  {
    var r := h + [x];
    assert r[..|r| - 1] == h;
  }

  lemma {:induction false} HandAppend(a: seq<Item>, b: seq<Item>, all: bool, e: Entry)
    ensures InHand(a + b, all, e) == InHand(a, all, e) + InHand(b, all, e)
    decreases |b|
  {
    if b == [] {
      assert a + b == a;
    } else {
      var k, x := b[..|b| - 1], b[|b| - 1];
      HandAppend(a, k, all, e);
      HandOneMore(a + k, x, all, e);
      assert a + b == (a + k) + [x];
    }
  }

  lemma {:induction false} HandOf(es: seq<Entry>, e: Entry)
    ensures InHand(Items(es), true, e) == Count(es, e) && InHand(Items(es), false, e) == 0
    decreases |es|
  {
    if es != [] {
      HandOf(es[..|es| - 1], e);
      assert Items(es)[..|es| - 1] == Items(es[..|es| - 1]);
    }
  }

  /** Position `i` of the hand, and the rest of it. */
  lemma HandAt(h: seq<Item>, i: nat, all: bool, e: Entry)
    requires i < |h|
    ensures InHand(h, all, e) == InHand(h[..i] + h[i + 1..], all, e) + One(h[i], all, e)
  {
    var a, b := h[..i], h[i + 1..];
    assert h == (a + [h[i]]) + b;
    HandAppend(a + [h[i]], b, all, e);
    HandOneMore(a, h[i], all, e);
    HandAppend(a, b, all, e);
  }

  lemma ConservedStep(s: State, step: Step, e: Entry)
    requires Conserved(s, e) && Allowed(s, step)
    ensures Conserved(Next(s, step), e)
  {
    match step
    case ReadRound(_, _) =>
    case Push =>
      CountOneMore(s.queue, s.reading.value, e);
      CountOneMore(s.pushed, s.reading.value, e);
    case MarkAnchor(a) => CountMarked(s.queue, a, e);
    case Take =>
      var ready := Flagged(s.queue, true);
      CountSplit(s.queue, e);
      HandOf(ready, e);
      HandAppend(s.inHand, Items(ready), true, e);
      HandAppend(s.inHand, Items(ready), false, e);
    case Announce(i) => AnnounceConserves(s, i, e);
    case Advance(i) =>
      HandAt(s.inHand, i, true, e);
      HandAt(s.inHand, i, false, e);
      CountOneMore(s.completed, Plain(s.inHand[i].entry), e);
  }

  lemma AnnounceConserves(s: State, i: nat, e: Entry)
    requires Conserved(s, e) && Allowed(s, Announce(i))
    ensures Conserved(Next(s, Announce(i)), e)
  {
    var h := s.inHand;
    var n := h[i := Item(h[i].entry, true)];
    assert n[..i] == h[..i] && n[i + 1..] == h[i + 1..];
    HandAt(h, i, true, e);
    HandAt(h, i, false, e);
    HandAt(n, i, true, e);
    HandAt(n, i, false, e);
    CountOneMore(s.announced, Plain(h[i].entry), e);
  }

  // ---- Runs ----

  ghost predicate Good(s: State, start: nat) {
    RoundsOk(s, start) && PersistedOk(s) && (s.reading.Some? ==> !s.reading.value.persisted)
  }

  lemma {:induction false} GoodAt(states: seq<State>, steps: seq<Step>, start: nat, k: nat)
    requires Trace(states, steps) && states[0] == Start(start) && k < |states|
    ensures Good(states[k], start)
    decreases k
  {
    if k > 0 {
      GoodAt(states, steps, start, k - 1);
      RoundsStep(states[k - 1], steps[k - 1], start);
      PersistedStep(states[k - 1], steps[k - 1]);
    }
  }

  /** The completed entries account for the rounds from the first to the current one, and no others. */
  lemma RoundsAreExactlyCovered(states: seq<State>, steps: seq<Step>, start: nat, k: nat, r: nat)
    requires Trace(states, steps) && states[0] == Start(start) && k < |states|
    ensures start <= r < states[k].round <==> Covered(states[k].completed, r)
  {
    GoodAt(states, steps, start, k);
    var s := states[k];
    if Covered(s.completed, r) {
      var i :| 0 <= i < |s.completed| && s.completed[i].expectedRound == r;
      assert s.completed[i] in s.completed;
    }
  }

  /** Nothing is lost or done twice: what was queued is waiting, in hand or completed, and what was
      announced is completed or still in hand. */
  lemma {:induction false} NothingLostOrRepeated(states: seq<State>, steps: seq<Step>, start: nat, k: nat, e: Entry)
    requires Trace(states, steps) && states[0] == Start(start) && k < |states|
    ensures var s := states[k];
            && Count(s.pushed, e) == Count(s.queue, e) + InHand(s.inHand, true, e) + Count(s.completed, e)
            && Count(s.announced, e) == InHand(s.inHand, false, e) + Count(s.completed, e)
    decreases k
  {
    if k > 0 {
      NothingLostOrRepeated(states, steps, start, k - 1, e);
      ConservedStep(states[k - 1], steps[k - 1], e);
    }
  }

  lemma {:induction false} HandPart(h: seq<Item>, e: Entry)
    ensures InHand(h, false, e) <= InHand(h, true, e)
    decreases |h|
  {
    if h != [] { HandPart(h[..|h| - 1], e); }
  }

  lemma {:induction false} CountAt(q: seq<Entry>, i: nat)
    requires i < |q|
    ensures Count(q, Plain(q[i])) >= 1
    decreases |q|
  {
    if i < |q| - 1 { CountAt(q[..|q| - 1], i); }
  }

  lemma {:induction false} CountAtBoth(q: seq<Entry>, i: nat, j: nat)
    requires i < j < |q| && Plain(q[i]) == Plain(q[j])
    ensures Count(q, Plain(q[i])) >= 2
    decreases |q|
  {
    if j < |q| - 1 { CountAtBoth(q[..|q| - 1], i, j); } else { CountAt(q[..|q| - 1], i); }
  }

  lemma {:induction false} Find(q: seq<Entry>, e: Entry) returns (i: nat)
    requires Count(q, e) >= 1
    ensures i < |q| && Plain(q[i]) == e
    decreases |q|
  {
    if Plain(q[|q| - 1]) == e { i := |q| - 1; } else { i := Find(q[..|q| - 1], e); }
  }

  ghost predicate NoFrameTwice(q: seq<Entry>) { forall i, j | 0 <= i < j < |q| :: q[i].frame != q[j].frame }

  lemma {:induction false} CountedOnce(q: seq<Entry>, e: Entry)
    requires NoFrameTwice(q)
    ensures Count(q, e) <= 1
    decreases |q|
  {
    if q != [] {
      CountedOnce(q[..|q| - 1], e);
      if Plain(q[|q| - 1]) == e && Count(q[..|q| - 1], e) >= 1 { var i := Find(q[..|q| - 1], e); }
    }
  }

  /** A frame that was queued once is announced at most once. */
  lemma AnnouncedOnce(states: seq<State>, steps: seq<Step>, start: nat, k: nat)
    requires Trace(states, steps) && states[0] == Start(start) && k < |states| && NoFrameTwice(states[k].pushed)
    ensures NoFrameTwice(states[k].announced)
  {
    var s := states[k];
    forall i, j | 0 <= i < j < |s.announced| ensures s.announced[i].frame != s.announced[j].frame {
      var p := PushedAs(states, steps, start, k, i);
      var q := PushedAs(states, steps, start, k, j);
      if s.announced[i].frame == s.announced[j].frame {
        assert p == q;
        CountAtBoth(s.announced, i, j);
        BoundedByPushed(states, steps, start, k, Plain(s.announced[i]));
        CountedOnce(s.pushed, Plain(s.announced[i]));
      }
    }
  }

  lemma BoundedByPushed(states: seq<State>, steps: seq<Step>, start: nat, k: nat, e: Entry)
    requires Trace(states, steps) && states[0] == Start(start) && k < |states|
    ensures Count(states[k].announced, e) <= Count(states[k].pushed, e)
  {
    NothingLostOrRepeated(states, steps, start, k, e);
    HandPart(states[k].inHand, e);
  }

  lemma PushedAs(states: seq<State>, steps: seq<Step>, start: nat, k: nat, i: nat) returns (p: nat)
    requires Trace(states, steps) && states[0] == Start(start) && k < |states| && i < |states[k].announced|
    ensures p < |states[k].pushed| && Plain(states[k].pushed[p]) == Plain(states[k].announced[i])
  {
    CountAt(states[k].announced, i);
    BoundedByPushed(states, steps, start, k, Plain(states[k].announced[i]));
    p := Find(states[k].pushed, Plain(states[k].announced[i]));
  }

  /** No frame is announced before its anchor is marked as persisted. */
  lemma PersistedBeforeAnnounced(states: seq<State>, steps: seq<Step>, start: nat, k: nat)
    requires Trace(states, steps) && states[0] == Start(start) && k < |steps| && steps[k].Announce?
    ensures var e := states[k].inHand[steps[k].i].entry;
            e.anchor in states[k].marked && states[k + 1].announced == states[k].announced + [Plain(e)]
  {
    GoodAt(states, steps, start, k);
  }

  // ---- One undisturbed call ----

  function Script(n: nat): seq<Step> { if n == 0 then [] else [Announce(0), Advance(0)] + Script(n - 1) }

  ghost predicate Runs(s: State, steps: seq<Step>, end: State)
    decreases |steps|
  {
    if steps == [] then end == s else Allowed(s, steps[0]) && Runs(Next(s, steps[0]), steps[1..], end)
  }

  function Plains(es: seq<Entry>): seq<Entry> {
    if es == [] then [] else [Plain(es[0])] + Plains(es[1..])
  }

  lemma TwoSteps(s: State, a: Step, b: Step, rest: seq<Step>, end: State)
    requires Allowed(s, a) && Allowed(Next(s, a), b) && Runs(Next(Next(s, a), b), rest, end)
    ensures Runs(s, [a, b] + rest, end)
  {
    var all := [a, b] + rest;
    assert all[1..] == [b] + rest && all[1..][1..] == rest;
    assert Runs(Next(s, a), all[1..], end);
  }

  /** The state after the entries in hand, and no others, have been completed. */
  function AllDone(s: State, es: seq<Entry>): State {
    s.(inHand := [], announced := s.announced + Plains(es), completed := s.completed + Plains(es),
       round := Advanced(s.round, es))
  }

  function OneDone(s: State): State
    requires s.inHand != [] && !s.inHand[0].announced
  {
    Next(Next(s, Announce(0)), Advance(0))
  }

  lemma OneThenRest(s: State, es: seq<Entry>)
    requires s.inHand == Items(es) && es != []
    ensures OneDone(s).inHand == Items(es[1..]) && AllDone(OneDone(s), es[1..]) == AllDone(s, es)
  {
    var rest := OneDone(s);
    assert rest.inHand == Items(es[1..]);
    assert rest.announced + Plains(es[1..]) == s.announced + Plains(es);
    assert rest.completed + Plains(es[1..]) == s.completed + Plains(es);
  }

  /** Without interference the steps of a call add up to what the method does. */
  lemma {:induction false} CallIsRun(s: State, es: seq<Entry>)
    requires s.inHand == Items(es)
    ensures Runs(s, Script(|es|), AllDone(s, es))
    decreases |es|
  {
    if es == [] {
      assert AllDone(s, es) == s;
    } else {
      OneThenRest(s, es);
      CallIsRun(OneDone(s), es[1..]);
      TwoSteps(s, Announce(0), Advance(0), Script(|es| - 1), AllDone(s, es));
    }
  }
}
