/** What one event does to the state, read off its list of changes place by place, and what a list of
    events does, event by event. */
module Effects {
  import opened Types
  import opened Order
  import opened StateApply

  // ---- Changes by place ----

  /** The last of the first `n` changes that is about cell `k` is the one at `i`. */
  ghost predicate LastAt(e: Event, changes: seq<StateChange>, n: nat, k: WriteKey, i: int) {
    && 0 <= i < n <= |changes| && e.KeyOf(changes[i]) == k
    && forall j | i < j < n :: e.KeyOf(changes[j]) != k
  }

  ghost predicate Unmentioned(e: Event, changes: seq<StateChange>, n: nat, k: WriteKey) {
    n <= |changes| && forall j | 0 <= j < n :: e.KeyOf(changes[j]) != k
  }

  /** After the first `n` changes cell `k` would hold `v`: the last of them about it says so, or none is
      about it and the state does. */
  ghost predicate Holds(cells: Cells, e: Event, changes: seq<StateChange>, n: nat, k: WriteKey, v: Option<Value>) {
    || (exists i :: LastAt(e, changes, n, k, i) && changes[i].newValue == v)
    || (Unmentioned(e, changes, n, k) && v == (if k in cells then Some(cells[k]) else None))
  }

  /** Change `i` expects another value than the one it would find, or creates what is there: in the
      state, or by an earlier change. */
  ghost predicate Unmet(cells: Cells, e: Event, changes: seq<StateChange>, i: nat)
    requires i < |changes|
  {
    var c, k := changes[i], e.KeyOf(changes[i]);
    if c.oldValue.Some? then !Holds(cells, e, changes, i, k, c.oldValue)
    else c.newValue.Some? && (k in cells || exists j :: LastAt(e, changes, i, k, j) && changes[j].newValue.Some?)
  }

  /** All changes before `n` find what they expect. */
  ghost predicate Met(cells: Cells, e: Event, changes: seq<StateChange>, n: nat)
    requires n <= |changes|
  {
    forall j | 0 <= j < n :: !Unmet(cells, e, changes, j)
  }

  // ---- The writes of the first changes ----

  function WrittenBy(e: Event, changes: seq<StateChange>, n: nat): map<WriteKey, Option<Value>>
    requires n <= |changes|
  {
    if n == 0 then map[] else WrittenBy(e, changes, n - 1)[e.KeyOf(changes[n - 1]) := changes[n - 1].newValue]
  }

  lemma {:induction false} WrittenAt(e: Event, changes: seq<StateChange>, n: nat, k: WriteKey)
    requires n <= |changes|
    ensures k !in WrittenBy(e, changes, n) <==> Unmentioned(e, changes, n, k)
    ensures k in WrittenBy(e, changes, n) ==>
              exists i :: LastAt(e, changes, n, k, i) && WrittenBy(e, changes, n)[k] == changes[i].newValue
    decreases n
  {
    if n > 0 {
      WrittenAt(e, changes, n - 1, k);
      if e.KeyOf(changes[n - 1]) == k {
        assert LastAt(e, changes, n, k, n - 1);
      } else if k in WrittenBy(e, changes, n - 1) {
        var i :| LastAt(e, changes, n - 1, k, i) && WrittenBy(e, changes, n - 1)[k] == changes[i].newValue;
        assert LastAt(e, changes, n, k, i);
      }
    }
  }

  lemma LastIsUnique(e: Event, changes: seq<StateChange>, n: nat, k: WriteKey, i: int, j: int)
    requires LastAt(e, changes, n, k, i) && LastAt(e, changes, n, k, j)
    ensures i == j
  {
  }

  lemma HoldsIs(cells: Cells, e: Event, changes: seq<StateChange>, n: nat, k: WriteKey, v: Option<Value>)
    requires n <= |changes|
    ensures Holds(cells, e, changes, n, k, v) <==> v == Current(cells, WrittenBy(e, changes, n), k)
  {
    WrittenAt(e, changes, n, k);
    if k in WrittenBy(e, changes, n) {
      var i :| LastAt(e, changes, n, k, i) && WrittenBy(e, changes, n)[k] == changes[i].newValue;
      forall j | LastAt(e, changes, n, k, j) ensures j == i { LastIsUnique(e, changes, n, k, i, j); }
    }
  }

  lemma UnmetIs(cells: Cells, e: Event, changes: seq<StateChange>, i: nat)
    requires i < |changes|
    ensures Unmet(cells, e, changes, i) <==>
            Clashes(cells, WrittenBy(e, changes, i), e.KeyOf(changes[i]), changes[i])
  {
    var c, k := changes[i], e.KeyOf(changes[i]);
    HoldsIs(cells, e, changes, i, k, c.oldValue);
    WrittenAt(e, changes, i, k);
    if k in WrittenBy(e, changes, i) {
      var j :| LastAt(e, changes, i, k, j) && WrittenBy(e, changes, i)[k] == changes[j].newValue;
      forall h | LastAt(e, changes, i, k, h) ensures h == j { LastIsUnique(e, changes, i, k, j, h); }
    }
  }

  // ---- The check ----

  /** Change `i` is the first that does not find what it expects, from `n` on. */
  ghost predicate FirstUnmet(cells: Cells, e: Event, changes: seq<StateChange>, n: nat, i: int) {
    && n <= i < |changes| && Unmet(cells, e, changes, i)
    && forall j | n <= j < i :: !Unmet(cells, e, changes, j)
  }

  lemma {:induction false} ClashFrom(cells: Cells, e: Event, changes: seq<StateChange>, n: nat)
    requires n <= |changes|
    ensures var r := FirstClash(cells, e, changes[n..], WrittenBy(e, changes, n));
            && (r.None? <==> forall j | n <= j < |changes| :: !Unmet(cells, e, changes, j))
            && (r.Some? ==> exists i :: FirstUnmet(cells, e, changes, n, i) && r.value == changes[i].oid)
    decreases |changes| - n
  {
    if n < |changes| {
      UnmetIs(cells, e, changes, n);
      if Unmet(cells, e, changes, n) {
        assert FirstUnmet(cells, e, changes, n, n);
      } else {
        ClashFrom(cells, e, changes, n + 1);
        assert changes[n..][1..] == changes[n + 1..];
        var r := FirstClash(cells, e, changes[n + 1..], WrittenBy(e, changes, n + 1));
        if r.Some? {
          var i :| FirstUnmet(cells, e, changes, n + 1, i) && r.value == changes[i].oid;
          assert FirstUnmet(cells, e, changes, n, i);
        }
      }
    }
  }

  /** The changes of an event that was executed successfully. */
  predicate Succeeded(e: Event) { e.result.Some? && e.result.value.success }

  /** The verdict: no result, failed, refused for the first change that does not find what it expects,
      or applied. */
  lemma VerdictIs(cells: Cells, e: Event)
    ensures var v := EffectOf(cells, e).verdict;
            && (v.NoResult? <==> e.result.None?)
            && (v.ExecFailed? <==> e.result.Some? && !e.result.value.success)
            && (v.Applied? <==> Succeeded(e) && Met(cells, e, e.result.value.changes, |e.result.value.changes|))
            && (v.Conflicted? <==>
                Succeeded(e) && exists i :: FirstUnmet(cells, e, e.result.value.changes, 0, i))
            && (forall i | Succeeded(e) && FirstUnmet(cells, e, e.result.value.changes, 0, i) ::
                  v == Conflicted(e.result.value.changes[i].oid))
  {
    if Succeeded(e) {
      var changes := e.result.value.changes;
      assert changes[0..] == changes && WrittenBy(e, changes, 0) == map[];
      ClashFrom(cells, e, changes, 0);
      forall i, j | FirstUnmet(cells, e, changes, 0, i) && FirstUnmet(cells, e, changes, 0, j) ensures i == j { }
    }
  }

  // ---- The writes ----

  lemma {:induction false} OthersStay(cells: Cells, e: Event, changes: seq<StateChange>, k: WriteKey)
    requires forall j | 0 <= j < |changes| :: e.KeyOf(changes[j]) != k
    ensures Cell(WriteAll(cells, e, changes), k) == Cell(cells, k)
    decreases |changes|
  {
    if changes != [] { OthersStay(WriteOne(cells, e.KeyOf(changes[0]), changes[0]), e, changes[1..], k); }
  }

  lemma {:induction false} LastWrites(cells: Cells, e: Event, changes: seq<StateChange>, k: WriteKey, i: nat)
    requires LastAt(e, changes, |changes|, k, i)
    ensures Cell(WriteAll(cells, e, changes), k) == changes[i].newValue
    decreases |changes|
  {
    var next := WriteOne(cells, e.KeyOf(changes[0]), changes[0]);
    if i == 0 {
      OthersStay(next, e, changes[1..], k);
    } else {
      assert LastAt(e, changes[1..], |changes| - 1, k, i - 1);
      LastWrites(next, e, changes[1..], k, i - 1);
    }
  }

  /** An applied event leaves in every cell it is about what its last change about it says, absence
      included; no other event changes any cell, and no event changes a cell it is not about. */
  lemma EffectWrites(cells: Cells, e: Event, k: WriteKey)
    ensures var after := EffectOf(cells, e).cells;
            var now := if k in after then Some(after[k]) else None;
            if EffectOf(cells, e).verdict.Applied?
            then Succeeded(e) && Holds(cells, e, e.result.value.changes, |e.result.value.changes|, k, now)
            else after == cells
  {
    if EffectOf(cells, e).verdict.Applied? {
      var changes := e.result.value.changes;
      WrittenAt(e, changes, |changes|, k);
      if Unmentioned(e, changes, |changes|, k) {
        OthersStay(cells, e, changes, k);
      } else {
        var i :| LastAt(e, changes, |changes|, k, i);
        LastWrites(cells, e, changes, k, i);
      }
    }
  }

  // ---- The trees ----

  /** The check of change `i` reads the state tree. */
  ghost predicate Looks(e: Event, changes: seq<StateChange>, i: nat)
    requires i < |changes|
  {
    if changes[i].oldValue.Some? then Unmentioned(e, changes, i, e.KeyOf(changes[i])) else changes[i].newValue.Some?
  }

  /** The check comes to change `i` and reads the tree of subnet `s`. */
  ghost predicate LooksInto(cells: Cells, e: Event, changes: seq<StateChange>, n: nat, s: SubnetId, i: int) {
    && n <= i < |changes| && Looks(e, changes, i) && e.KeyOf(changes[i]).subnet == s
    && forall j | n <= j < i :: !Unmet(cells, e, changes, j)
  }

  lemma LooksFurther(cells: Cells, e: Event, changes: seq<StateChange>, n: nat, next: nat, s: SubnetId)
    requires n < |changes| && next == n + 1
    ensures (exists i :: LooksInto(cells, e, changes, n, s, i)) <==>
            || (Looks(e, changes, n) && e.KeyOf(changes[n]).subnet == s)
            || (!Unmet(cells, e, changes, n) && exists i :: LooksInto(cells, e, changes, next, s, i))
  {
    if i :| LooksInto(cells, e, changes, n, s, i) {
      if i > n { assert LooksInto(cells, e, changes, next, s, i); }
    }
    if Looks(e, changes, n) && e.KeyOf(changes[n]).subnet == s { assert LooksInto(cells, e, changes, n, s, n); }
    if !Unmet(cells, e, changes, n) {
      if i :| LooksInto(cells, e, changes, next, s, i) { assert LooksInto(cells, e, changes, n, s, i); }
    }
  }

  lemma {:induction false} ProbedFrom(cells: Cells, e: Event, changes: seq<StateChange>, n: nat, s: SubnetId)
    requires n <= |changes|
    ensures s in Probed(cells, e, changes[n..], WrittenBy(e, changes, n)) <==>
            exists i :: LooksInto(cells, e, changes, n, s, i)
    decreases |changes| - n
  {
    if n < |changes| {
      UnmetIs(cells, e, changes, n);
      WrittenAt(e, changes, n, e.KeyOf(changes[n]));
      ProbedFrom(cells, e, changes, n + 1, s);
      assert changes[n..][1..] == changes[n + 1..];
      LooksFurther(cells, e, changes, n, n + 1, s);
    }
  }

  lemma {:induction false} TargetsAre(e: Event, changes: seq<StateChange>, s: SubnetId)
    ensures s in Targets(e, changes) <==> exists i :: 0 <= i < |changes| && e.KeyOf(changes[i]).subnet == s
    decreases |changes|
  {
    if changes != [] {
      TargetsAre(e, changes[1..], s);
      if i :| 0 <= i < |changes[1..]| && e.KeyOf(changes[1..][i]).subnet == s {
        assert e.KeyOf(changes[i + 1]).subnet == s;
      }
      if i :| 0 < i < |changes| && e.KeyOf(changes[i]).subnet == s { assert changes[1..][i - 1] == changes[i]; }
    }
  }

  /** An applied event makes trees for its own subnet and for those its changes are in; a refused one for
      those its check reads; any other none. */
  lemma TreesAre(cells: Cells, e: Event, s: SubnetId)
    ensures var f := EffectOf(cells, e);
            s in f.touched <==>
            || (f.verdict.Applied? && Succeeded(e)
                && (s == e.SubnetOrRoot()
                    || exists i :: 0 <= i < |e.result.value.changes| && e.KeyOf(e.result.value.changes[i]).subnet == s))
            || (f.verdict.Conflicted? && Succeeded(e)
                && exists i :: LooksInto(cells, e, e.result.value.changes, 0, s, i))
  {
    if Succeeded(e) {
      var changes := e.result.value.changes;
      assert changes[0..] == changes && WrittenBy(e, changes, 0) == map[];
      ProbedFrom(cells, e, changes, 0, s);
      TargetsAre(e, changes, s);
    }
  }

  /** The tracker after an event: an applied one is entered for the objects of its changes. */
  lemma StepTracks(g: GlobalState, e: Event, depth: nat, oid: ObjectId)
    ensures var t := StepEvent(g, e, depth).tracker;
            var enters := EffectOf(g.cells, e).verdict.Applied? && Succeeded(e)
                          && exists c | c in e.result.value.changes :: c.oid == oid;
            && (oid in t <==> enters || oid in g.tracker)
            && (oid in t ==> t[oid] == if enters then Change(e.id, depth) else g.tracker[oid])
  {
    if EffectOf(g.cells, e).verdict.Applied? {
      VerdictIs(g.cells, e);
      TrackedAt(g.tracker, e, e.result.value.changes, depth, oid);
    }
  }

  // ---- Lists ----

  /** `earlier` lists those of `events` that come before `e`. */
  ghost predicate Precede(earlier: seq<Event>, events: seq<Event>, e: Event) {
    DistinctIds(earlier) && forall x :: x in earlier <==> x in events && Before(x, e)
  }

  lemma SortedPlace(events: seq<Event>, e: Event) returns (i: nat)
    requires DistinctIds(events) && e in events
    ensures i < |SortByVlc(events)| && SortByVlc(events)[i] == e && DistinctIds(SortByVlc(events))
    ensures forall earlier | Precede(earlier, events, e) :: SortByVlc(earlier) == SortByVlc(events)[..i]
  {
    var s := SortByVlc(events);
    SameElements(s, events);
    DistinctKept(events, s);
    i :| 0 <= i < |s| && s[i] == e;
    forall earlier | Precede(earlier, events, e) ensures SortByVlc(earlier) == s[..i] {
      PrefixIsEarlier(s, i, earlier);
    }
  }

  lemma PrefixIsEarlier(s: seq<Event>, i: nat, earlier: seq<Event>)
    requires Sorted(s) && DistinctIds(s) && i < |s| && Precede(earlier, s, s[i])
    ensures SortByVlc(earlier) == s[..i]
  {
    forall x ensures x in earlier <==> x in s[..i] {
      if x in s[..i] {
        var j :| 0 <= j < i && s[j] == x;
        assert !Before(s[i], s[j]) && s[j].id != s[i].id;
        assert x in s;
      }
      if x in earlier {
        var j :| 0 <= j < |s| && s[j] == x;
        assert j < i && s[..i][j] == x;
      }
    }
    MembersDetermine(earlier, s[..i]);
    SameElements(SortByVlc(earlier), earlier);
    DistinctKept(earlier, SortByVlc(earlier));
    SortedIsUnique(SortByVlc(earlier), s[..i]);
  }

  lemma {:induction false} VerdictAt(g: GlobalState, s: seq<Event>, depth: nat, i: nat)
    requires DistinctIds(s) && i < |s|
    ensures var r := ApplyAll(g, s, depth);
            && s[i].id in r.verdicts
            && r.verdicts[s[i].id] == EffectOf(ApplyAll(g, s[..i], depth).state.cells, s[i]).verdict
    decreases |s|
  {
    var k := |s| - 1;
    if i < k {
      VerdictAt(g, s[..k], depth, i);
      assert s[..k][..i] == s[..i] && s[..k][i] == s[i];
    }
  }

  /** The verdicts are about the events handed over and no others. */
  lemma {:induction false} VerdictsOnly(g: GlobalState, s: seq<Event>, depth: nat)
    ensures forall id | id in ApplyAll(g, s, depth).verdicts :: exists e | e in s :: e.id == id
    decreases |s|
  {
    if s != [] {
      var k := |s| - 1;
      VerdictsOnly(g, s[..k], depth);
      assert s[k] in s;
      forall id | id in ApplyAll(g, s[..k], depth).verdicts ensures exists e | e in s :: e.id == id {
        var e :| e in s[..k] && e.id == id;
        assert e in s;
      }
    }
  }

  /** In a list of committed events, each is judged in the state that those before it in logical time
      leave, and the last one acts on that state; nothing else happens but that the depth is recorded. */
  lemma AppliedInOrder(g: GlobalState, events: seq<Event>, depth: nat, e: Event, earlier: seq<Event>)
    requires DistinctIds(events) && e in events && Precede(earlier, events, e)
    ensures var r, before := ApplyCommitted(g, events, depth), ApplyCommitted(g, earlier, depth).state;
            && e.id in r.verdicts && r.verdicts[e.id] == EffectOf(before.cells, e).verdict
            && ((forall x | x in events && x != e :: Before(x, e)) ==> r.state == StepEvent(before, e, depth))
    ensures forall id | id in ApplyCommitted(g, events, depth).verdicts :: exists x | x in events :: x.id == id
    ensures ApplyCommitted(g, [], depth).state == g.(lastDepth := if g.lastDepth < depth then depth else g.lastDepth)
  {
    var s := SortByVlc(events);
    var i := SortedPlace(events, e);
    var g0 := g.(lastDepth := if g.lastDepth < depth then depth else g.lastDepth);
    VerdictAt(g0, s, depth, i);
    VerdictsOnly(g0, s, depth);
    SameElements(s, events);
    if forall x | x in events && x != e :: Before(x, e) {
      LastPlace(events, e, i);
      assert s[..|s| - 1] == s[..i];
    }
    assert SortByVlc([]) == [];
  }

  lemma LastPlace(events: seq<Event>, e: Event, i: nat)
    requires DistinctIds(events) && i < |SortByVlc(events)| && SortByVlc(events)[i] == e
    requires forall x | x in events && x != e :: Before(x, e)
    ensures i == |SortByVlc(events)| - 1
  {
    var s := SortByVlc(events);
    SameElements(s, events);
    DistinctKept(events, s);
    var last := s[|s| - 1];
    assert last in s && (i < |s| - 1 ==> !Before(last, e));
    assert last == e;
  }

  /** The root tells states apart: by their trees, and by every cell if there is a tree. */
  lemma RootTellsApart(g: GlobalState, h: GlobalState)
    ensures StateRoot(g) == StateRoot(h) <==> g.subnets == h.subnets && (g.subnets == {} || g.cells == h.cells)
  {
  }
}
