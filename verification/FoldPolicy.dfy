/** The same-key fold policy: in canonical order, keep an event unless it writes a key that an
    event kept before it already writes. */
module FoldPolicy {
  import opened Types
  import opened Order

  /** The state cells an event will write; none unless it executed successfully. */
  function WriteKeys(e: Event): set<WriteKey> {
    if e.result.None? || !e.result.value.success then {} else KeysOf(e, e.result.value.changes)
  }

  function KeysOf(e: Event, changes: seq<StateChange>): (keys: set<WriteKey>)
    ensures forall c | c in changes :: e.KeyOf(c) in keys
  {
    if changes == [] then {} else KeysOf(e, changes[..|changes| - 1]) + {e.KeyOf(changes[|changes| - 1])}
  }

  method CollectEventWriteKeys(e: Event) returns (keys: set<WriteKey>)
    ensures keys == WriteKeys(e)
    ensures forall k :: k in keys <==> e.result.Some? && e.result.value.success && exists i :: IsAbout(e, i, k)
  {
    forall k ensures k in WriteKeys(e) <==> e.result.Some? && e.result.value.success && exists i :: IsAbout(e, i, k) {
      WriteKeysAre(e, k);
    }
    keys := {};
    if e.result.None? || !e.result.value.success {
      return;
    }
    var changes := e.result.value.changes;
    for i := 0 to |changes|
      invariant keys == KeysOf(e, changes[..i])
    {
      assert changes[..i + 1][..i] == changes[..i];
      keys := keys + {e.KeyOf(changes[i])};
    }
    assert changes[..|changes|] == changes;
  }

  lemma {:induction false} KeysAre(e: Event, changes: seq<StateChange>, k: WriteKey)
    ensures k in KeysOf(e, changes) <==> exists i :: 0 <= i < |changes| && e.KeyOf(changes[i]) == k
    decreases |changes|
  {
    if changes != [] {
      var n := |changes| - 1;
      KeysAre(e, changes[..n], k);
      if i :| 0 <= i < n && e.KeyOf(changes[..n][i]) == k { assert e.KeyOf(changes[i]) == k; }
      if i :| 0 <= i < |changes| && e.KeyOf(changes[i]) == k {
        if i < n { assert changes[..n][i] == changes[i]; }
      }
    }
  }

  /** Change `i` is about object `k.oid` of subnet `k.subnet`: the one it targets, else the event's own, else
      the root subnet. */
  predicate IsAbout(e: Event, i: int, k: WriteKey) {
    && e.result.Some? && 0 <= i < |e.result.value.changes| && e.result.value.changes[i].oid == k.oid
    && match e.result.value.changes[i].target
       case Some(s) => k.subnet == s
       case None => if e.subnet.Some? then Some(k.subnet) == e.subnet else k.subnet == ROOT
  }

  /** An event writes the cells its changes are about if it was executed successfully, and otherwise none. */
  lemma WriteKeysAre(e: Event, k: WriteKey)
    ensures k in WriteKeys(e) <==> e.result.Some? && e.result.value.success && exists i :: IsAbout(e, i, k)
  {
    if e.result.Some? {
      var changes := e.result.value.changes;
      KeysAre(e, changes, k);
      forall i | 0 <= i < |changes| ensures IsAbout(e, i, k) <==> e.KeyOf(changes[i]) == k { }
    }
  }

  predicate Conflict(a: Event, b: Event) { !(WriteKeys(a) !! WriteKeys(b)) }

  datatype Selection = Selection(kept: seq<Event>, deferred: seq<Event>)

  /** The scan of a sorted list, given the keys claimed so far. */
  function Scan(s: seq<Event>, claimed: set<WriteKey>): Selection {
    if s == [] then Selection([], [])
    else
      if !(WriteKeys(s[0]) !! claimed) then
        var r := Scan(s[1..], claimed);
        Selection(r.kept, [s[0]] + r.deferred)
      else
        var r := Scan(s[1..], claimed + WriteKeys(s[0]));
        Selection([s[0]] + r.kept, r.deferred)
  }

  /** Nothing is dropped and nothing is invented. */
  lemma {:induction false} ScanPartition(s: seq<Event>, claimed: set<WriteKey>)
    ensures multiset(Scan(s, claimed).kept) + multiset(Scan(s, claimed).deferred) == multiset(s)
    decreases |s|
  {
    if s != [] {
      assert s == [s[0]] + s[1..];
      if !(WriteKeys(s[0]) !! claimed) {
        ScanPartition(s[1..], claimed);
      } else {
        ScanPartition(s[1..], claimed + WriteKeys(s[0]));
      }
    }
  }

  function Fold(events: seq<Event>): Selection { Scan(SortByVlc(events), {}) }

  method ApplyStrictSameKeyFoldPolicy(events: seq<Event>) returns (kept: seq<Event>, deferred: seq<Event>)
    ensures Selection(kept, deferred) == Fold(events)
    ensures multiset(kept) + multiset(deferred) == multiset(events)
  {
    var sorted := SortByVlc(events);
    var claimed: set<WriteKey> := {};
    kept, deferred := [], [];
    assert sorted[0..] == sorted;
    for i := 0 to |sorted|
      invariant Continues(kept, deferred, Scan(sorted[i..], claimed), Fold(events))
    {
      ghost var rest := sorted[i..];
      assert rest[0] == sorted[i] && rest[1..] == sorted[i + 1..];
      ContinuesOne(kept, deferred, rest, claimed, Fold(events));
      var keys := CollectEventWriteKeys(sorted[i]);
      if !(keys !! claimed) {
        deferred := deferred + [sorted[i]];
      } else {
        kept := kept + [sorted[i]];
        claimed := claimed + keys;
      }
    }
    assert sorted[|sorted|..] == [];
    ScanPartition(sorted, {});
  }

  /** The lists so far, continued by the scan of the rest, make the whole selection. */
  ghost predicate Continues(kept: seq<Event>, deferred: seq<Event>, rest: Selection, all: Selection) {
    kept + rest.kept == all.kept && deferred + rest.deferred == all.deferred
  }

  lemma ContinuesOne(kept: seq<Event>, deferred: seq<Event>, rest: seq<Event>, claimed: set<WriteKey>, all: Selection)
    requires rest != [] && Continues(kept, deferred, Scan(rest, claimed), all)
    ensures if !(WriteKeys(rest[0]) !! claimed)
            then Continues(kept, deferred + [rest[0]], Scan(rest[1..], claimed), all)
            else Continues(kept + [rest[0]], deferred, Scan(rest[1..], claimed + WriteKeys(rest[0])), all)
  {
    var r := Scan(rest, claimed);
    if !(WriteKeys(rest[0]) !! claimed) {
      assert deferred + r.deferred == deferred + [rest[0]] + Scan(rest[1..], claimed).deferred;
    } else {
      assert kept + r.kept == kept + [rest[0]] + Scan(rest[1..], claimed + WriteKeys(rest[0])).kept;
    }
  }

  // ---- What the scan selects ----

  lemma {:induction false} ScanSplits(s: seq<Event>, claimed: set<WriteKey>)
    ensures forall e | e in Scan(s, claimed).kept :: e in s
    ensures forall e | e in s :: e in Scan(s, claimed).kept || e in Scan(s, claimed).deferred
    decreases |s|
  {
    var r := Scan(s, claimed);
    ScanPartition(s, claimed);
    forall e | e in r.kept ensures e in s { assert e in multiset(r.kept) && e in multiset(s); }
    forall e | e in s ensures e in r.kept || e in r.deferred { assert e in multiset(s); }
  }

  /** No two of these events write a common cell. */
  ghost predicate Independent(k: seq<Event>) { forall i, j | 0 <= i < j < |k| :: !Conflict(k[i], k[j]) }

  ghost predicate Avoids(k: seq<Event>, claimed: set<WriteKey>) { forall e | e in k :: WriteKeys(e) !! claimed }

  /** Kept events write different cells, and none claimed before. */
  lemma {:induction false} ScanDisjoint(s: seq<Event>, claimed: set<WriteKey>)
    ensures Avoids(Scan(s, claimed).kept, claimed) && Independent(Scan(s, claimed).kept)
    decreases |s|
  {
    if s != [] {
      if !(WriteKeys(s[0]) !! claimed) {
        ScanDisjoint(s[1..], claimed);
      } else {
        var now := claimed + WriteKeys(s[0]);
        ScanDisjoint(s[1..], now);
        OneMore(s[0], Scan(s[1..], now).kept, claimed);
      }
    }
  }

  lemma OneMore(e: Event, k: seq<Event>, claimed: set<WriteKey>)
    requires Independent(k) && Avoids(k, claimed + WriteKeys(e)) && WriteKeys(e) !! claimed
    ensures Independent([e] + k) && Avoids([e] + k, claimed)
  {
    forall i, j | 0 <= i < j < |[e] + k| ensures !Conflict(([e] + k)[i], ([e] + k)[j]) {
      assert ([e] + k)[j] == k[j - 1] && k[j - 1] in k;
      if i > 0 { assert ([e] + k)[i] == k[i - 1]; }
    }
  }

  /** A deferred event writes a claimed key, or one that an earlier kept event writes. */
  lemma {:induction false} ScanDefers(s: seq<Event>, claimed: set<WriteKey>, d: Event)
    requires d in Scan(s, claimed).deferred && Sorted(s) && DistinctIds(s)
    ensures !(WriteKeys(d) !! claimed) || exists k | k in Scan(s, claimed).kept :: Before(k, d) && Conflict(k, d)
    decreases |s|
  {
    if !(WriteKeys(s[0]) !! claimed) {
      if d != s[0] { ScanDefers(s[1..], claimed, d); }
    } else {
      var now := claimed + WriteKeys(s[0]);
      ScanDefers(s[1..], now, d);
      if !(WriteKeys(d) !! now) && WriteKeys(d) !! claimed {
        ScanDeferredIn(s[1..], now, d);
        assert Conflict(s[0], d) && s[0] in Scan(s, claimed).kept;
      }
    }
  }

  lemma ScanDeferredIn(s: seq<Event>, claimed: set<WriteKey>, d: Event)
    requires d in Scan(s, claimed).deferred
    ensures d in s
  {
    ScanPartition(s, claimed);
    assert d in multiset(Scan(s, claimed).deferred) && d in multiset(s);
  }

  // ---- The canonical selection, without an algorithm ----

  /** Kept events do not conflict; whoever is left out conflicts with a smaller kept one. */
  ghost predicate Stable(all: set<Event>, kept: set<Event>) {
    && kept <= all
    && (forall a, b | a in kept && b in kept && a != b :: !Conflict(a, b))
    && (forall e {:trigger Blocked(kept, e)} | e in all && e !in kept :: Blocked(kept, e))
  }

  ghost predicate Blocked(kept: set<Event>, e: Event) { exists k | k in kept :: Before(k, e) && Conflict(k, e) }

  ghost function Smaller(all: set<Event>, e: Event): set<Event> { set x | x in all && Before(x, e) }

  /** There is only one such selection. */
  lemma {:induction false} StableIncluded(all: set<Event>, k1: set<Event>, k2: set<Event>, e: Event)
    requires Stable(all, k1) && Stable(all, k2) && e in k1
    ensures e in k2
    decreases Smaller(all, e)
  {
    if e !in k2 {
      assert Blocked(k2, e);
      var k :| k in k2 && Before(k, e) && Conflict(k, e);
      assert k in Smaller(all, e) && k !in Smaller(all, k);
      StableIncluded(all, k2, k1, k);
      assert false;
    }
  }

  function Elements(s: seq<Event>): set<Event> { set e | e in s }

  lemma FoldIsStable(events: seq<Event>)
    requires DistinctIds(events)
    ensures Stable(Elements(events), Elements(Fold(events).kept))
  {
    var s := SortByVlc(events);
    var kept := Fold(events).kept;
    SameElements(s, events);
    DistinctKept(events, s);
    ScanSplits(s, {});
    ScanDisjoint(s, {});
    forall a, b | a in kept && b in kept && a != b ensures !Conflict(a, b) {
      var i :| 0 <= i < |kept| && kept[i] == a;
      var j :| 0 <= j < |kept| && kept[j] == b;
      if i < j { assert !Conflict(kept[i], kept[j]); } else { assert !Conflict(kept[j], kept[i]); }
    }
    forall e | e in Elements(events) && e !in kept ensures Blocked(Elements(kept), e) {
      assert e in s;
      ScanDefers(s, {}, e);
      var k :| k in kept && Before(k, e) && Conflict(k, e);
      assert k in Elements(kept);
    }
  }

  /** The policy computes the one stable selection, and every order of arrival gives it. */
  lemma FoldIsCanonical(events: seq<Event>, other: seq<Event>, kept: set<Event>)
    requires DistinctIds(events) && multiset(events) == multiset(other)
    ensures Fold(events) == Fold(other)
    ensures Stable(Elements(events), kept) <==> kept == Elements(Fold(events).kept)
  {
    SortForgetsOrder(events, other);
    FoldIsStable(events);
    var mine := Elements(Fold(events).kept);
    if Stable(Elements(events), kept) {
      forall e | e in kept ensures e in mine { StableIncluded(Elements(events), kept, mine, e); }
      forall e | e in mine ensures e in kept { StableIncluded(Elements(events), mine, kept, e); }
      assert kept == mine;
    }
  }

  /** The smallest event of all is always kept, first. */
  lemma SmallestIsKept(events: seq<Event>)
    requires events != []
    ensures var k := Fold(events).kept; k != [] && k[0] == SortByVlc(events)[0]
  {
  }

  /** The kept list is in canonical order, without repeated ids. */
  lemma KeptIsSorted(events: seq<Event>)
    requires DistinctIds(events)
    ensures Sorted(Fold(events).kept) && DistinctIds(Fold(events).kept)
  {
    DistinctKept(events, SortByVlc(events));
    ScanSorted(SortByVlc(events), {});
  }

  lemma {:induction false} ScanSorted(s: seq<Event>, claimed: set<WriteKey>)
    requires Sorted(s) && DistinctIds(s)
    ensures Sorted(Scan(s, claimed).kept) && DistinctIds(Scan(s, claimed).kept)
    decreases |s|
  {
    if s != [] {
      var now := if !(WriteKeys(s[0]) !! claimed) then claimed else claimed + WriteKeys(s[0]);
      ScanSorted(s[1..], now);
      ScanSplits(s[1..], now);
      var k := Scan(s[1..], now).kept;
      forall i | 0 <= i < |k| ensures !Before(k[i], s[0]) && k[i].id != s[0].id { assert k[i] in s[1..]; }
    }
  }
}
