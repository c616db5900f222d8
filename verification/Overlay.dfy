/** The speculative overlay: per cell, a stack of values that unfinalized events have written. */
module Overlay {
  import opened Types

  datatype Entry = Entry(event: EventId, value: Option<Value>)
  type Stacks = map<WriteKey, seq<Entry>>

  function Without(stack: seq<Entry>, ids: set<EventId>): seq<Entry> {
    if stack == [] then []
    else
      var k := |stack| - 1;
      Without(stack[..k], ids) + (if stack[k].event in ids then [] else [stack[k]])
  }

  /** Clearing drops the entries of the given events, and then the empty stacks. */
  function Cleared(o: Stacks, ids: set<EventId>): Stacks {
    if ids == {} then o else map k | k in o && Without(o[k], ids) != [] :: Without(o[k], ids)
  }

  function Stack(o: Stacks, k: WriteKey): seq<Entry> { if k in o then o[k] else [] }

  lemma {:induction false} WithoutFrees(stack: seq<Entry>, ids: set<EventId>)
    ensures forall x | x in Without(stack, ids) :: x in stack && x.event !in ids
    ensures forall x | x in stack && x.event !in ids :: x in Without(stack, ids)
    decreases |stack|
  {
    if stack != [] {
      var k := |stack| - 1;
      WithoutFrees(stack[..k], ids);
      assert stack == stack[..k] + [stack[k]];
    }
  }

  ghost predicate Owns(o: Stacks, id: EventId) { exists k, x | k in o && x in o[k] :: x.event == id }

  /** No entry of the cleared events is left; what the others staged is as before, in order. */
  ghost predicate ClearedOf(before: Stacks, after: Stacks, ids: set<EventId>) {
    && (forall id | id in ids :: !Owns(after, id))
    && (forall k, others | others !! ids :: Only(Stack(after, k), others) == Only(Stack(before, k), others))
  }

  /** The entries of the given events, in order. */
  function Only(stack: seq<Entry>, ids: set<EventId>): seq<Entry> {
    if stack == [] then []
    else
      var k := |stack| - 1;
      Only(stack[..k], ids) + (if stack[k].event in ids then [stack[k]] else [])
  }

  lemma {:induction false} OnlyWithout(stack: seq<Entry>, ids: set<EventId>, others: set<EventId>)
    requires others !! ids
    ensures Only(Without(stack, ids), others) == Only(stack, others)
    decreases |stack|
  {
    if stack != [] {
      var k := |stack| - 1;
      OnlyWithout(stack[..k], ids, others);
      var w := Without(stack[..k], ids);
      if stack[k].event !in ids {
        assert (w + [stack[k]])[..|w|] == w;
      } else {
        assert w + [] == w;
      }
    }
  }

  lemma ClearingIsExact(o: Stacks, ids: set<EventId>)
    ensures ClearedOf(o, Cleared(o, ids), ids)
  {
    var c := Cleared(o, ids);
    forall id | id in ids ensures !Owns(c, id) {
      if Owns(c, id) {
        var k, x: Entry :| k in c && x in c[k] && x.event == id;
        WithoutFrees(o[k], ids);
        assert false;
      }
    }
    forall k, others | others !! ids ensures Only(Stack(c, k), others) == Only(Stack(o, k), others) {
      if k in o { OnlyWithout(o[k], ids, others); }
    }
  }

  lemma ClearedThenCleared(o: Stacks, mid: Stacks, ids: set<EventId>)
    requires ClearedOf(o, mid, ids)
    ensures ClearedOf(o, Cleared(mid, ids), ids)
  {
    ClearingIsExact(mid, ids);
  }

  // ---- Clearing other events than meant ----

  /** No entry belongs to an event that is in one of the sets only. */
  ghost predicate NoneBetween(o: Stacks, a: set<EventId>, b: set<EventId>) {
    forall x {:trigger Owns(o, x)} | (x in a) != (x in b) :: !Owns(o, x)
  }

  lemma {:induction false} OnlyOf(stack: seq<Entry>, x: EventId)
    ensures Only(stack, {x}) != [] <==> exists e | e in stack :: e.event == x
    decreases |stack|
  {
    if stack != [] {
      OnlyOf(stack[..|stack| - 1], x);
      assert stack == stack[..|stack| - 1] + [stack[|stack| - 1]];
    }
  }

  lemma OwnsIff(o: Stacks, x: EventId)
    ensures Owns(o, x) <==> exists k :: Only(Stack(o, k), {x}) != []
  {
    forall k ensures Only(Stack(o, k), {x}) != [] <==> exists e | e in Stack(o, k) :: e.event == x {
      OnlyOf(Stack(o, k), x);
    }
    if Owns(o, x) {
      var k, e: Entry :| k in o && e in o[k] && e.event == x;
      assert e in Stack(o, k);
      assert Only(Stack(o, k), {x}) != [];
    }
  }

  lemma {:induction false} OnlyIgnores(stack: seq<Entry>, ids: set<EventId>, extra: set<EventId>)
    requires forall e | e in stack :: e.event !in extra
    ensures Only(stack, ids) == Only(stack, ids - extra)
    decreases |stack|
  {
    if stack != [] {
      OnlyIgnores(stack[..|stack| - 1], ids, extra);
      assert stack[|stack| - 1] in stack;
    }
  }

  /** Who cleared events is rid of just those; so one set serves for another exactly when nothing
      in the overlay tells them apart. */
  lemma OtherClearedIff(o: Stacks, after: Stacks, cleared: set<EventId>, meant: set<EventId>)
    requires ClearedOf(o, after, cleared) && (forall x | Owns(after, x) :: Owns(o, x))
    ensures ClearedOf(o, after, meant) <==> NoneBetween(o, cleared, meant)
  {
    if NoneBetween(o, cleared, meant) { HarmlessClears(o, after, cleared, meant); }
    else {
      var x :| (x in cleared) != (x in meant) && Owns(o, x);
      OwnsIff(o, x);
      OwnsIff(after, x);
      var k :| Only(Stack(o, k), {x}) != [];
      if x in meant {
        assert {x} !! cleared;
        assert Only(Stack(after, k), {x}) == Only(Stack(o, k), {x});
        assert Owns(after, x);
      } else {
        assert !Owns(after, x) && {x} !! meant;
        assert Only(Stack(after, k), {x}) != Only(Stack(o, k), {x});
      }
    }
  }

  lemma HarmlessClears(o: Stacks, after: Stacks, cleared: set<EventId>, meant: set<EventId>)
    requires ClearedOf(o, after, cleared) && (forall x | Owns(after, x) :: Owns(o, x)) && NoneBetween(o, cleared, meant)
    ensures ClearedOf(o, after, meant)
  {
    forall k, others | others !! meant ensures Only(Stack(after, k), others) == Only(Stack(o, k), others) {
      var extra := others * cleared;
      NobodyAt(o, extra, k);
      NobodyAt(after, extra, k);
      OnlyIgnores(Stack(o, k), others, extra);
      OnlyIgnores(Stack(after, k), others, extra);
      assert others - extra !! cleared;
    }
  }

  lemma NobodyAt(o: Stacks, ids: set<EventId>, k: WriteKey)
    requires forall x | x in ids :: !Owns(o, x)
    ensures forall e | e in Stack(o, k) :: e.event !in ids
  {
    forall e | e in Stack(o, k) ensures e.event !in ids {
      assert k in o && e in o[k];
      assert Owns(o, e.event);
    }
  }

  lemma ClearingOnlyRemoves(o: Stacks, ids: set<EventId>, x: EventId)
    requires Owns(Cleared(o, ids), x)
    ensures Owns(o, x)
  {
    var c := Cleared(o, ids);
    var k, e: Entry :| k in c && e in c[k] && e.event == x;
    if ids != {} { WithoutFrees(o[k], ids); }
    assert e in o[k];
  }
}
