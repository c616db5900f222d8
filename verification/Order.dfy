/** The canonical event order: logical time first, then id. */
module Order {
  import opened Types

  predicate Before(a: Event, b: Event) { a.time < b.time || (a.time == b.time && a.id < b.id) }

  ghost predicate Sorted(s: seq<Event>) { forall i, j | 0 <= i < j < |s| :: !Before(s[j], s[i]) }

  /** Puts `e` in front of the first event that does not precede it, so equal ones keep their order. */
  function Insert(e: Event, s: seq<Event>): (r: seq<Event>)
    ensures multiset(r) == multiset(s) + multiset{e}
    ensures |r| == |s| + 1
    ensures forall x | x in r :: x == e || x in s
  {
    if s == [] || !Before(s[0], e) then [e] + s
    else
      assert s == [s[0]] + s[1..];
      [s[0]] + Insert(e, s[1..])
  }

  lemma {:induction false} InsertSorts(e: Event, s: seq<Event>)
    requires Sorted(s)
    ensures Sorted(Insert(e, s))
    decreases |s|
  {
    if s != [] && Before(s[0], e) {
      InsertSorts(e, s[1..]);
      var t := Insert(e, s[1..]);
      forall k | 0 <= k < |t| ensures !Before(t[k], s[0]) {
        assert t[k] in t;
        if t[k] != e { assert t[k] in s[1..]; }
      }
    } else {
      forall k | 0 <= k < |s| ensures !Before(s[k], e) { }
    }
  }

  /** The stable sort every layer runs before it reads a list of events. */
  function SortByVlc(s: seq<Event>): (r: seq<Event>)
    ensures multiset(r) == multiset(s)
    ensures |r| == |s|
    ensures Sorted(r)
  {
    if s == [] then [] else
      assert s == [s[0]] + s[1..];
      InsertSorts(s[0], SortByVlc(s[1..]));
      Insert(s[0], SortByVlc(s[1..]))
  }

  lemma SameElements(a: seq<Event>, b: seq<Event>)
    requires multiset(a) == multiset(b)
    ensures forall x :: x in a <==> x in b
  {
    forall x ensures x in a <==> x in b {
      assert x in a <==> x in multiset(a);
      assert x in b <==> x in multiset(b);
    }
  }

  lemma DistinctIsMultiset(a: seq<Event>)
    requires DistinctIds(a)
    ensures forall x :: multiset(a)[x] <= 1
    decreases |a|
  {
    if a != [] {
      assert a == [a[0]] + a[1..];
      DistinctIsMultiset(a[1..]);
      assert a[0] !in a[1..];
    }
  }

  lemma DistinctKept(a: seq<Event>, b: seq<Event>)
    requires multiset(a) == multiset(b) && DistinctIds(a)
    ensures DistinctIds(b)
  {
    SameElements(a, b);
    DistinctIsMultiset(a);
    forall i, j | 0 <= i < j < |b| ensures b[i].id != b[j].id {
      if b[i] == b[j] {
        TwiceIsTwo(b, i, j);
        assert false;
      }
      assert b[i] in a && b[j] in a;
    }
  }

  /** Lists without repeated ids that have the same members are rearrangements of each other. */
  lemma MembersDetermine(a: seq<Event>, b: seq<Event>)
    requires DistinctIds(a) && DistinctIds(b) && forall x :: x in a <==> x in b
    ensures multiset(a) == multiset(b)
  {
    DistinctIsMultiset(a);
    DistinctIsMultiset(b);
    forall x ensures multiset(a)[x] == multiset(b)[x] {
      assert x in a <==> x in multiset(a);
      assert x in b <==> x in multiset(b);
    }
  }

  lemma TwiceIsTwo(b: seq<Event>, i: nat, j: nat)
    requires i < j < |b| && b[i] == b[j]
    ensures multiset(b)[b[i]] >= 2
  {
    assert b == b[..j] + [b[j]] + b[j + 1..];
    assert b[i] == b[..j][i];
    assert b[i] in multiset(b[..j]);
  }

  lemma SameHead(a: seq<Event>, b: seq<Event>)
    requires a != [] && b != [] && Sorted(a) && Sorted(b) && DistinctIds(a) && DistinctIds(b)
    requires forall x :: x in a <==> x in b
    ensures a[0] == b[0]
  {
    assert a[0] in b && b[0] in a;
    assert !Before(b[0], a[0]) && !Before(a[0], b[0]);
    var k :| 0 <= k < |b| && b[k] == a[0];
  }

  lemma TailMultiset(a: seq<Event>)
    requires a != []
    ensures multiset(a[1..]) == multiset(a) - multiset{a[0]}
  {
    assert a == [a[0]] + a[1..];
  }

  /** Two sorted lists of the same events, all with different ids, are the same list. */
  lemma {:induction false} SortedIsUnique(a: seq<Event>, b: seq<Event>)
    requires multiset(a) == multiset(b) && DistinctIds(a) && Sorted(a) && Sorted(b)
    ensures a == b
    decreases |a|
  {
    assert |a| == |multiset(a)| == |multiset(b)| == |b|;
    if a != [] {
      SameElements(a, b);
      DistinctKept(a, b);
      SameHead(a, b);
      TailMultiset(a);
      TailMultiset(b);
      SortedIsUnique(a[1..], b[1..]);
      assert a == [a[0]] + a[1..] && b == [b[0]] + b[1..];
    }
  }

  /** Sorting forgets the order the events came in. */
  lemma SortForgetsOrder(a: seq<Event>, b: seq<Event>)
    requires multiset(a) == multiset(b) && DistinctIds(a)
    ensures SortByVlc(a) == SortByVlc(b)
  {
    DistinctKept(a, SortByVlc(a));
    SortedIsUnique(SortByVlc(a), SortByVlc(b));
  }

  /** Sorted means: by logical time, and by id where the times are equal. */
  lemma SortedByTimeThenId(s: seq<Event>, i: nat, j: nat)
    requires i < j < |s|
    ensures var a, b := SortByVlc(s)[i], SortByVlc(s)[j]; a.time < b.time || (a.time == b.time && a.id <= b.id)
  {
    assert !Before(SortByVlc(s)[j], SortByVlc(s)[i]);
  }

  /** The events root commits to the ids in canonical order. */
  function EventsRoot(events: seq<Event>): Digest {
    if events == [] then Zero else EventsRootOf(IdsOf(SortByVlc(events)))
  }

  lemma EventsRootForgetsOrder(a: seq<Event>, b: seq<Event>)
    requires multiset(a) == multiset(b) && DistinctIds(a)
    ensures EventsRoot(a) == EventsRoot(b)
  {
    SortForgetsOrder(a, b);
    assert |a| == |multiset(a)| == |multiset(b)| == |b|;
  }
}
