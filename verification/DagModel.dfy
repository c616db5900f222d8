/** The DAG as a value: what each operation of `Dag` does to the five indexes, and what the
    garbage collector is meant to remove. */
module DagModel {
  import opened Types

  /** An event in the DAG together with its current status. */
  datatype Stored = Stored(event: Event, status: EventStatus)

  datatype DagState = DagState(events: map<EventId, Stored>, children: map<EventId, set<EventId>>,
                               depths: map<EventId, nat>, tips: set<EventId>, maxDepth: nat,
                               pending: set<EventId>)
  {
    predicate Active(id: EventId) { id in events && events[id].status != Finalized }

    predicate Settled(id: EventId) { id in events && events[id].status == Finalized }

    function ChildrenOf(id: EventId): set<EventId> { if id in children then children[id] else {} }

    predicate HasActiveChildren(id: EventId) { exists c | c in ChildrenOf(id) :: Active(c) }

    function ParentsOf(id: EventId): seq<EventId>
      requires id in events
    {
      events[id].event.parents
    }

    /** What every operation keeps: the indexes speak about events of the DAG only, and an
        indexed child really names its parent. */
    ghost predicate Consistent() {
      && depths.Keys == events.Keys
      && tips <= events.Keys
      && pending <= events.Keys
      && children.Keys <= events.Keys
      && (forall id | id in events :: events[id].event.id == id)
      && (forall p, c | p in children && c in children[p] :: c in events && p in ParentsOf(c))
    }
  }

  const EMPTY := DagState(map[], map[], map[], {}, 0, {})

  /** Those of `ids` that are known. */
  function Known(ids: seq<EventId>, known: set<EventId>): set<EventId> { set p | p in ids && p in known }

  lemma KnownStep(ids: seq<EventId>, known: set<EventId>, p: EventId)
    ensures Known(ids + [p], known) == Known(ids, known) + (if p in known then {p} else {})
  {
  }

  lemma TipsStep(tips: set<EventId>, ids: seq<EventId>, known: set<EventId>, p: EventId)
    ensures tips - Known(ids + [p], known) == tips - Known(ids, known) - (if p in known then {p} else {})
  {
    KnownStep(ids, known, p);
  }

  /** The children index once `id` is entered under those of `parents` that are in the DAG. */
  function Linked(children: map<EventId, set<EventId>>, known: set<EventId>, parents: seq<EventId>,
                  id: EventId): map<EventId, set<EventId>>
  {
    map p | p in children.Keys + Known(parents, known) ::
      (if p in children then children[p] else {}) + (if p in Known(parents, known) then {id} else {})
  }

  function Unlinked(children: map<EventId, set<EventId>>, parents: seq<EventId>, id: EventId)
    : map<EventId, set<EventId>>
  {
    map p | p in children :: if p in parents then children[p] - {id} else children[p]
  }

  lemma LinkedNone(children: map<EventId, set<EventId>>, known: set<EventId>, id: EventId)
    ensures Linked(children, known, [], id) == children
  {
    var a := Linked(children, known, [], id);
    assert a.Keys == children.Keys;
    forall q | q in a ensures a[q] == children[q] { }
  }

  lemma LinkedStep(children: map<EventId, set<EventId>>, known: set<EventId>, parents: seq<EventId>, p: EventId,
                   id: EventId)
    ensures var c := Linked(children, known, parents, id);
            Linked(children, known, parents + [p], id) ==
            if p in known then c[p := (if p in c then c[p] else {}) + {id}] else c
  {
    KnownStep(parents, known, p);
    var c := Linked(children, known, parents, id);
    var a := Linked(children, known, parents + [p], id);
    var b := if p in known then c[p := (if p in c then c[p] else {}) + {id}] else c;
    assert a.Keys == b.Keys;
    forall q | q in a ensures a[q] == b[q] { }
    assert a == b;
  }

  lemma UnlinkedStep(children: map<EventId, set<EventId>>, parents: seq<EventId>, p: EventId, id: EventId)
    ensures var c := Unlinked(children, parents, id);
            Unlinked(children, parents + [p], id) == if p in c then c[p := c[p] - {id}] else c
  {
    var c := Unlinked(children, parents, id);
    var a, b := Unlinked(children, parents + [p], id), if p in c then c[p := c[p] - {id}] else c;
    forall q | q in a ensures a[q] == b[q] { }
    assert a == b;
  }

  function Inserted(d: DagState, s: Stored, depth: nat): DagState {
    var e := s.event;
    DagState(d.events[e.id := s], Linked(d.children, d.events.Keys, e.parents, e.id), d.depths[e.id := depth],
             (d.tips - Known(e.parents, d.events.Keys)) + {e.id},
             if d.maxDepth < depth then depth else d.maxDepth, d.pending + {e.id})
  }

  function Marked(events: map<EventId, Stored>, ids: set<EventId>): map<EventId, Stored> {
    map id | id in events :: if id in ids then events[id].(status := Finalized) else events[id]
  }

  lemma MarkedStep(events: map<EventId, Stored>, ids: set<EventId>, id: EventId)
    ensures var m := Marked(events, ids);
            Marked(events, ids + {id}) == if id in m then m[id := m[id].(status := Finalized)] else m
  {
  }

  function FinalizedIn(d: DagState, ids: set<EventId>): DagState {
    d.(events := Marked(d.events, ids), pending := d.pending - ids)
  }

  function Removed(d: DagState, id: EventId): DagState
    requires id in d.events
  {
    DagState(d.events - {id}, Unlinked(d.children, d.ParentsOf(id), id) - {id}, d.depths - {id},
             d.tips - {id}, d.maxDepth, d.pending - {id})
  }

  /** The DAG with a whole set of events taken out of every index. */
  function Without(d: DagState, gone: set<EventId>): DagState {
    DagState(d.events - gone, map p | p in d.children && p !in gone :: d.children[p] - gone,
             d.depths - gone, d.tips - gone, d.maxDepth, d.pending - gone)
  }

  // ---- What the collector is meant to remove ----

  predicate Collectable(d: DagState, id: EventId) { d.Settled(id) && !d.HasActiveChildren(id) }

  /** `s` holds every collectable target and, with an event, each of its collectable parents. */
  ghost predicate GcClosed(d: DagState, targets: set<EventId>, s: set<EventId>) {
    && (forall t | t in targets && Collectable(d, t) :: t in s)
    && (forall r, p | r in s && r in d.events && p in d.ParentsOf(r) && Collectable(d, p) :: p in s)
  }

  /** The least closed set. */
  ghost function GcSet(d: DagState, targets: set<EventId>): set<EventId> {
    set x | x in d.events && forall s: set<EventId> :: GcClosed(d, targets, s) ==> x in s
  }

  ghost function Collected(d: DagState, targets: set<EventId>): DagState { Without(d, GcSet(d, targets)) }

  /** Any closed set inside all closed sets is the least one. */
  lemma GcSetIs(d: DagState, targets: set<EventId>, r: set<EventId>)
    requires r <= d.events.Keys
    requires GcClosed(d, targets, r)
    requires forall s: set<EventId> :: GcClosed(d, targets, s) ==> r <= s
    ensures GcSet(d, targets) == r
  {
    forall x | x in GcSet(d, targets) ensures x in r { }
    forall x | x in r ensures x in GcSet(d, targets) {
      forall s: set<EventId> | GcClosed(d, targets, s) ensures x in s { assert r <= s; }
    }
  }

  lemma GcSetClosed(d: DagState, targets: set<EventId>)
    ensures GcClosed(d, targets, GcSet(d, targets))
  {
    var g := GcSet(d, targets);
    forall t | t in targets && Collectable(d, t) ensures t in g { }
    forall r, p | r in g && r in d.events && p in d.ParentsOf(r) && Collectable(d, p) ensures p in g {
      forall s: set<EventId> | GcClosed(d, targets, s) ensures p in s { assert r in s; }
    }
  }

  /** The collector takes collectable events only: no active event, and no parent of one. */
  lemma GcSetCollectable(d: DagState, targets: set<EventId>)
    ensures forall x | x in GcSet(d, targets) :: Collectable(d, x)
  {
    var s := set x | x in d.events && Collectable(d, x);
    assert GcClosed(d, targets, s);
  }

  /** A walk from a target along parent edges, through collectable events only. */
  ghost predicate SweepPath(d: DagState, targets: set<EventId>, path: seq<EventId>) {
    && path != [] && path[0] in targets
    && (forall i | 0 <= i < |path| :: Collectable(d, path[i]))
    && (forall i | 0 <= i < |path| - 1 :: path[i + 1] in d.ParentsOf(path[i]))
  }

  ghost predicate Reached(d: DagState, targets: set<EventId>, x: EventId) {
    exists path :: SweepPath(d, targets, path) && path[|path| - 1] == x
  }

  lemma {:induction false} PathIsSwept(d: DagState, targets: set<EventId>, path: seq<EventId>)
    requires SweepPath(d, targets, path)
    ensures path[|path| - 1] in GcSet(d, targets)
    decreases |path|
  {
    GcSetClosed(d, targets);
    if |path| > 1 {
      var k := |path| - 1;
      PathIsSwept(d, targets, path[..k]);
      assert path[k] in d.ParentsOf(path[k - 1]) && Collectable(d, path[k]);
    }
  }

  lemma ReachedIsClosed(d: DagState, targets: set<EventId>, s: set<EventId>)
    requires forall x :: x in s <==> x in d.events && Reached(d, targets, x)
    ensures GcClosed(d, targets, s)
  {
    forall t | t in targets && Collectable(d, t) ensures t in s { assert SweepPath(d, targets, [t]); }
    forall r, p | r in s && r in d.events && p in d.ParentsOf(r) && Collectable(d, p) ensures p in s {
      var path :| SweepPath(d, targets, path) && path[|path| - 1] == r;
      PathGoesOn(d, targets, path, p);
    }
  }

  lemma PathGoesOn(d: DagState, targets: set<EventId>, path: seq<EventId>, p: EventId)
    requires SweepPath(d, targets, path) && p in d.ParentsOf(path[|path| - 1]) && Collectable(d, p)
    ensures Reached(d, targets, p)
  {
    var longer := path + [p];
    assert SweepPath(d, targets, longer) && longer[|longer| - 1] == p;
  }

  /** The collector takes exactly what such walks reach. */
  lemma GcSetIsReached(d: DagState, targets: set<EventId>, x: EventId)
    ensures x in GcSet(d, targets) <==> Reached(d, targets, x)
  {
    var s := set y | y in d.events && Reached(d, targets, y);
    ReachedIsClosed(d, targets, s);
    if Reached(d, targets, x) {
      var path :| SweepPath(d, targets, path) && path[|path| - 1] == x;
      PathIsSwept(d, targets, path);
    }
  }

  // ---- Removing events does not disturb the rest ----

  lemma RemovedIsWithout(d: DagState, id: EventId)
    requires d.Consistent() && id in d.events
    ensures Removed(d, id) == Without(d, {id})
  {
    var a, b := Removed(d, id).children, Without(d, {id}).children;
    forall p | p in a ensures a[p] == b[p] {
      assert id in d.children[p] ==> p in d.ParentsOf(id);
    }
    assert a == b;
  }

  lemma WithoutTwice(d: DagState, r: set<EventId>, s: set<EventId>)
    ensures Without(Without(d, r), s) == Without(d, r + s)
  {
    var a, b := Without(Without(d, r), s).children, Without(d, r + s).children;
    forall p | p in a ensures a[p] == b[p] { }
    assert a == b;
    assert Without(Without(d, r), s).events == Without(d, r + s).events;
    assert Without(Without(d, r), s).depths == Without(d, r + s).depths;
  }

  lemma WithoutNone(d: DagState)
    ensures Without(d, {}) == d
  {
    var a := Without(d, {}).children;
    forall p | p in a ensures a[p] == d.children[p] { }
    assert a == d.children;
  }

  lemma WithoutConsistent(d: DagState, gone: set<EventId>)
    requires d.Consistent()
    ensures Without(d, gone).Consistent()
  {
  }

  /** Taking out Finalized events changes nobody's active children. */
  lemma ActiveChildrenConstant(d: DagState, gone: set<EventId>, id: EventId)
    requires forall x | x in gone :: !d.Active(x)
    requires id !in gone
    ensures Without(d, gone).HasActiveChildren(id) == d.HasActiveChildren(id)
  {
    var w := Without(d, gone);
    if d.HasActiveChildren(id) {
      var c :| c in d.ChildrenOf(id) && d.Active(c);
      assert c in w.ChildrenOf(id) && w.Active(c);
    }
    if w.HasActiveChildren(id) {
      var c :| c in w.ChildrenOf(id) && w.Active(c);
      assert c in d.ChildrenOf(id) && d.Active(c);
    }
  }

  lemma InsertedConsistent(d: DagState, s: Stored, depth: nat)
    requires d.Consistent() && s.event.id !in d.events
    ensures Inserted(d, s, depth).Consistent()
  {
    var n := Inserted(d, s, depth);
    forall p, c | p in n.children && c in n.children[p] ensures c in n.events && p in n.ParentsOf(c) {
      LinkedSound(d, s.event, p, c);
    }
  }

  lemma LinkedSound(d: DagState, e: Event, p: EventId, c: EventId)
    requires d.Consistent() && e.id !in d.events
    requires var n := Linked(d.children, d.events.Keys, e.parents, e.id); p in n && c in n[p]
    ensures (c == e.id && p in e.parents) || (c != e.id && c in d.events && p in d.ParentsOf(c))
  {
    assert c == e.id ==> p !in d.children || c !in d.children[p];
  }

  lemma FinalizedInConsistent(d: DagState, ids: set<EventId>)
    requires d.Consistent()
    ensures FinalizedIn(d, ids).Consistent()
  {
    var n := FinalizedIn(d, ids);
    forall p, c | p in n.children && c in n.children[p] ensures c in n.events && p in n.ParentsOf(c) { }
  }
}
