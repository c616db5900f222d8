/** The DAG of events, changed in place. */
module DagClass {
  import opened Types
  import opened DagModel

  datatype DagError = DuplicateEvent(id: EventId) | MissingParent(parent: EventId)
  datatype AddResult = Ok(id: EventId) | Err(error: DagError)

  /** The first parent that is not in the DAG, if any. */
  function FirstMissing(known: set<EventId>, parents: seq<EventId>): (r: Option<EventId>)
    ensures r.None? <==> forall p | p in parents :: p in known
    ensures r.Some? ==> r.value in parents && r.value !in known
  {
    if parents == [] then None
    else if parents[0] !in known then Some(parents[0])
    else FirstMissing(known, parents[1..])
  }

  lemma {:induction false} FirstMissingIs(known: set<EventId>, parents: seq<EventId>, i: nat)
    requires i < |parents| && parents[i] !in known && forall k | 0 <= k < i :: parents[k] in known
    ensures FirstMissing(known, parents) == Some(parents[i])
    decreases i
  {
    if i > 0 { FirstMissingIs(known, parents[1..], i - 1); }
  }

  /** One more than the deepest parent; 0 without parents. */
  ghost predicate IsDepthFor(depths: map<EventId, nat>, parents: seq<EventId>, depth: nat) {
    && (parents == [] ==> depth == 0)
    && (parents != [] ==>
          && (forall p | p in parents :: p in depths && depths[p] < depth)
          && (exists p | p in parents :: p in depths && depths[p] + 1 == depth))
  }

  // ---- Ancestors by paths ----

  /** A walk along parent edges; every event it leaves is in the DAG. */
  ghost predicate ParentPath(d: DagState, path: seq<EventId>) {
    && |path| >= 2
    && forall i | 0 <= i < |path| - 1 :: path[i] in d.events && path[i + 1] in d.ParentsOf(path[i])
  }

  ghost predicate IsAncestorOf(d: DagState, a: EventId, x: EventId) {
    exists path :: ParentPath(d, path) && path[0] == x && path[|path| - 1] == a
  }

  lemma ParentIsAncestor(d: DagState, x: EventId, p: EventId)
    requires x in d.events && p in d.ParentsOf(x)
    ensures IsAncestorOf(d, p, x)
  {
    assert ParentPath(d, [x, p]);
  }

  lemma AncestorStep(d: DagState, x: EventId, a: EventId, p: EventId)
    requires IsAncestorOf(d, a, x) && a in d.events && p in d.ParentsOf(a)
    ensures IsAncestorOf(d, p, x)
  {
    var path :| ParentPath(d, path) && path[0] == x && path[|path| - 1] == a;
    assert ParentPath(d, path + [p]);
  }

  /** A set that holds x's parents and is closed under parents holds every ancestor of x. */
  lemma {:induction false} ClosedHoldsAncestors(d: DagState, x: EventId, s: set<EventId>, path: seq<EventId>)
    requires x in d.events ==> forall p | p in d.ParentsOf(x) :: p in s
    requires forall a, p | a in s && a in d.events && p in d.ParentsOf(a) :: p in s
    requires ParentPath(d, path) && path[0] == x
    ensures path[|path| - 1] in s
    decreases |path|
  {
    if |path| > 2 {
      var shorter := path[..|path| - 1];
      assert ParentPath(d, shorter);
      ClosedHoldsAncestors(d, x, s, shorter);
    }
  }

  /** Every id an event of the DAG can mention. */
  ghost function Mentioned(d: DagState): set<EventId> {
    d.events.Keys + set id, p | id in d.events && p in d.ParentsOf(id) :: p
  }

  lemma AncestorMentioned(d: DagState, a: EventId, x: EventId)
    requires IsAncestorOf(d, a, x)
    ensures a in Mentioned(d)
  {
    var path :| ParentPath(d, path) && path[0] == x && path[|path| - 1] == a;
    assert path[|path| - 2] in d.events && a in d.ParentsOf(path[|path| - 2]);
  }

  class Dag {
    var events: map<EventId, Stored>
    var children: map<EventId, set<EventId>>
    var depths: map<EventId, nat>
    var tips: set<EventId>
    var maxDepth: nat
    var pending: set<EventId>

    function State(): DagState
      reads this
    {
      DagState(events, children, depths, tips, maxDepth, pending)
    }

    ghost predicate Valid()
      reads this
    {
      State().Consistent()
    }

    constructor ()
      ensures Valid() && State() == EMPTY
    {
      events, children, depths, tips, maxDepth, pending := map[], map[], map[], {}, 0, {};
    }

    /** Adds an event whose parents are all in the DAG. */
    method AddEvent(s: Stored) returns (r: AddResult)
      requires Valid()
      modifies this
      ensures Valid()
      ensures r == (if s.event.id in old(events) then Err(DuplicateEvent(s.event.id))
                    else match FirstMissing(old(events).Keys, s.event.parents)
                         case Some(p) => Err(MissingParent(p))
                         case None => Ok(s.event.id))
      ensures r.Err? ==> State() == old(State())
      ensures r.Ok? ==> exists depth :: IsDepthFor(old(depths), s.event.parents, depth)
                                        && State() == Inserted(old(State()), s, depth)
    {
      var e := s.event;
      if e.id in events {
        return Err(DuplicateEvent(e.id));
      }
      var missing, depth := DepthOver(e);
      if missing.Some? {
        return Err(MissingParent(missing.value));
      }
      Insert(s, depth);
      r := Ok(e.id);
    }

    /** One more than the deepest parent, or the first parent that is not there. */
    method DepthOver(e: Event) returns (missing: Option<EventId>, depth: nat)
      requires Valid()
      ensures missing == FirstMissing(events.Keys, e.parents)
      ensures missing.None? ==> IsDepthFor(depths, e.parents, depth)
    {
      var deepest: nat := 0;
      var i := 0;
      ghost var at := 0;
      while i < |e.parents|
        invariant 0 <= i <= |e.parents|
        invariant forall k | 0 <= k < i :: e.parents[k] in events && depths[e.parents[k]] <= deepest
        invariant i > 0 ==> 0 <= at < i && depths[e.parents[at]] == deepest
      {
        var p := e.parents[i];
        if p !in events {
          FirstMissingIs(events.Keys, e.parents, i);
          return Some(p), 0;
        }
        if i == 0 || deepest < depths[p] {
          deepest, at := depths[p], i;
        }
        i := i + 1;
      }
      depth := if e.parents == [] then 0 else deepest + 1;
      missing := None;
    }

    /** Adds an event at a depth computed earlier, without asking for its parents. */
    method AddEventWithDepth(s: Stored, depth: nat) returns (r: AddResult)
      requires Valid()
      modifies this
      ensures Valid()
      ensures r == if s.event.id in old(events) then Err(DuplicateEvent(s.event.id)) else Ok(s.event.id)
      ensures State() == if r.Ok? then Inserted(old(State()), s, depth) else old(State())
    {
      if s.event.id in events {
        return Err(DuplicateEvent(s.event.id));
      }
      Insert(s, depth);
      r := Ok(s.event.id);
    }

    method Insert(s: Stored, depth: nat)
      requires Valid() && s.event.id !in events
      modifies this
      ensures Valid() && State() == Inserted(old(State()), s, depth)
    {
      InsertedConsistent(State(), s, depth);
      var e := s.event;
      LinkParents(e);
      events := events[e.id := s];
      depths := depths[e.id := depth];
      tips := tips + {e.id};
      pending := pending + {e.id};
      maxDepth := if maxDepth < depth then depth else maxDepth;
    }

    /** Indexes the new event under its in-DAG parents, which stop being tips. */
    method LinkParents(e: Event)
      modifies this`children, this`tips
      ensures children == Linked(old(children), events.Keys, e.parents, e.id)
      ensures tips == old(tips) - Known(e.parents, events.Keys)
    {
      var i := 0;
      LinkedNone(children, events.Keys, e.id);
      while i < |e.parents|
        invariant 0 <= i <= |e.parents|
        invariant children == Linked(old(children), events.Keys, e.parents[..i], e.id)
        invariant tips == old(tips) - Known(e.parents[..i], events.Keys)
      {
        var p := e.parents[i];
        assert e.parents[..i + 1] == e.parents[..i] + [p];
        TipsStep(old(tips), e.parents[..i], events.Keys, p);
        LinkedStep(old(children), events.Keys, e.parents[..i], p, e.id);
        if p in events {
          children := children[p := (if p in children then children[p] else {}) + {e.id}];
          tips := tips - {p};
        }
        i := i + 1;
      }
      assert e.parents[..i] == e.parents;
    }

    method FinalizeEvents(ids: seq<EventId>)
      requires Valid()
      modifies this
      ensures Valid() && State() == FinalizedIn(old(State()), IdSet(ids))
    {
      FinalizedInConsistent(State(), IdSet(ids));
      var i := 0;
      assert Marked(events, IdSet([])) == events;
      while i < |ids|
        invariant 0 <= i <= |ids|
        invariant events == Marked(old(events), IdSet(ids[..i]))
        invariant pending == old(pending) - IdSet(ids[..i])
        invariant children == old(children) && depths == old(depths) && tips == old(tips)
        invariant maxDepth == old(maxDepth)
      {
        assert IdSet(ids[..i + 1]) == IdSet(ids[..i]) + {ids[i]};
        MarkedStep(old(events), IdSet(ids[..i]), ids[i]);
        if ids[i] in events {
          events := events[ids[i] := events[ids[i]].(status := Finalized)];
        }
        pending := pending - {ids[i]};
        i := i + 1;
      }
      assert ids[..i] == ids;
    }

    /** Removes an event unless it has an active child; returns its parents when removed. */
    method RemoveEvent(id: EventId) returns (r: Option<seq<EventId>>)
      requires Valid()
      modifies this
      ensures Valid()
      ensures r.Some? <==> id in old(events) && !old(State()).HasActiveChildren(id)
      ensures r.Some? ==> r.value == old(State()).ParentsOf(id) && State() == Without(old(State()), {id})
      ensures r.None? ==> State() == old(State())
    {
      if State().HasActiveChildren(id) || id !in events {
        return None;
      }
      RemovedIsWithout(State(), id);
      WithoutConsistent(State(), {id});
      var parents := events[id].event.parents;
      events := events - {id};
      depths := depths - {id};
      tips := tips - {id};
      pending := pending - {id};
      UnlinkParents(parents, id);
      children := children - {id};
      r := Some(parents);
    }

    method UnlinkParents(parents: seq<EventId>, id: EventId)
      modifies this`children
      ensures children == Unlinked(old(children), parents, id)
    {
      var i := 0;
      assert Unlinked(children, [], id) == children;
      while i < |parents|
        invariant 0 <= i <= |parents|
        invariant children == Unlinked(old(children), parents[..i], id)
      {
        assert parents[..i + 1] == parents[..i] + [parents[i]];
        UnlinkedStep(old(children), parents[..i], parents[i], id);
        if parents[i] in children {
          children := children[parents[i] := children[parents[i]] - {id}];
        }
        i := i + 1;
      }
      assert parents[..i] == parents;
    }

    /** Pushes those parents that are in the DAG and Finalized. */
    method QueueParents(queue: seq<EventId>, parents: seq<EventId>) returns (q: seq<EventId>)
      ensures queue <= q
      ensures forall x | x in q :: x in queue || (x in parents && State().Settled(x))
      ensures forall p | p in parents && State().Settled(p) :: p in q
    {
      q := queue;
      for i := 0 to |parents|
        invariant queue <= q
        invariant forall x | x in q :: x in queue || (x in parents && State().Settled(x))
        invariant forall k | 0 <= k < i && State().Settled(parents[k]) :: parents[k] in q
      {
        if parents[i] in events && events[parents[i]].status == Finalized {
          q := q + [parents[i]];
        }
      }
    }

    /** One turn of the collector's loop, for an id just popped. */
    method CollectOne(id: EventId, rest: seq<EventId>, ghost d: DagState, ghost targets: set<EventId>,
                      ghost gone: set<EventId>)
      returns (ok: bool, queue: seq<EventId>)
      requires Valid() && State() == Without(d, gone)
      requires GcProgress(d, targets, gone, [id] + rest)
      requires forall t | t in targets && t in d.events :: d.Settled(t)
      modifies this
      ensures Valid() && rest <= queue && (!ok ==> queue == rest)
      ensures ok <==> id !in gone && Collectable(d, id)
      ensures State() == Without(d, if ok then gone + {id} else gone)
      ensures GcProgress(d, targets, if ok then gone + {id} else gone, queue)
      ensures !ok && id in events ==> d.HasActiveChildren(id)
    {
      GcPopped(d, targets, gone, id, rest);
      var r := RemoveEvent(id);
      if r.Some? {
        WithoutTwice(d, gone, {id});
        queue := QueueParents(rest, r.value);
        GcProgressRemoved(d, targets, gone, id, rest, queue);
        ok := true;
      } else {
        GcProgressKept(d, targets, gone, id, rest);
        ok, queue := false, rest;
      }
    }

    /** Work-queue collection.  The targets must have been finalized first; then the events
        removed are exactly the least closed set, whatever the order of the queue. */
    method GcFinalizedEvents(ids: seq<EventId>) returns (removed: nat, retained: nat)
      requires Valid()
      requires forall t | t in ids && t in events :: events[t].status == Finalized
      modifies this
      ensures Valid()
      ensures State() == Collected(old(State()), IdSet(ids))
      ensures removed == |GcSet(old(State()), IdSet(ids))|
      ensures retained == 0 <==> forall t | t in ids :: t !in events
    {
      ghost var d := State();
      ghost var targets := IdSet(ids);
      ghost var gone: set<EventId> := {};
      removed, retained := 0, 0;
      var queue := ids;
      WithoutNone(d);
      while queue != []
        invariant Valid() && State() == Without(d, gone)
        invariant GcLoop(d, targets, gone, queue, removed, retained)
        decreases events.Keys, |queue|
      {
        queue, removed, retained, gone := CollectNext(queue, ids, removed, retained, d, gone);
      }
      assert queue == [];
      GcDone(d, targets, gone, retained);
    }

    /** One turn of the collector's loop: the first id of the queue is removed or kept. */
    method CollectNext(queue: seq<EventId>, ids: seq<EventId>, removed: nat, retained: nat, ghost d: DagState,
                       ghost gone: set<EventId>)
      returns (next: seq<EventId>, nowRemoved: nat, nowRetained: nat, ghost nowGone: set<EventId>)
      requires Valid() && State() == Without(d, gone) && queue != []
      requires GcLoop(d, IdSet(ids), gone, queue, removed, retained)
      requires forall t | t in IdSet(ids) && t in d.events :: d.Settled(t)
      modifies this
      ensures Valid() && State() == Without(d, nowGone)
      ensures GcLoop(d, IdSet(ids), nowGone, next, nowRemoved, nowRetained)
      ensures events.Keys < old(events.Keys) || (events.Keys == old(events.Keys) && |next| < |queue|)
    {
      var id := queue[0];
      assert queue == [id] + queue[1..];
      var ok;
      ok, next := CollectOne(id, queue[1..], d, IdSet(ids), gone);
      RetentionStep(d, IdSet(ids), gone, id, queue, next, ok, retained);
      nowRemoved, nowRetained, nowGone := removed, retained, gone;
      if ok {
        nowRemoved, nowGone := removed + 1, gone + {id};
      } else if id in ids && id in events {
        nowRetained := retained + 1;
      }
    }

    /** Every ancestor of x that the DAG knows the way to, ids of missing events included. */
    method GetAncestors(x: EventId) returns (ancestors: set<EventId>)
      requires Valid()
      ensures forall a :: a in ancestors <==> IsAncestorOf(State(), a, x)
    {
      ghost var d := State();
      ancestors := {};
      var queue := if x in events then events[x].event.parents else [];
      assert forall p | p in queue :: p in d.ParentsOf(x);
      forall p | p in queue ensures IsAncestorOf(d, p, x) { ParentIsAncestor(d, x, p); }
      while queue != []
        invariant forall a | a in ancestors :: IsAncestorOf(d, a, x)
        invariant forall a | a in queue :: IsAncestorOf(d, a, x)
        invariant x in events ==> forall p | p in d.ParentsOf(x) :: p in ancestors || p in queue
        invariant forall a, p | a in ancestors && a in events && p in d.ParentsOf(a) :: p in ancestors || p in queue
        decreases Mentioned(d) - ancestors, |queue|
      {
        var current := queue[0];
        assert queue == [current] + queue[1..];
        queue := queue[1..];
        AncestorMentioned(d, current, x);
        if current !in ancestors {
          ancestors := ancestors + {current};
          if current in events {
            forall p | p in d.ParentsOf(current) ensures IsAncestorOf(d, p, x) {
              AncestorStep(d, x, current, p);
            }
            queue := queue + events[current].event.parents;
          }
        }
      }
      forall a | IsAncestorOf(d, a, x) ensures a in ancestors {
        var path :| ParentPath(d, path) && path[0] == x && path[|path| - 1] == a;
        ClosedHoldsAncestors(d, x, ancestors, path);
      }
    }

    /** Breadth-first search upwards from the descendant, stopping at the ancestor. */
    method IsAncestor(ancestor: EventId, descendant: EventId) returns (r: bool)
      requires Valid()
      ensures r <==> ancestor != descendant && IsAncestorOf(State(), ancestor, descendant)
    {
      if ancestor == descendant {
        return false;
      }
      ghost var d := State();
      var visited: set<EventId> := {};
      var queue := [descendant];
      while queue != []
        invariant forall v | v in visited :: v == descendant || IsAncestorOf(d, v, descendant)
        invariant forall q | q in queue :: q == descendant || IsAncestorOf(d, q, descendant)
        invariant descendant in visited || descendant in queue
        invariant forall v, p | v in visited && v in events && p in d.ParentsOf(v) ::
                    p != ancestor && (p in visited || p in queue)
        invariant ancestor !in visited && ancestor !in queue
        decreases Mentioned(d) + {descendant} - visited, |queue|
      {
        var current := queue[0];
        assert queue == [current] + queue[1..];
        queue := queue[1..];
        if current != descendant { AncestorMentioned(d, current, descendant); }
        if current !in visited {
          visited := visited + {current};
          if current in events {
            forall p | p in d.ParentsOf(current) ensures IsAncestorOf(d, p, descendant) {
              if current == descendant { ParentIsAncestor(d, current, p); }
              else { AncestorStep(d, descendant, current, p); }
            }
            if ancestor in events[current].event.parents {
              return true;
            }
            queue := queue + events[current].event.parents;
          }
        }
      }
      if IsAncestorOf(d, ancestor, descendant) {
        var path :| ParentPath(d, path) && path[0] == descendant && path[|path| - 1] == ancestor;
        ClosedHoldsAncestors(d, descendant, visited, path);
      }
      r := false;
    }
  }

  // ---- The collector's queue ----

  /** A queued id was a target, or is a Finalized parent of an event already removed. */
  ghost predicate Justified(d: DagState, targets: set<EventId>, gone: set<EventId>, q: EventId) {
    || q in targets
    || (d.Settled(q) && exists r | r in gone :: r in d.events && q in d.ParentsOf(r))
  }

  /** Whatever still has to go is on the queue. */
  ghost predicate Covered(d: DagState, targets: set<EventId>, gone: set<EventId>, queue: seq<EventId>) {
    && (forall t | t in targets && Collectable(d, t) :: t in gone || t in queue)
    && (forall r, p | r in gone && r in d.events && p in d.ParentsOf(r) && Collectable(d, p) :: p in gone || p in queue)
  }

  ghost predicate GcProgress(d: DagState, targets: set<EventId>, gone: set<EventId>, queue: seq<EventId>) {
    && (forall x | x in gone :: Collectable(d, x))
    && (forall q | q in queue :: Justified(d, targets, gone, q))
    && (forall s: set<EventId> :: GcClosed(d, targets, s) ==> gone <= s)
    && Covered(d, targets, gone, queue)
  }

  /** What holds between two turns of the loop. */
  ghost predicate GcLoop(d: DagState, targets: set<EventId>, gone: set<EventId>, queue: seq<EventId>, removed: nat,
                         retained: nat)
  {
    && removed == |gone| && gone <= d.events.Keys
    && GcProgress(d, targets, gone, queue) && Retention(d, targets, gone, queue, retained)
  }

  /** A count of zero means every surviving target is still queued; a positive one, that some
      target has active children and so survives. */
  ghost predicate Retention(d: DagState, targets: set<EventId>, gone: set<EventId>, queue: seq<EventId>, count: nat) {
    && (count == 0 ==> forall t | t in targets && t in d.events :: t in gone || t in queue)
    && (count > 0 ==> exists t | t in targets :: t in d.events && d.HasActiveChildren(t))
  }

  lemma RetentionStep(d: DagState, targets: set<EventId>, gone: set<EventId>, id: EventId, queue: seq<EventId>,
                      next: seq<EventId>, ok: bool, count: nat)
    requires queue != [] && id == queue[0] && queue[1..] <= next
    requires Retention(d, targets, gone, queue, count)
    requires ok <==> id !in gone && Collectable(d, id)
    requires !ok && id in d.events && id !in gone ==> d.HasActiveChildren(id)
    ensures Retention(d, targets, if ok then gone + {id} else gone, next,
                      if !ok && id in targets && id in Without(d, gone).events then count + 1 else count)
  {
    assert forall x | x in queue :: x == id || x in queue[1..];
  }

  /** Popping an id: `RemoveEvent` will succeed exactly when it is collectable and not yet gone. */
  lemma GcPopped(d: DagState, targets: set<EventId>, gone: set<EventId>, id: EventId, rest: seq<EventId>)
    requires GcProgress(d, targets, gone, [id] + rest)
    requires forall t | t in targets && t in d.events :: d.Settled(t)
    ensures var w := Without(d, gone);
            id in w.events && !w.HasActiveChildren(id) <==> id !in gone && Collectable(d, id)
    ensures id in d.events && id !in gone && !Collectable(d, id) ==> d.HasActiveChildren(id)
  {
    assert Justified(d, targets, gone, id);
    if id !in gone { ActiveChildrenConstant(d, gone, id); }
  }

  lemma GcProgressRemoved(d: DagState, targets: set<EventId>, gone: set<EventId>, id: EventId,
                          rest: seq<EventId>, queue: seq<EventId>)
    requires GcProgress(d, targets, gone, [id] + rest)
    requires Collectable(d, id) && id !in gone
    requires rest <= queue
    requires forall q | q in queue :: q in rest || (q in d.ParentsOf(id) && Without(d, gone + {id}).Settled(q))
    requires forall p | p in d.ParentsOf(id) && Without(d, gone + {id}).Settled(p) :: p in queue
    ensures GcProgress(d, targets, gone + {id}, queue)
  {
    var now := gone + {id};
    forall q | q in queue ensures Justified(d, targets, now, q) {
      if q in rest { assert Justified(d, targets, gone, q); }
    }
    forall s: set<EventId> | GcClosed(d, targets, s) ensures now <= s {
      assert Justified(d, targets, gone, id) && gone <= s;
    }
    forall r, p | r in now && r in d.events && p in d.ParentsOf(r) && Collectable(d, p)
      ensures p in now || p in queue
    {
      if r == id {
        assert p in now || Without(d, now).Settled(p);
      } else {
        assert p in gone || p in [id] + rest;
      }
    }
  }

  lemma GcProgressKept(d: DagState, targets: set<EventId>, gone: set<EventId>, id: EventId, rest: seq<EventId>)
    requires GcProgress(d, targets, gone, [id] + rest)
    requires id in gone || !Collectable(d, id)
    ensures GcProgress(d, targets, gone, rest)
  {
    assert forall x | x in [id] + rest :: x == id || x in rest;
  }

  lemma GcDone(d: DagState, targets: set<EventId>, gone: set<EventId>, retained: nat)
    requires gone <= d.events.Keys && GcProgress(d, targets, gone, []) && Retention(d, targets, gone, [], retained)
    ensures GcSet(d, targets) == gone
    ensures retained == 0 <==> forall t | t in targets :: t !in Without(d, gone).events
  {
    GcSetIs(d, targets, gone);
  }
}
