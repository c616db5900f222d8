/** Applying committed events to the state: canonical order, stale reads skipped. */
module StateApply {
  import opened Types
  import opened Order
  import opened FoldPolicy

  type Cells = map<WriteKey, Value>

  /** Who last changed an object, and at which finalized depth. */
  datatype Change = Change(event: EventId, depth: nat)

  /** `subnets` are those that have a state tree, be it empty: looking a cell up creates one. */
  datatype GlobalState = GlobalState(cells: Cells, subnets: set<SubnetId>, tracker: map<ObjectId, Change>,
                                     lastDepth: nat)

  /** A node's first state: the two system subnets have their trees, and nothing is written. */
  const INITIAL := GlobalState(map[], {ROOT, GOVERNANCE}, map[], 0)

  datatype Verdict = NoResult | ExecFailed | Conflicted(oid: ObjectId) | Applied

  function Cell(cells: Cells, k: WriteKey): Option<Value> { if k in cells then Some(cells[k]) else None }

  /** The value a change would find: what the event itself wrote before, else the state. */
  function Current(cells: Cells, written: map<WriteKey, Option<Value>>, k: WriteKey): Option<Value> {
    if k in written then written[k] else Cell(cells, k)
  }

  predicate Clashes(cells: Cells, written: map<WriteKey, Option<Value>>, k: WriteKey, c: StateChange) {
    if c.oldValue.Some? then Current(cells, written, k) != c.oldValue
    else c.newValue.Some? && ((k in written && written[k].Some?) || k in cells)
  }

  /** The first change whose expectation does not hold. */
  function FirstClash(cells: Cells, e: Event, changes: seq<StateChange>, written: map<WriteKey, Option<Value>>)
    : Option<ObjectId>
  {
    if changes == [] then None
    else
      var c := changes[0];
      var k := e.KeyOf(c);
      if Clashes(cells, written, k, c) then Some(c.oid)
      else FirstClash(cells, e, changes[1..], written[k := c.newValue])
  }

  /** The subnets whose tree the check looks into before it stops. */
  function Probed(cells: Cells, e: Event, changes: seq<StateChange>, written: map<WriteKey, Option<Value>>)
    : set<SubnetId>
  {
    if changes == [] then {}
    else
      var c := changes[0];
      var k := e.KeyOf(c);
      var looks := (c.oldValue.Some? && k !in written) || (c.oldValue.None? && c.newValue.Some?);
      var here := if looks then {k.subnet} else {};
      if Clashes(cells, written, k, c) then here
      else here + Probed(cells, e, changes[1..], written[k := c.newValue])
  }

  function WriteOne(cells: Cells, k: WriteKey, c: StateChange): Cells {
    if c.newValue.Some? then cells[k := c.newValue.value] else cells - {k}
  }

  function WriteAll(cells: Cells, e: Event, changes: seq<StateChange>): Cells
    decreases |changes|
  {
    if changes == [] then cells
    else WriteAll(WriteOne(cells, e.KeyOf(changes[0]), changes[0]), e, changes[1..])
  }

  function Targets(e: Event, changes: seq<StateChange>): set<SubnetId> {
    if changes == [] then {} else {e.KeyOf(changes[0]).subnet} + Targets(e, changes[1..])
  }

  function Tracked(tracker: map<ObjectId, Change>, e: Event, changes: seq<StateChange>, depth: nat)
    : map<ObjectId, Change>
  {
    if changes == [] then tracker
    else Tracked(tracker, e, changes[..|changes| - 1], depth)[changes[|changes| - 1].oid := Change(e.id, depth)]
  }

  /** What one event does to the cells it finds. */
  datatype Effect = Effect(verdict: Verdict, cells: Cells, touched: set<SubnetId>)

  function EffectOf(cells: Cells, e: Event): Effect {
    if e.result.None? then Effect(NoResult, cells, {})
    else if !e.result.value.success then Effect(ExecFailed, cells, {})
    else
      var changes := e.result.value.changes;
      match FirstClash(cells, e, changes, map[])
      case Some(oid) => Effect(Conflicted(oid), cells, Probed(cells, e, changes, map[]))
      case None => Effect(Applied, WriteAll(cells, e, changes),
                          Probed(cells, e, changes, map[]) + Targets(e, changes) + {e.SubnetOrRoot()})
  }

  function StepEvent(g: GlobalState, e: Event, depth: nat): GlobalState {
    var f := EffectOf(g.cells, e);
    GlobalState(f.cells, g.subnets + f.touched,
                if f.verdict.Applied? then Tracked(g.tracker, e, e.result.value.changes, depth) else g.tracker,
                g.lastDepth)
  }

  /** Events applied in the order given, with each one's verdict. */
  datatype ApplyResult = ApplyResult(state: GlobalState, verdicts: map<EventId, Verdict>)

  function ApplyAll(g: GlobalState, events: seq<Event>, depth: nat): ApplyResult {
    if events == [] then ApplyResult(g, map[])
    else
      var before := ApplyAll(g, events[..|events| - 1], depth);
      var e := events[|events| - 1];
      ApplyResult(StepEvent(before.state, e, depth), before.verdicts[e.id := EffectOf(before.state.cells, e).verdict])
  }

  function ApplyCommitted(g: GlobalState, events: seq<Event>, depth: nat): ApplyResult {
    ApplyAll(g.(lastDepth := if g.lastDepth < depth then depth else g.lastDepth), SortByVlc(events), depth)
  }

  method ApplyCommittedEvents(g: GlobalState, events: seq<Event>, depth: nat) returns (r: ApplyResult)
    ensures r == ApplyCommitted(g, events, depth)
  {
    var g0 := g.(lastDepth := if g.lastDepth < depth then depth else g.lastDepth);
    var sorted := SortByVlc(events);
    r := ApplyResult(g0, map[]);
    for i := 0 to |sorted|
      invariant r == ApplyAll(g0, sorted[..i], depth)
    {
      var e := sorted[i];
      assert sorted[..i + 1][..i] == sorted[..i] && sorted[..i + 1][i] == e;
      r := ApplyResult(StepEvent(r.state, e, depth), r.verdicts[e.id := EffectOf(r.state.cells, e).verdict]);
    }
    assert sorted[..|sorted|] == sorted;
  }

  /** The order of arrival does not matter: the whole result is the same. */
  lemma ApplyForgetsOrder(g: GlobalState, a: seq<Event>, b: seq<Event>, depth: nat)
    requires multiset(a) == multiset(b) && DistinctIds(a)
    ensures ApplyCommitted(g, a, depth) == ApplyCommitted(g, b, depth)
  {
    SortForgetsOrder(a, b);
  }

  function StateRoot(g: GlobalState): Digest { if g.subnets == {} then Zero else StateRootOf(g.cells, g.subnets) }

  // ---- An event reads and writes its own keys only ----

  ghost predicate Agree(a: Cells, b: Cells, keys: set<WriteKey>) { forall k | k in keys :: Cell(a, k) == Cell(b, k) }

  lemma {:induction false} ClashIsLocal(a: Cells, b: Cells, e: Event, changes: seq<StateChange>,
                                        written: map<WriteKey, Option<Value>>, keys: set<WriteKey>)
    requires Agree(a, b, keys) && forall c | c in changes :: e.KeyOf(c) in keys
    ensures FirstClash(a, e, changes, written) == FirstClash(b, e, changes, written)
    ensures Probed(a, e, changes, written) == Probed(b, e, changes, written)
    decreases |changes|
  {
    if changes != [] {
      var c := changes[0];
      var k := e.KeyOf(c);
      assert c in changes && Cell(a, k) == Cell(b, k);
      ClashIsLocal(a, b, e, changes[1..], written[k := c.newValue], keys);
    }
  }

  lemma {:induction false} WriteIsLocal(a: Cells, b: Cells, e: Event, changes: seq<StateChange>, keys: set<WriteKey>)
    requires Agree(a, b, keys) && forall c | c in changes :: e.KeyOf(c) in keys
    ensures Agree(WriteAll(a, e, changes), WriteAll(b, e, changes), keys)
    ensures forall k | k !in keys :: Cell(WriteAll(a, e, changes), k) == Cell(a, k)
    decreases |changes|
  {
    if changes != [] {
      var c := changes[0];
      var k := e.KeyOf(c);
      assert c in changes;
      WriteIsLocal(WriteOne(a, k, c), WriteOne(b, k, c), e, changes[1..], keys);
    }
  }

  lemma EffectIsLocal(a: Cells, b: Cells, e: Event)
    requires Agree(a, b, WriteKeys(e))
    ensures EffectOf(a, e).verdict == EffectOf(b, e).verdict
    ensures EffectOf(a, e).touched == EffectOf(b, e).touched
    ensures Agree(EffectOf(a, e).cells, EffectOf(b, e).cells, WriteKeys(e))
    ensures forall k | k !in WriteKeys(e) :: Cell(EffectOf(a, e).cells, k) == Cell(a, k)
  {
    if e.result.Some? && e.result.value.success {
      var changes := e.result.value.changes;
      ClashIsLocal(a, b, e, changes, map[], WriteKeys(e));
      WriteIsLocal(a, b, e, changes, WriteKeys(e));
    }
  }

  // ---- Independent events commute ----

  ghost predicate VerdictsAlone(cells: Cells, events: seq<Event>, verdicts: map<EventId, Verdict>) {
    && (forall e | e in events :: e.id in verdicts && verdicts[e.id] == EffectOf(cells, e).verdict)
    && (forall id | id in verdicts :: exists e | e in events :: e.id == id)
  }

  ghost predicate Untouched(events: seq<Event>, k: WriteKey) { forall e | e in events :: k !in WriteKeys(e) }

  ghost predicate CellsAlone(cells: Cells, events: seq<Event>, after: Cells) {
    && (forall e, k | e in events && k in WriteKeys(e) :: Cell(after, k) == Cell(EffectOf(cells, e).cells, k))
    && (forall k {:trigger Untouched(events, k)} | Untouched(events, k) :: Cell(after, k) == Cell(cells, k))
  }

  ghost predicate SubnetsAlone(g: GlobalState, events: seq<Event>, after: set<SubnetId>) {
    forall s :: s in after <==> s in g.subnets || exists e | e in events :: s in EffectOf(g.cells, e).touched
  }

  /** `r` is what every event of the list, on its own, makes of the state `g`. */
  ghost predicate EachAlone(g: GlobalState, events: seq<Event>, r: ApplyResult) {
    && VerdictsAlone(g.cells, events, r.verdicts)
    && CellsAlone(g.cells, events, r.state.cells)
    && SubnetsAlone(g, events, r.state.subnets)
    && r.state.lastDepth == g.lastDepth
  }

  lemma OneMoreAlone(g: GlobalState, done: seq<Event>, before: ApplyResult, e: Event, depth: nat)
    requires EachAlone(g, done, before)
    requires forall x | x in done :: x.id != e.id && !Conflict(x, e)
    ensures EachAlone(g, done + [e], ApplyResult(StepEvent(before.state, e, depth),
                                                 before.verdicts[e.id := EffectOf(before.state.cells, e).verdict]))
  {
    var now := before.state.cells;
    forall k | k in WriteKeys(e) ensures Cell(now, k) == Cell(g.cells, k) { assert Untouched(done, k); }
    EffectIsLocal(now, g.cells, e);
    var f := EffectOf(now, e);
    assert e in done + [e];
    assert VerdictsAlone(g.cells, done + [e], before.verdicts[e.id := f.verdict]) by {
      forall id | id in before.verdicts ensures exists x | x in done + [e] :: x.id == id {
        var x :| x in done && x.id == id;
        assert x in done + [e];
      }
    }
    OneMoreCells(g.cells, done, now, e);
    OneMoreSubnet(g, done, before.state.subnets, e, f.touched);
  }

  lemma OneMoreCells(cells: Cells, done: seq<Event>, now: Cells, e: Event)
    requires CellsAlone(cells, done, now) && Agree(now, cells, WriteKeys(e))
    requires forall x | x in done :: !Conflict(x, e)
    ensures CellsAlone(cells, done + [e], EffectOf(now, e).cells)
  {
    EffectIsLocal(now, cells, e);
    var after := EffectOf(now, e).cells;
    forall x, k | x in done + [e] && k in WriteKeys(x) ensures Cell(after, k) == Cell(EffectOf(cells, x).cells, k) {
      if x in done {
        assert !Conflict(x, e);
        assert k !in WriteKeys(e);
      }
    }
    forall k | Untouched(done + [e], k) ensures Cell(after, k) == Cell(cells, k) {
      assert e in done + [e];
      assert Untouched(done, k) by { forall x | x in done ensures k !in WriteKeys(x) { assert x in done + [e]; } }
    }
  }

  lemma OneMoreSubnet(g: GlobalState, done: seq<Event>, before: set<SubnetId>, e: Event, touched: set<SubnetId>)
    requires SubnetsAlone(g, done, before) && touched == EffectOf(g.cells, e).touched
    ensures SubnetsAlone(g, done + [e], before + touched)
  {
    forall s
      ensures s in before + touched <==>
              s in g.subnets || exists x | x in done + [e] :: s in EffectOf(g.cells, x).touched
    {
      assert e in done + [e];
      if x :| x in done && s in EffectOf(g.cells, x).touched { assert x in done + [e]; }
    }
  }

  lemma LastIsApart(events: seq<Event>)
    requires events != [] && Independent(events) && DistinctIds(events)
    ensures forall x | x in events[..|events| - 1] ::
              x.id != events[|events| - 1].id && !Conflict(x, events[|events| - 1])
  {
    var k := |events| - 1;
    forall x | x in events[..k] ensures x.id != events[k].id && !Conflict(x, events[k]) {
      var i :| 0 <= i < k && events[..k][i] == x;
      assert events[i] == x;
    }
  }

  /** Independent events: each gets the verdict, and writes the values, it would have alone. */
  lemma {:induction false} IndependentActAlone(g: GlobalState, events: seq<Event>, depth: nat)
    requires Independent(events) && DistinctIds(events)
    ensures EachAlone(g, events, ApplyAll(g, events, depth))
    decreases |events|
  {
    if events != [] {
      var k := |events| - 1;
      var done := events[..k];
      IndependentActAlone(g, done, depth);
      LastIsApart(events);
      OneMoreAlone(g, done, ApplyAll(g, done, depth), events[k], depth);
      assert done + [events[k]] == events;
    }
  }

  lemma IndependentAnyOrder(a: seq<Event>, b: seq<Event>)
    requires multiset(a) == multiset(b) && DistinctIds(a) && Independent(a)
    ensures Independent(b) && DistinctIds(b)
  {
    DistinctKept(a, b);
    SameElements(a, b);
    forall i, j | 0 <= i < j < |b| ensures !Conflict(b[i], b[j]) {
      assert b[i] in a && b[j] in a && b[i] != b[j];
      var p :| 0 <= p < |a| && a[p] == b[i];
      var q :| 0 <= q < |a| && a[q] == b[j];
      if p < q { assert !Conflict(a[p], a[q]); } else { assert !Conflict(a[q], a[p]); }
    }
  }

  /** What the kept events do to cells, subnets and verdicts is the same in every order. */
  lemma KeptEventsCommute(g: GlobalState, events: seq<Event>, a: seq<Event>, b: seq<Event>, depth: nat)
    requires DistinctIds(events) && multiset(a) == multiset(Fold(events).kept) == multiset(b)
    ensures var x, y := ApplyAll(g, a, depth), ApplyAll(g, b, depth);
            && x.state.cells == y.state.cells && x.state.subnets == y.state.subnets
            && x.state.lastDepth == y.state.lastDepth
            && x.verdicts == y.verdicts && StateRoot(x.state) == StateRoot(y.state)
  {
    KeptIsSorted(events);
    ScanDisjoint(SortByVlc(events), {});
    IndependentAnyOrder(Fold(events).kept, a);
    IndependentAgree(g, a, b, depth);
  }

  lemma IndependentAgree(g: GlobalState, a: seq<Event>, b: seq<Event>, depth: nat)
    requires multiset(a) == multiset(b) && DistinctIds(a) && Independent(a)
    ensures var x, y := ApplyAll(g, a, depth), ApplyAll(g, b, depth);
            && x.state.cells == y.state.cells && x.state.subnets == y.state.subnets
            && x.state.lastDepth == y.state.lastDepth
            && x.verdicts == y.verdicts
  {
    IndependentAnyOrder(a, b);
    IndependentActAlone(g, a, depth);
    IndependentActAlone(g, b, depth);
    SameElements(a, b);
    AloneIsUnique(g, a, b, ApplyAll(g, a, depth), ApplyAll(g, b, depth));
  }

  lemma AloneIsUnique(g: GlobalState, a: seq<Event>, b: seq<Event>, x: ApplyResult, y: ApplyResult)
    requires EachAlone(g, a, x) && EachAlone(g, b, y) && forall e :: e in a <==> e in b
    ensures x.state.cells == y.state.cells && x.state.subnets == y.state.subnets && x.verdicts == y.verdicts
  {
    forall k ensures Cell(x.state.cells, k) == Cell(y.state.cells, k) {
      if Untouched(a, k) {
        assert Untouched(b, k);
      } else {
        var e :| e in a && k in WriteKeys(e);
        assert e in b;
      }
    }
    SameCells(x.state.cells, y.state.cells);
    VerdictsUnique(g.cells, a, b, x.verdicts, y.verdicts);
  }

  lemma SameCells(a: Cells, b: Cells)
    requires forall k :: Cell(a, k) == Cell(b, k)
    ensures a == b
  {
    forall k ensures k in a <==> k in b { assert Cell(a, k) == Cell(b, k); }
    forall k | k in a ensures a[k] == b[k] { assert Cell(a, k) == Cell(b, k); }
  }

  lemma VerdictsUnique(cells: Cells, a: seq<Event>, b: seq<Event>, x: map<EventId, Verdict>, y: map<EventId, Verdict>)
    requires VerdictsAlone(cells, a, x) && VerdictsAlone(cells, b, y) && forall e :: e in a <==> e in b
    ensures x == y
  {
    forall id | id in x ensures id in y && x[id] == y[id] { var e :| e in a && e.id == id; assert e in b; }
    forall id | id in y ensures id in x { var e :| e in b && e.id == id; assert e in a; }
  }

  // ---- The modification tracker is keyed by object id alone ----

  function Objects(changes: seq<StateChange>): set<ObjectId> { set c | c in changes :: c.oid }

  lemma {:induction false} TrackedAt(t: map<ObjectId, Change>, e: Event, changes: seq<StateChange>, depth: nat,
                                     oid: ObjectId)
    ensures var r := Tracked(t, e, changes, depth);
            && (oid in Objects(changes) ==> oid in r && r[oid] == Change(e.id, depth))
            && (oid !in Objects(changes) ==> (oid in r <==> oid in t) && (oid in t ==> r[oid] == t[oid]))
    decreases |changes|
  {
    if changes != [] {
      var k := |changes| - 1;
      TrackedAt(t, e, changes[..k], depth, oid);
      assert changes == changes[..k] + [changes[k]];
      assert oid in Objects(changes) <==> oid in Objects(changes[..k]) || oid == changes[k].oid;
    }
  }

  /** On its own, `e` would enter itself in the tracker for `oid`. */
  predicate Claims(cells: Cells, e: Event, oid: ObjectId) {
    EffectOf(cells, e).verdict.Applied? && oid in Objects(e.result.value.changes)
  }

  /** No object id is claimed by two of these events, in whatever subnets. */
  ghost predicate Unshared(cells: Cells, events: seq<Event>) {
    forall i, j, oid | 0 <= i < j < |events| :: !(Claims(cells, events[i], oid) && Claims(cells, events[j], oid))
  }

  /** The last event of the list acts on the tracker as it would alone. */
  lemma LastTracks(g: GlobalState, events: seq<Event>, depth: nat, oid: ObjectId)
    requires events != [] && Independent(events) && DistinctIds(events)
    ensures var e := events[|events| - 1];
            var before := ApplyAll(g, events[..|events| - 1], depth).state.tracker;
            var after := ApplyAll(g, events, depth).state.tracker;
            && (Claims(g.cells, e, oid) ==> oid in after && after[oid] == Change(e.id, depth))
            && (!Claims(g.cells, e, oid) ==>
                  (oid in after <==> oid in before) && (oid in after ==> after[oid] == before[oid]))
  {
    var e := events[|events| - 1];
    var before := ApplyAll(g, events[..|events| - 1], depth);
    IndependentActAlone(g, events, depth);
    assert e in events;
    if e.result.Some? { TrackedAt(before.state.tracker, e, e.result.value.changes, depth, oid); }
  }

  lemma LastClaimsAlone(cells: Cells, events: seq<Event>, oid: ObjectId)
    requires events != [] && Unshared(cells, events)
    ensures Claims(cells, events[|events| - 1], oid) ==>
              forall e | e in events[..|events| - 1] :: !Claims(cells, e, oid)
  {
    var k := |events| - 1;
    forall e | e in events[..k] && Claims(cells, e, oid) ensures !Claims(cells, events[k], oid) {
      var i :| 0 <= i < k && events[i] == e;
    }
  }

  lemma {:induction false} TrackerAt(g: GlobalState, events: seq<Event>, depth: nat, oid: ObjectId)
    requires Independent(events) && DistinctIds(events) && Unshared(g.cells, events)
    ensures var t := ApplyAll(g, events, depth).state.tracker;
            && (forall e | e in events && Claims(g.cells, e, oid) :: oid in t && t[oid] == Change(e.id, depth))
            && ((forall e | e in events :: !Claims(g.cells, e, oid)) ==>
                  (oid in t <==> oid in g.tracker) && (oid in t ==> t[oid] == g.tracker[oid]))
    decreases |events|
  {
    if events != [] {
      var k := |events| - 1;
      TrackerAt(g, events[..k], depth, oid);
      LastTracks(g, events, depth, oid);
      assert events == events[..k] + [events[k]];
      LastClaimsAlone(g.cells, events, oid);
    }
  }

  lemma UnsharedAnyOrder(cells: Cells, a: seq<Event>, b: seq<Event>)
    requires multiset(a) == multiset(b) && DistinctIds(a) && Unshared(cells, a)
    ensures Unshared(cells, b)
  {
    DistinctKept(a, b);
    SameElements(a, b);
    forall i, j, oid | 0 <= i < j < |b| ensures !(Claims(cells, b[i], oid) && Claims(cells, b[j], oid)) {
      assert b[i] in a && b[j] in a && b[i] != b[j];
      var p :| 0 <= p < |a| && a[p] == b[i];
      var q :| 0 <= q < |a| && a[q] == b[j];
      assert p < q || q < p;
    }
  }

  lemma TrackersAgree(g: GlobalState, a: seq<Event>, b: seq<Event>, depth: nat)
    requires multiset(a) == multiset(b) && DistinctIds(a) && Independent(a) && Unshared(g.cells, a)
    ensures ApplyAll(g, a, depth).state.tracker == ApplyAll(g, b, depth).state.tracker
  {
    IndependentAnyOrder(a, b);
    UnsharedAnyOrder(g.cells, a, b);
    SameElements(a, b);
    var x, y := ApplyAll(g, a, depth).state.tracker, ApplyAll(g, b, depth).state.tracker;
    forall oid ensures (oid in x <==> oid in y) && (oid in x ==> x[oid] == y[oid]) {
      TrackerAt(g, a, depth, oid);
      TrackerAt(g, b, depth, oid);
      if e :| e in a && Claims(g.cells, e, oid) { assert e in b; }
    }
    assert x == y;
  }

  /** All orders of the list give one and the same result. */
  ghost predicate OrderIsIrrelevant(g: GlobalState, k: seq<Event>, depth: nat) {
    forall a, b | multiset(a) == multiset(k) && multiset(b) == multiset(k) ::
      ApplyAll(g, a, depth) == ApplyAll(g, b, depth)
  }

  lemma MovedLast(k: seq<Event>, i: nat, j: nat)
    requires i < j < |k|
    ensures var rest := k[..i] + k[i + 1..j] + k[j + 1..];
            multiset(rest + [k[i], k[j]]) == multiset(k) && multiset(rest + [k[j], k[i]]) == multiset(k)
  {
    assert k == k[..i] + [k[i]] + k[i + 1..j] + [k[j]] + k[j + 1..];
  }

  lemma LastClaimWins(g: GlobalState, k: seq<Event>, a: seq<Event>, depth: nat, oid: ObjectId)
    requires Independent(k) && DistinctIds(k) && multiset(a) == multiset(k)
    requires a != [] && Claims(g.cells, a[|a| - 1], oid)
    ensures var t := ApplyAll(g, a, depth).state.tracker; oid in t && t[oid] == Change(a[|a| - 1].id, depth)
  {
    IndependentAnyOrder(k, a);
    LastTracks(g, a, depth, oid);
  }

  lemma TwoOrdersDisagree(g: GlobalState, k: seq<Event>, a: seq<Event>, b: seq<Event>, depth: nat, oid: ObjectId)
    requires Independent(k) && DistinctIds(k) && multiset(a) == multiset(k) && multiset(b) == multiset(k)
    requires a != [] && b != [] && a[|a| - 1].id != b[|b| - 1].id
    requires Claims(g.cells, a[|a| - 1], oid) && Claims(g.cells, b[|b| - 1], oid)
    ensures !OrderIsIrrelevant(g, k, depth)
  {
    LastClaimWins(g, k, a, depth, oid);
    LastClaimWins(g, k, b, depth, oid);
    assert ApplyAll(g, a, depth) != ApplyAll(g, b, depth);
  }

  lemma SharedDisagree(g: GlobalState, k: seq<Event>, depth: nat, i: nat, j: nat, oid: ObjectId)
    requires Independent(k) && DistinctIds(k) && i < j < |k| && Claims(g.cells, k[i], oid) && Claims(g.cells, k[j], oid)
    ensures !OrderIsIrrelevant(g, k, depth)
  {
    MovedLast(k, i, j);
    var rest := k[..i] + k[i + 1..j] + k[j + 1..];
    TwoOrdersDisagree(g, k, rest + [k[i], k[j]], rest + [k[j], k[i]], depth, oid);
  }

  lemma IndependentCommuteIff(g: GlobalState, k: seq<Event>, depth: nat)
    requires Independent(k) && DistinctIds(k)
    ensures OrderIsIrrelevant(g, k, depth) <==> Unshared(g.cells, k)
  {
    if Unshared(g.cells, k) {
      forall a, b | multiset(a) == multiset(k) && multiset(b) == multiset(k)
        ensures ApplyAll(g, a, depth) == ApplyAll(g, b, depth)
      {
        IndependentAnyOrder(k, a);
        UnsharedAnyOrder(g.cells, k, a);
        TrackersAgree(g, a, b, depth);
        IndependentAgree(g, a, b, depth);
      }
    } else {
      var i, j, oid :| 0 <= i < j < |k| && Claims(g.cells, k[i], oid) && Claims(g.cells, k[j], oid);
      SharedDisagree(g, k, depth, i, j, oid);
    }
  }

  /** The whole result, tracker included, is the same for every order of the kept events exactly
      when no object id is changed by two of those that apply. */
  lemma KeptCommuteIff(g: GlobalState, events: seq<Event>, depth: nat)
    requires DistinctIds(events)
    ensures OrderIsIrrelevant(g, Fold(events).kept, depth) <==> Unshared(g.cells, Fold(events).kept)
  {
    KeptIsSorted(events);
    ScanDisjoint(SortByVlc(events), {});
    IndependentCommuteIff(g, Fold(events).kept, depth);
  }

  // ---- Two creations of one object id in two subnets ----

  function Creation(id: EventId, subnet: Option<SubnetId>, v: Value): Event {
    Event(id, Transfer, [], subnet, 0, Some(ExecutionResult(true, None, [StateChange(7, None, Some(v), None)])))
  }

  function Creations(v: Value): seq<Event> { [Creation(1, None, v), Creation(2, Some(SubnetId(APP_PREFIX, 1)), v)] }

  lemma CreationKeys(id: EventId, subnet: Option<SubnetId>, v: Value)
    ensures WriteKeys(Creation(id, subnet, v)) == {WriteKey(if subnet.Some? then subnet.value else ROOT, 7)}
  {
    var e, c := Creation(id, subnet, v), StateChange(7, None, Some(v), None);
    assert e.result.value.changes == [c] && [c][..0] == [] && KeysOf(e, []) == {};
    assert KeysOf(e, [c]) == {e.KeyOf(c)};
  }

  lemma BothKept(v: Value)
    ensures Fold(Creations(v)).kept == Creations(v)
  {
    var a, b := Creations(v)[0], Creations(v)[1];
    assert Creations(v)[1..] == [b] && [b][1..] == [];
    assert SortByVlc([]) == [];
    assert SortByVlc([b]) == [b];
    assert SortByVlc(Creations(v)) == Creations(v);
    CreationKeys(1, None, v);
    CreationKeys(2, Some(SubnetId(APP_PREFIX, 1)), v);
    assert {} + WriteKeys(a) == WriteKeys(a) && WriteKeys(b) !! WriteKeys(a);
    assert Scan([], WriteKeys(a) + WriteKeys(b)).kept == [];
    assert Scan([b], WriteKeys(a)).kept == [b];
    assert Scan(Creations(v), {}).kept == [a] + [b];
  }

  lemma CreationClaims(id: EventId, subnet: Option<SubnetId>, v: Value)
    ensures Claims(map[], Creation(id, subnet, v), 7)
  {
    var e, c := Creation(id, subnet, v), StateChange(7, None, Some(v), None);
    assert [c][1..] == [] && FirstClash(map[], e, [], map[e.KeyOf(c) := Some(v)]) == None;
    assert FirstClash(map[], e, [c], map[]) == None;
    assert c in [c];
  }

  /** The policy keeps both, since they write different cells; the tracker shows whichever came last. */
  lemma KeptNeedNotCommute(v: Value, depth: nat)
    ensures Fold(Creations(v)).kept == Creations(v) && !OrderIsIrrelevant(INITIAL, Fold(Creations(v)).kept, depth)
  {
    BothKept(v);
    var a, b := Creations(v)[0], Creations(v)[1];
    CreationClaims(1, None, v);
    CreationClaims(2, Some(SubnetId(APP_PREFIX, 1)), v);
    assert Claims(INITIAL.cells, a, 7) && Claims(INITIAL.cells, b, 7);
    assert !Unshared(INITIAL.cells, Creations(v));
    KeptCommuteIff(INITIAL, Creations(v), depth);
  }

  // ---- An event that is not applied can still move the root ----

  ghost predicate NoneApplies(cells: Cells, events: seq<Event>) {
    forall e | e in events :: !EffectOf(cells, e).verdict.Applied?
  }

  /** A stale event leaves the root alone exactly when the subnets its check looks into have trees. */
  lemma ConflictKeepsRootIff(g: GlobalState, e: Event, depth: nat)
    requires EffectOf(g.cells, e).verdict.Conflicted?
    ensures Probed(g.cells, e, e.result.value.changes, map[]) <= g.subnets
            <==> StateRoot(StepEvent(g, e, depth)) == StateRoot(g)
  {
    SkippedKeepRoot(g, StepEvent(g, e, depth), EffectOf(g.cells, e).touched);
  }

  lemma SkippedKeepRoot(g: GlobalState, h: GlobalState, touched: set<SubnetId>)
    requires h.cells == g.cells && h.subnets == g.subnets + touched
    ensures StateRoot(h) == StateRoot(g) <==> touched <= g.subnets
  {
    if touched <= g.subnets { assert h.subnets == g.subnets; }
  }

  /** The same for whole lists in which no event applies. */
  lemma SkippedKeepRootIff(g: GlobalState, events: seq<Event>, depth: nat)
    requires NoneApplies(g.cells, events)
    ensures ApplyAll(g, events, depth).state.cells == g.cells
    ensures (forall e | e in events :: EffectOf(g.cells, e).touched <= g.subnets)
            <==> StateRoot(ApplyAll(g, events, depth).state) == StateRoot(g)
  {
    var touched := SkippedTouch(g, events, depth);
    SkippedKeepRoot(g, ApplyAll(g, events, depth).state, touched);
  }

  lemma {:induction false} SkippedTouch(g: GlobalState, events: seq<Event>, depth: nat) returns (touched: set<SubnetId>)
    requires NoneApplies(g.cells, events)
    ensures var h := ApplyAll(g, events, depth).state; h.cells == g.cells && h.subnets == g.subnets + touched
    ensures touched <= g.subnets <==> forall e | e in events :: EffectOf(g.cells, e).touched <= g.subnets
    decreases |events|
  {
    touched := {};
    if events != [] {
      var k := |events| - 1;
      assert events == events[..k] + [events[k]];
      var before := SkippedTouch(g, events[..k], depth);
      touched := before + EffectOf(g.cells, events[k]).touched;
    }
  }

  /** An event that replaces a value of object 7 by the same value. */
  function Rewrite(id: EventId, subnet: Option<SubnetId>, v: Value): Event {
    Event(id, Transfer, [], subnet, 0, Some(ExecutionResult(true, None, [StateChange(7, Some(v), Some(v), None)])))
  }

  /** On a node's first state no cell has a value, so the event is refused; yet it moves the root, unless
      it is in one of the two subnets that have trees. */
  lemma RefusedMovesRoot(v: Value, id: EventId, subnet: Option<SubnetId>, depth: nat)
    ensures var e := Rewrite(id, subnet, v);
            && EffectOf(INITIAL.cells, e).verdict == Conflicted(7)
            && (e.SubnetOrRoot() in {ROOT, GOVERNANCE} <==>
                StateRoot(StepEvent(INITIAL, e, depth)) == StateRoot(INITIAL))
  {
    var e := Rewrite(id, subnet, v);
    assert Probed(INITIAL.cells, e, e.result.value.changes, map[]) == {e.SubnetOrRoot()};
    ConflictKeepsRootIff(INITIAL, e, depth);
  }
}
