/** The DAG manager as interleaved lock sections: adders that ask DAG, cache and store for
    their parents and then write; anchors being persisted, finalized and swept. */
module Layers {
  import opened Types
  import opened DagModel
  import opened RecentCache

  datatype Settings = Settings(capacity: nat, maxCrossDepth: nat, diskFallback: bool)

  datatype ParentInfo = InDag(depth: nat) | InCache(depth: nat, anchor: Digest) | InStore(depth: nat)

  datatype AddError =
    | MissingParent(parent: EventId)
    | ParentTooOld(tooOld: EventId)
    | ParentGCed(lost: EventId)
    | DuplicateEvent(id: EventId)

  datatype Section = AtDag | AtCache | AtStore

  /** One call of `add_event`.  While asking, the parent looked for is the one after those found;
      `known` remembers whether it had been inserted when the DAG was asked. */
  datatype Adder =
    | Asking(s: Stored, found: seq<ParentInfo>, section: Section, known: bool)
    | Measured(s: Stored, found: seq<ParentInfo>, raw: nat)
    | Ready(s: Stored, found: seq<ParentInfo>, depth: nat)
    | Added
    | Failing(error: AddError)

  /** One call of `persist_finalized_anchor` and the `on_anchor_finalized` it ends with. */
  datatype Job =
    | Gathered(anchor: Anchor, entries: map<EventId, nat>)
    | Persisted(anchor: Anchor)
    | Floored(anchor: Anchor)
    | Flagged(anchor: Anchor)
    | Cached(anchor: Anchor)
    | Swept
    | Aborted

  /** How an event entered: its depth then, and which parents had been found in the DAG. */
  datatype Birth = Birth(event: Event, depth: nat, inDag: set<EventId>)

  /** `born` and `awaiting` are history: every insertion so far, and the events finalized
      whose anchor's sweep has not run. */
  datatype Node = Node(cfg: Settings, dag: DagState, cache: Lines, store: map<EventId, nat>, floor: nat,
                       adders: map<nat, Adder>, jobs: map<nat, Job>,
                       born: map<EventId, Birth>, awaiting: set<EventId>)

  datatype Step =
    | StartAdd(pid: nat, s: Stored) | AskDag(pid: nat) | AskCache(pid: nat) | AskStore(pid: nat)
    | Measure(pid: nat) | ApplyFloor(pid: nat) | Write(pid: nat)
    | MarkFinalized(ids: seq<EventId>) | RaiseFloorTo(depth: nat)
    | Gather(job: nat, anchor: Anchor) | Persist(job: nat) | Abort(job: nat) | RaiseFloor(job: nat)
    | Flag(job: nat) | FillCache(job: nat, now: nat) | Sweep(job: nat)
    | WarmUp(anchors: seq<Anchor>)

  function Start(cfg: Settings): Node { Node(cfg, EMPTY, [], map[], 0, map[], map[], map[], {}) }

  // ---- Pieces of the sections ----

  function Max(a: nat, b: nat): nat { if a < b then b else a }

  function DeepestFound(found: seq<ParentInfo>): (m: nat)
    ensures forall i | 0 <= i < |found| :: found[i].depth <= m
  {
    if found == [] then 0 else Max(found[0].depth, DeepestFound(found[1..]))
  }

  /** Depth before the floor is applied. */
  function RawDepth(d: DagState, found: seq<ParentInfo>): nat {
    if found == [] then (if d.events == map[] && d.maxDepth == 0 then 0 else d.maxDepth + 1)
    else DeepestFound(found) + 1
  }

  /** The first parent from cache or store that lies too far below the new event. */
  function FirstTooOld(cfg: Settings, parents: seq<EventId>, found: seq<ParentInfo>, depth: nat): Option<EventId>
    requires |parents| == |found|
  {
    if found == [] then None
    else if !found[0].InDag? && depth > found[0].depth + cfg.maxCrossDepth then Some(parents[0])
    else FirstTooOld(cfg, parents[1..], found[1..], depth)
  }

  /** The first parent resolved in the DAG that is no longer there. */
  function FirstGone(known: set<EventId>, parents: seq<EventId>, found: seq<ParentInfo>): (r: Option<EventId>)
    requires |parents| == |found|
    ensures r.None? ==> forall i | 0 <= i < |found| && found[i].InDag? :: parents[i] in known
  {
    if found == [] then None
    else if found[0].InDag? && parents[0] !in known then Some(parents[0])
    else FirstGone(known, parents[1..], found[1..])
  }

  /** The parents an adder found in the DAG. */
  function FoundInDag(parents: seq<EventId>, found: seq<ParentInfo>): set<EventId>
    requires |parents| == |found|
  {
    set i | 0 <= i < |found| && found[i].InDag? :: parents[i]
  }

  /** Cache lines for an anchor's events, taken from the DAG. */
  function FilledFromDag(c: Lines, cap: nat, d: DagState, a: Anchor, ids: seq<EventId>, now: nat): Lines {
    if ids == [] then c
    else
      var rest := FilledFromDag(c, cap, d, a, ids[..|ids| - 1], now);
      var id := ids[|ids| - 1];
      if id in d.events && id in d.depths
      then AfterPut(rest, cap, id, Meta(d.depths[id], a.id, now, d.ParentsOf(id)))
      else rest
  }

  function FilledFromStore(c: Lines, cap: nat, store: map<EventId, nat>, born: map<EventId, Birth>, a: Anchor,
                           ids: seq<EventId>): Lines
  {
    if ids == [] then c
    else
      var rest := FilledFromStore(c, cap, store, born, a, ids[..|ids| - 1]);
      var id := ids[|ids| - 1];
      if id in store && id in born
      then AfterPut(rest, cap, id, Meta(store[id], a.id, a.timestamp, born[id].event.parents))
      else rest
  }

  function Warmed(c: Lines, cap: nat, store: map<EventId, nat>, born: map<EventId, Birth>, anchors: seq<Anchor>)
    : Lines
  {
    if anchors == [] then c
    else
      var a := anchors[|anchors| - 1];
      FilledFromStore(Warmed(c, cap, store, born, anchors[..|anchors| - 1]), cap, store, born, a, a.eventIds)
  }

  // ---- One lock section each ----

  predicate WantsParent(a: Adder, section: Section) {
    a.Asking? && a.section == section && |a.found| < |a.s.event.parents|
  }

  function Wanted(a: Adder): EventId
    requires a.Asking? && |a.found| < |a.s.event.parents|
  {
    a.s.event.parents[|a.found|]
  }

  function Found(a: Adder, info: ParentInfo): Adder
    requires a.Asking?
  {
    Asking(a.s, a.found + [info], AtDag, false)
  }

  function DagAnswer(n: Node, a: Adder): Adder
    requires WantsParent(a, AtDag)
  {
    var p := Wanted(a);
    if p in n.dag.depths then Found(a, InDag(n.dag.depths[p]))
    else Asking(a.s, a.found, AtCache, p in n.born)
  }

  function CacheAnswer(n: Node, a: Adder): Adder
    requires WantsParent(a, AtCache)
  {
    var p := Wanted(a);
    match Find(n.cache, p)
    case Some(m) => Found(a, InCache(m.depth, m.anchor))
    case None => if n.cfg.diskFallback then a.(section := AtStore) else Failing(MissingParent(p))
  }

  function StoreAnswer(n: Node, a: Adder): Adder
    requires WantsParent(a, AtStore)
  {
    var p := Wanted(a);
    if p in n.store then Found(a, InStore(n.store[p])) else Failing(MissingParent(p))
  }

  predicate FullyFound(a: Adder) {
    a.Asking? && a.section.AtDag? && |a.found| == |a.s.event.parents|
  }

  function FloorAnswer(n: Node, a: Adder): Adder
    requires a.Measured? && |a.found| == |a.s.event.parents|
  {
    var depth := Max(a.raw, n.floor);
    match FirstTooOld(n.cfg, a.s.event.parents, a.found, depth)
    case Some(p) => Failing(ParentTooOld(p))
    case None => Ready(a.s, a.found, depth)
  }

  function WriteError(n: Node, a: Adder): Option<AddError>
    requires a.Ready? && |a.found| == |a.s.event.parents|
  {
    match FirstGone(n.dag.events.Keys, a.s.event.parents, a.found)
    case Some(p) => Some(ParentGCed(p))
    case None => if a.s.event.id in n.dag.events then Some(DuplicateEvent(a.s.event.id)) else None
  }

  function Written(n: Node, pid: nat, a: Adder): Node
    requires a.Ready? && |a.found| == |a.s.event.parents|
  {
    var e := a.s.event;
    n.(dag := Inserted(n.dag, a.s, a.depth),
       born := n.born[e.id := Birth(e, a.depth, FoundInDag(e.parents, a.found))],
       adders := n.adders[pid := Added])
  }

  function JobIds(j: Job): seq<EventId> {
    match j
    case Gathered(a, _) => a.eventIds
    case Persisted(a) => a.eventIds
    case Floored(a) => a.eventIds
    case Flagged(a) => a.eventIds
    case Cached(a) => a.eventIds
    case _ => []
  }

  /** A step that is not enabled changes nothing. */
  ghost function Next(n: Node, step: Step): Node {
    match step
    case StartAdd(pid, s) => n.(adders := n.adders[pid := Asking(s, [], AtDag, false)])
    case AskDag(pid) =>
      if pid in n.adders && WantsParent(n.adders[pid], AtDag)
      then n.(adders := n.adders[pid := DagAnswer(n, n.adders[pid])]) else n
    case AskCache(pid) =>
      if pid in n.adders && WantsParent(n.adders[pid], AtCache)
      then n.(adders := n.adders[pid := CacheAnswer(n, n.adders[pid])],
              cache := AfterGet(n.cache, Wanted(n.adders[pid]))) else n
    case AskStore(pid) =>
      if pid in n.adders && WantsParent(n.adders[pid], AtStore)
      then n.(adders := n.adders[pid := StoreAnswer(n, n.adders[pid])]) else n
    case Measure(pid) =>
      if pid in n.adders && FullyFound(n.adders[pid])
      then var a := n.adders[pid];
           n.(adders := n.adders[pid := Measured(a.s, a.found, RawDepth(n.dag, a.found))]) else n
    case ApplyFloor(pid) =>
      if pid in n.adders && n.adders[pid].Measured? && |n.adders[pid].found| == |n.adders[pid].s.event.parents|
      then n.(adders := n.adders[pid := FloorAnswer(n, n.adders[pid])]) else n
    case Write(pid) =>
      if pid in n.adders && n.adders[pid].Ready? && |n.adders[pid].found| == |n.adders[pid].s.event.parents|
      then match WriteError(n, n.adders[pid])
           case Some(e) => n.(adders := n.adders[pid := Failing(e)])
           case None => Written(n, pid, n.adders[pid]) else n
    case MarkFinalized(ids) =>
      n.(dag := FinalizedIn(n.dag, IdSet(ids)), awaiting := n.awaiting + IdSet(ids))
    case RaiseFloorTo(depth) => n.(floor := Max(n.floor, depth))
    case Gather(job, anchor) =>
      if forall id | id in anchor.eventIds :: id in n.dag.events && id in n.dag.depths
      then n.(jobs := n.jobs[job := Gathered(anchor, map id | id in anchor.eventIds :: n.dag.depths[id])])
      else n.(jobs := n.jobs[job := Aborted])
    case Persist(job) =>
      if job in n.jobs && n.jobs[job].Gathered?
      then n.(store := n.store + n.jobs[job].entries, jobs := n.jobs[job := Persisted(n.jobs[job].anchor)]) else n
    case Abort(job) =>
      if job in n.jobs && (n.jobs[job].Gathered? || n.jobs[job].Persisted?)
      then n.(jobs := n.jobs[job := Aborted]) else n
    case RaiseFloor(job) =>
      if job in n.jobs && n.jobs[job].Persisted?
      then n.(floor := Max(n.floor, n.jobs[job].anchor.depth + 1), jobs := n.jobs[job := Floored(n.jobs[job].anchor)])
      else n
    case Flag(job) =>
      if job in n.jobs && n.jobs[job].Floored?
      then var ids := IdSet(JobIds(n.jobs[job]));
           n.(dag := FinalizedIn(n.dag, ids), awaiting := n.awaiting + ids,
              jobs := n.jobs[job := Flagged(n.jobs[job].anchor)]) else n
    case FillCache(job, now) =>
      if job in n.jobs && n.jobs[job].Flagged?
      then var a := n.jobs[job].anchor;
           n.(cache := FilledFromDag(n.cache, n.cfg.capacity, n.dag, a, a.eventIds, now),
              jobs := n.jobs[job := Cached(a)]) else n
    case Sweep(job) =>
      if job in n.jobs && n.jobs[job].Cached?
      then var ids := IdSet(JobIds(n.jobs[job]));
           n.(dag := Collected(n.dag, ids), awaiting := n.awaiting - ids, jobs := n.jobs[job := Swept]) else n
    case WarmUp(anchors) => n.(cache := Warmed(n.cache, n.cfg.capacity, n.store, n.born, anchors))
  }

  /** What the surroundings guarantee: an event arrives unfinalized, and an id that has left the
      DAG is not inserted again.  The second is what a caller can ask with `exists`. */
  predicate Allowed(n: Node, step: Step) {
    match step
    case StartAdd(pid, s) => s.status != Finalized
    case Write(pid) =>
      pid in n.adders && n.adders[pid].Ready? ==>
        n.adders[pid].s.event.id in n.born ==> n.adders[pid].s.event.id in n.dag.events
    case _ => true
  }

  ghost function Run(n: Node, steps: seq<Step>): Node
    decreases |steps|
  {
    if steps == [] then n else Run(Next(n, steps[0]), steps[1..])
  }

  ghost predicate AllowedRun(n: Node, steps: seq<Step>)
    decreases |steps|
  {
    steps == [] || (Allowed(n, steps[0]) && AllowedRun(Next(n, steps[0]), steps[1..]))
  }

  lemma {:induction false} RunThen(n: Node, a: seq<Step>, b: seq<Step>)
    ensures Run(n, a + b) == Run(Run(n, a), b)
    ensures AllowedRun(n, a) && AllowedRun(Run(n, a), b) ==> AllowedRun(n, a + b)
    decreases |a|
  {
    if a == [] {
      assert a + b == b;
    } else {
      assert (a + b)[1..] == a[1..] + b;
      RunThen(Next(n, a[0]), a[1..], b);
    }
  }

  lemma RunOne(n: Node, s: Step)
    ensures Run(n, [s]) == Next(n, s)
    ensures Allowed(n, s) ==> AllowedRun(n, [s])
  {
    assert [s][1..] == [];
  }
}
