/** Where new events may attach, over every run of the layered store: how far below itself an event reaches past
    the DAG, which events are tips, how deep the DAG is, and how high the floor. */
module Frontier {
  import opened Types
  import opened DagModel
  import opened Layers
  import opened LayersInv

  // ---- Parents from cache or store ----

  /** Parent `i` was not found in the DAG and lies too far below `depth`. */
  predicate TooOldAt(cfg: Settings, found: seq<ParentInfo>, depth: nat, i: int) {
    0 <= i < |found| && !found[i].InDag? && found[i].depth + cfg.maxCrossDepth < depth
  }

  lemma {:induction false} FirstTooOldIs(cfg: Settings, parents: seq<EventId>, found: seq<ParentInfo>, depth: nat)
    requires |parents| == |found|
    ensures var r := FirstTooOld(cfg, parents, found, depth);
            && (r.None? <==> forall i :: !TooOldAt(cfg, found, depth, i))
            && (r.Some? ==> exists i :: TooOldAt(cfg, found, depth, i) && parents[i] == r.value
                                        && forall j | 0 <= j < i :: !TooOldAt(cfg, found, depth, j))
    decreases |found|
  {
    if found != [] {
      FirstTooOldIs(cfg, parents[1..], found[1..], depth);
      if !TooOldAt(cfg, found, depth, 0) {
        forall i | TooOldAt(cfg, found, depth, i) ensures TooOldAt(cfg, found[1..], depth, i - 1) { }
        var r := FirstTooOld(cfg, parents[1..], found[1..], depth);
        if r.Some? {
          var i :| TooOldAt(cfg, found[1..], depth, i) && parents[1..][i] == r.value
                   && forall j | 0 <= j < i :: !TooOldAt(cfg, found[1..], depth, j);
          assert TooOldAt(cfg, found, depth, i + 1) && parents[i + 1] == r.value;
          forall j | 0 <= j < i + 1 ensures !TooOldAt(cfg, found, depth, j) {
            if j > 0 { assert !TooOldAt(cfg, found[1..], depth, j - 1); }
          }
        }
      }
    }
  }

  /** With all parents found, the floor section refuses the first parent not in the DAG that lies too far below, and
      lets the event through, at the depth of the floor or its own, exactly when there is none. */
  lemma FloorAnswerIs(n: Node, a: Adder)
    requires a.Measured? && |a.found| == |a.s.event.parents|
    ensures var depth := if a.raw < n.floor then n.floor else a.raw;
            var r := FloorAnswer(n, a);
            && (r == Ready(a.s, a.found, depth) <==> forall i :: !TooOldAt(n.cfg, a.found, depth, i))
            && (r.Ready? || (r.Failing? && r.error.ParentTooOld?))
            && (r.Failing? ==> exists i :: TooOldAt(n.cfg, a.found, depth, i) && a.s.event.parents[i] == r.error.tooOld
                                           && forall j | 0 <= j < i :: !TooOldAt(n.cfg, a.found, depth, j))
  {
    FirstTooOldIs(n.cfg, a.s.event.parents, a.found, Max(a.raw, n.floor));
  }

  /** Parent `i` was found in the DAG and is gone from it. */
  predicate GoneAt(known: set<EventId>, parents: seq<EventId>, found: seq<ParentInfo>, i: int) {
    0 <= i < |found| && i < |parents| && found[i].InDag? && parents[i] !in known
  }

  lemma {:induction false} FirstGoneIs(known: set<EventId>, parents: seq<EventId>, found: seq<ParentInfo>)
    requires |parents| == |found|
    ensures var r := FirstGone(known, parents, found);
            && (r.None? <==> forall i :: !GoneAt(known, parents, found, i))
            && (r.Some? ==> exists i :: GoneAt(known, parents, found, i) && parents[i] == r.value
                                        && forall j | 0 <= j < i :: !GoneAt(known, parents, found, j))
    decreases |found|
  {
    if found != [] {
      FirstGoneIs(known, parents[1..], found[1..]);
      if !GoneAt(known, parents, found, 0) {
        forall i | GoneAt(known, parents, found, i) ensures GoneAt(known, parents[1..], found[1..], i - 1) { }
        var r := FirstGone(known, parents[1..], found[1..]);
        if r.Some? {
          var i :| GoneAt(known, parents[1..], found[1..], i) && parents[1..][i] == r.value
                   && forall j | 0 <= j < i :: !GoneAt(known, parents[1..], found[1..], j);
          assert GoneAt(known, parents, found, i + 1) && parents[i + 1] == r.value;
          forall j | 0 <= j < i + 1 ensures !GoneAt(known, parents, found, j) {
            if j > 0 { assert !GoneAt(known, parents[1..], found[1..], j - 1); }
          }
        }
      }
    }
  }

  /** The write section refuses the first parent that was found in the DAG and has been collected since, then a
      duplicate, and otherwise writes. */
  lemma WriteErrorIs(n: Node, a: Adder)
    requires a.Ready? && |a.found| == |a.s.event.parents|
    ensures var r, parents := WriteError(n, a), a.s.event.parents;
            var someGone := exists i :: GoneAt(n.dag.events.Keys, parents, a.found, i);
            && (r == None <==> !someGone && a.s.event.id !in n.dag.events)
            && (r == Some(DuplicateEvent(a.s.event.id)) <==> !someGone && a.s.event.id in n.dag.events)
            && (someGone ==> exists i :: GoneAt(n.dag.events.Keys, parents, a.found, i)
                                         && r == Some(ParentGCed(parents[i]))
                                         && forall j | 0 <= j < i :: !GoneAt(n.dag.events.Keys, parents, a.found, j))
  {
    FirstGoneIs(n.dag.events.Keys, a.s.event.parents, a.found);
  }

  /** An event lies at most the configured distance below each parent it did not find in the DAG. */
  ghost predicate NearParents(born: History, reach: nat) {
    forall c, p | c in born && p in born[c].event.parents && p !in born[c].inDag ::
      p in born && born[c].depth <= born[p].depth + reach
  }

  ghost predicate AdderNear(a: Adder, cfg: Settings) { a.Ready? ==> forall i :: !TooOldAt(cfg, a.found, a.depth, i) }

  ghost predicate Near(n: Node) {
    NearParents(n.born, n.cfg.maxCrossDepth) && forall pid | pid in n.adders :: AdderNear(n.adders[pid], n.cfg)
  }

  lemma BirthIsNear(born: History, a: Adder, cfg: Settings)
    requires NearParents(born, cfg.maxCrossDepth) && BornSound(born)
    requires a.Ready? && AdderOk(a, born) && AdderNear(a, cfg)
    requires a.s.event.id !in born
    ensures NearParents(born[a.s.event.id := Birth(a.s.event, a.depth, FoundInDag(a.s.event.parents, a.found))],
                        cfg.maxCrossDepth)
  {
    var e := a.s.event;
    var b := Birth(e, a.depth, FoundInDag(e.parents, a.found));
    var now := born[e.id := b];
    forall c, p | c in now && p in now[c].event.parents && p !in now[c].inDag
      ensures p in now && now[c].depth <= now[p].depth + cfg.maxCrossDepth
    {
      if c == e.id {
        var i :| 0 <= i < |e.parents| && e.parents[i] == p;
        assert !TooOldAt(cfg, a.found, a.depth, i);
        assert e.parents[i] !in FoundInDag(e.parents, a.found);
        assert a.found[i].depth == born[p].depth && p != e.id;
      }
    }
  }

  // ---- Tips ----

  /** The tips are the events of the DAG that no event ever inserted names as a parent. */
  ghost predicate TipsExact(d: DagState, born: History) {
    forall x | x in d.events :: x in d.tips <==> forall c | c in born :: x !in born[c].event.parents
  }

  lemma BirthMovesTips(d: DagState, born: History, s: Stored, depth: nat, b: Birth)
    requires TipsExact(d, born) && BornSound(born) && s.event.id !in born && s.event.id !in d.events
    requires b.event == s.event && forall p | p in s.event.parents :: p in born
    ensures TipsExact(Inserted(d, s, depth), born[s.event.id := b])
  {
    var r, now := Inserted(d, s, depth), born[s.event.id := b];
    forall x | x in r.events ensures x in r.tips <==> forall c | c in now :: x !in now[c].event.parents {
      if x == s.event.id {
        forall c | c in now ensures x !in now[c].event.parents { }
      } else {
        assert x in r.tips <==> x in d.tips && x !in s.event.parents;
        if forall c | c in now :: x !in now[c].event.parents {
          assert now[s.event.id].event == s.event;
          forall c | c in born ensures x !in born[c].event.parents { assert now[c] == born[c]; }
        }
      }
    }
  }

  // ---- Depth and floor ----

  /** The DAG is as deep as the deepest event ever inserted. */
  ghost predicate DeepestExact(maxDepth: nat, born: History) {
    && (forall id | id in born :: born[id].depth <= maxDepth)
    && (maxDepth > 0 ==> exists id | id in born :: born[id].depth == maxDepth)
  }

  lemma BirthDeepens(maxDepth: nat, born: History, id: EventId, b: Birth)
    requires DeepestExact(maxDepth, born) && id !in born
    ensures DeepestExact(Max(maxDepth, b.depth), born[id := b])
  {
    var now := born[id := b];
    if b.depth > maxDepth { assert now[id].depth == b.depth; }
    else if maxDepth > 0 {
      var x :| x in born && born[x].depth == maxDepth;
      assert now[x].depth == maxDepth;
    }
  }

  /** The floor is above every anchor that has got as far as raising it. */
  ghost predicate AboveAnchor(j: Job, floor: nat) { j.Floored? || j.Flagged? || j.Cached? ==> j.anchor.depth < floor }

  ghost predicate FloorHolds(n: Node) { forall j | j in n.jobs :: AboveAnchor(n.jobs[j], n.floor) }

  // ---- Runs ----

  ghost predicate FrontInv(n: Node) {
    Near(n) && TipsExact(n.dag, n.born) && DeepestExact(n.dag.maxDepth, n.born) && FloorHolds(n)
  }

  lemma AskingFront(n: Node, step: Step)
    requires FrontInv(n) && IsAdderStep(step) && !step.Write?
    ensures FrontInv(Next(n, step))
  {
    if step.ApplyFloor? && step.pid in n.adders {
      var a := n.adders[step.pid];
      if a.Measured? && |a.found| == |a.s.event.parents| { FloorAnswerIs(n, a); }
    }
  }

  lemma WriteFront(n: Node, pid: nat)
    requires Inv(n) && FrontInv(n) && Allowed(n, Write(pid))
    ensures FrontInv(Next(n, Write(pid)))
  {
    if pid in n.adders && n.adders[pid].Ready? && |n.adders[pid].found| == |n.adders[pid].s.event.parents| {
      var a := n.adders[pid];
      assert AdderOk(a, n.born) && AdderNear(a, n.cfg);
      if WriteError(n, a).None? { WrittenFront(n, pid, a); }
    }
  }

  lemma WrittenFront(n: Node, pid: nat, a: Adder)
    requires Inv(n) && FrontInv(n) && a.Ready? && AdderOk(a, n.born) && AdderNear(a, n.cfg)
    requires a.s.event.id !in n.dag.events && a.s.event.id !in n.born
    ensures FrontInv(Written(n, pid, a))
  {
    var e := a.s.event;
    var b := Birth(e, a.depth, FoundInDag(e.parents, a.found));
    forall p | p in e.parents ensures p in n.born { var i :| 0 <= i < |e.parents| && e.parents[i] == p; }
    BirthIsNear(n.born, a, n.cfg);
    BirthMovesTips(n.dag, n.born, a.s, a.depth, b);
    BirthDeepens(n.dag.maxDepth, n.born, e.id, b);
  }

  lemma OtherFront(n: Node, step: Step)
    requires FrontInv(n) && !IsAdderStep(step)
    ensures FrontInv(Next(n, step))
  {
    var m := Next(n, step);
    assert m.born == n.born && m.adders == n.adders && m.cfg == n.cfg;
    OtherTips(n, step);
    OtherFloor(n, step);
  }

  lemma OtherTips(n: Node, step: Step)
    requires TipsExact(n.dag, n.born) && !IsAdderStep(step)
    ensures var m := Next(n, step); TipsExact(m.dag, n.born) && m.dag.maxDepth == n.dag.maxDepth
  {
  }

  lemma OtherFloor(n: Node, step: Step)
    requires FloorHolds(n) && !IsAdderStep(step)
    ensures FloorHolds(Next(n, step))
  {
  }

  lemma {:induction false} RunFront(n: Node, steps: seq<Step>)
    requires Inv(n) && FrontInv(n) && AllowedRun(n, steps)
    ensures Inv(Run(n, steps)) && FrontInv(Run(n, steps))
    decreases |steps|
  {
    if steps != [] {
      StepKeeps(n, steps[0]);
      if steps[0].Write? { WriteFront(n, steps[0].pid); }
      else if IsAdderStep(steps[0]) { AskingFront(n, steps[0]); }
      else { OtherFront(n, steps[0]); }
      RunFront(Next(n, steps[0]), steps[1..]);
    }
  }

  /** However insertions, finalization, sweeps and eviction interleave: an event lies at most the configured distance
      below any parent it did not find in the DAG. */
  lemma CrossDepthIsBounded(cfg: Settings, steps: seq<Step>, c: EventId, p: EventId)
    requires AllowedRun(Start(cfg), steps)
    requires var n := Run(Start(cfg), steps); c in n.born && p in n.born[c].event.parents && p !in n.born[c].inDag
    ensures var n := Run(Start(cfg), steps); p in n.born && n.born[c].depth <= n.born[p].depth + cfg.maxCrossDepth
  {
    StartInv(cfg);
    RunFront(Start(cfg), steps);
    SameSettings(Start(cfg), steps);
  }

  lemma {:induction false} SameSettings(n: Node, steps: seq<Step>)
    ensures Run(n, steps).cfg == n.cfg
    decreases |steps|
  {
    if steps != [] { SameSettings(Next(n, steps[0]), steps[1..]); }
  }

  /** And: the tips of the DAG are exactly those of its events that no inserted event names as a parent, its depth is
      that of the deepest event ever inserted, and the floor is above every anchor whose sweep is under way. */
  lemma FrontIsExact(cfg: Settings, steps: seq<Step>)
    requires AllowedRun(Start(cfg), steps)
    ensures var n := Run(Start(cfg), steps);
            && (forall x | x in n.dag.events ::
                  x in n.dag.tips <==> forall c | c in n.born :: x !in n.born[c].event.parents)
            && (forall id | id in n.born :: n.born[id].depth <= n.dag.maxDepth)
            && (n.dag.maxDepth > 0 ==> exists id | id in n.born :: n.born[id].depth == n.dag.maxDepth)
            && (forall j | j in n.jobs && (n.jobs[j].Floored? || n.jobs[j].Flagged? || n.jobs[j].Cached?) ::
                  n.jobs[j].anchor.depth < n.floor)
  {
    StartInv(cfg);
    RunFront(Start(cfg), steps);
  }
}
