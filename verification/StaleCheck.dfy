/** The chain-root check is a lock section of its own: a run in which a frame passes it, the chain moves,
    and the frame is applied all the same. */
module StaleCheck {
  import opened Types
  import opened StateApply
  import opened DagModel
  import opened BuilderModel
  import opened ManagerModel
  import opened Lifecycle
  import opened Calls
  import opened Once
  import opened Twice

  /** The second frame is final, and nothing is under way. */
  ghost predicate SecondFinal(m: Manager) {
    && Plain(m) && m.frames == map[] && m.builds == map[] && m.frameEvents == map[]
    && m.finalized == [Twice.Proposed(3, TwoVotes(3)).(status := FrameFinalized)]
    && m.builder.meta == Synchronized(START.meta, Build(3).anchor) && StateRoot(m.builder.gsm) == StateRoot(INITIAL)
  }

  lemma LeaderCommits()
    ensures var (b, r) := Commit(START, Build(3), true, 3);
            r.Done? && b.meta == Synchronized(START.meta, Build(3).anchor) && StateRoot(b.gsm) == StateRoot(INITIAL)
  {
    NoEffect(INITIAL, Build(3).anchor.depth + 1);
    NoEffect(INITIAL, 0);
    CommitMovesChain(START, Build(3), true, 3);
  }

  lemma SecondCommits(m: Manager)
    requires OpenAt(m, 3)
    ensures Do(m, LAST_VOTE).1 == Finalizes(IdAt(3)) && SecondFinal(Do(m, LAST_VOTE).0)
    ensures Target(m, LAST_VOTE) == Some(Build(3).anchor)
  {
    DoIsReach(m, LAST_VOTE);
    var (c, about) := Reach(m, LAST_VOTE);
    assert OneVote(3)["b" := Vote("b", IdAt(3), true)] == TwoVotes(3);
    assert c.frames == map[IdAt(3) := Twice.Proposed(3, TwoVotes(3))];
    TwoApprove(3);
    SecondFinishes(c);
  }

  lemma SecondFinishes(c: Manager)
    requires Plain(c) && c.builder == START && c.finalized == [] && c.frameEvents == map[]
    requires c.frames == map[IdAt(3) := Twice.Proposed(3, TwoVotes(3))] && c.builds == map[IdAt(3) := Build(3)]
    ensures var (n, o) := Finish(c, IdAt(3), true, 3); o == Finalizes(IdAt(3)) && SecondFinal(n)
  {
    LeaderCommits();
    assert c.frames - {IdAt(3)} == map[] && c.builds - {IdAt(3)} == map[] && c.frameEvents - {IdAt(3)} == map[];
    assert ApplyFrame(c, IdAt(3), Build(3).anchor, true, 3) == (Commit(START, Build(3), true, 3).0, None);
  }

  lemma LateFollows(b: Builder)
    requires StateRoot(b.gsm) == StateRoot(INITIAL)
    ensures Follow(b, [EVENT], Build(1).anchor, true, 3).1.Done?
  {
    NoEffect(INITIAL, 0);
    NoEffect(b.gsm, Build(1).anchor.depth + 1);
  }

  lemma LateReach(m: Manager, d: DagState)
    requires SecondFinal(m) && HasEvent(d)
    ensures var (c, about) := Reach(m, Returned(d));
            && about == Some(IdAt(1)) && Plain(c) && c.builder == m.builder && c.builds == map[]
            && c.frames == map[IdAt(1) := Twice.Proposed(1, TwoVotes(1))] && c.frameEvents == map[IdAt(1) := [EVENT]]
  {
    var f := Twice.Proposed(1, TwoVotes(1));
    assert IdAt(1) != IdAt(3);
    assert f.anchor.eventIds == [1];
    assert [1][..0] == [] && CollectEvents(d, []) == [];
    assert CollectEvents(d, [1]) == [EVENT];
    assert AddAllOnce(f.votes, []) == f.votes;
    var s := StoreEvents(m, d, f);
    assert s.frameEvents == map[IdAt(1) := [EVENT]];
    assert s.buffered - {f.id} == map[];
  }

  lemma ReturnsLate(m: Manager, d: DagState)
    requires SecondFinal(m) && HasEvent(d)
    ensures Do(m, Returned(d)).1.Finalizes? && Target(m, Returned(d)) == Some(Build(1).anchor)
    ensures !ChainMatches(m, Build(1).anchor)
  {
    LateReach(m, d);
    DoIsReach(m, Returned(d));
    TwoApprove(1);
    LateFollows(m.builder);
    FinishShape(Reach(m, Returned(d)).0, IdAt(1), true, 3);
  }

  /** The chain has moved since the first frame passed the check. */
  ghost predicate Stale(n: Node) {
    && SecondFinal(n.m) && HasEvent(n.dag) && n.log == [Build(3).anchor] && n.unmarked.None?
    && Twice.Proposed(1, TwoVotes(1)) in n.cleared
  }

  /** The second frame has just become final, and its event is still to be marked. */
  ghost predicate Unmarked(n: Node) {
    && SecondFinal(n.m) && HasEvent(n.dag) && n.log == [Build(3).anchor] && n.unmarked == Some(Build(3).anchor)
    && Twice.Proposed(1, TwoVotes(1)) in n.cleared
  }

  lemma Overtakes(n: Node)
    requires Waiting(n)
    ensures Once.Allowed(n, Engine(LAST_VOTE)) && Unmarked(Once.Next(n, Engine(LAST_VOTE)))
  {
    SecondCommits(n.m);
    assert [] + [Build(3).anchor] == [Build(3).anchor];
    assert Newest(Do(n.m, LAST_VOTE).0.finalized) == Some(Build(3).anchor);
  }

  lemma GoesStale(n: Node)
    requires Unmarked(n)
    ensures Stale(Once.Next(n, Mark))
  {
    MarkedStill(n.dag, IdSet(Build(3).anchor.eventIds));
  }

  lemma MarkedStill(d: DagState, ids: set<EventId>)
    requires HasEvent(d)
    ensures HasEvent(FinalizedIn(d, ids))
  {
    FinalizedInConsistent(d, ids);
  }

  lemma CanReturnLate(n: Node)
    requires Stale(n)
    ensures Once.Allowed(n, Engine(Returned(n.dag)))
    ensures Once.Next(n, Engine(Returned(n.dag))).log == [Build(3).anchor, Build(1).anchor]
  {
    ReturnsLate(n.m, n.dag);
    assert [Build(3).anchor] + [Build(1).anchor] == [Build(3).anchor, Build(1).anchor];
  }

  lemma GoStale(s0: Node, steps: seq<Step>) returns (more: seq<Step>)
    requires AllowedRun(s0, steps) && Waiting(After(s0, steps))
    ensures AllowedRun(s0, more) && Stale(After(s0, more))
  {
    Overtakes(After(s0, steps));
    more := OneMore(s0, steps, Engine(LAST_VOTE));
    GoesStale(After(s0, more));
    more := OneMore(s0, more, Mark);
  }

  /** The first frame passes the check while the second is open over the same event; the second becomes
      final; then the first is applied on a chain root that is not its own, and both name the event. */
  lemma AppliedOnMovedChain() returns (before: seq<Step>, t: Turn, steps: seq<Step>)
    ensures var s0 := Fresh(CFG, "a", START);
            && AllowedRun(s0, before) && !ChainMatches(After(s0, before).m, Build(1).anchor)
            && Once.Allowed(After(s0, before), Engine(t)) && AllowedRun(s0, steps)
            && After(s0, steps) == Once.Next(After(s0, before), Engine(t))
            && After(s0, steps).log == [Build(3).anchor, Build(1).anchor] && !Disjoint(After(s0, steps).log)
  {
    var s0 := Fresh(CFG, "a", START);
    before := Start();
    before := Again(s0, before);
    before := GoStale(s0, before);
    var n := After(s0, before);
    t := Returned(n.dag);
    ReturnsLate(n.m, n.dag);
    CanReturnLate(n);
    steps := OneMore(s0, before, Engine(t));
    BothName([Build(3).anchor, Build(1).anchor]);
  }

  lemma BothName(log: seq<Anchor>)
    requires log == [Build(3).anchor, Build(1).anchor]
    ensures !Disjoint(log)
  {
    assert log[0].eventIds == [1] && log[1].eventIds == [1];
    assert 1 in IdSet(log[0].eventIds) && 1 in IdSet(log[1].eventIds);
  }
}
