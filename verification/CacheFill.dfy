/** What the cache holds after an anchor's events were entered, and after warming up. */
module CacheFill {
  import opened Types
  import opened DagModel
  import opened RecentCache
  import opened Layers

  /** Exactly `r` lines were used more recently than the one for the id. */
  ghost predicate Rank(c: Lines, id: EventId, r: nat) { r < |c| && c[|c| - 1 - r].id == id }

  /** And that line holds the value. */
  ghost predicate RankOf(c: Lines, id: EventId, meta: Meta, r: nat) { r < |c| && c[|c| - 1 - r] == Line(id, meta) }

  lemma PutIsNewest(c: Lines, cap: nat, id: EventId, meta: Meta)
    requires Unique(c)
    ensures var n := AfterPut(c, cap, id, meta); Unique(n) && RankOf(n, id, meta, 0)
  {
  }

  lemma DropPushesBack(c: Lines, k: nat, line: Line, r: nat)
    requires k < |c| && r < |c| && |c| - 1 - r != k
    ensures var n := c[..k] + c[k + 1..] + [line];
            var s := if |c| - 1 - r < k then r else r + 1;
            s < |n| && n[|n| - 1 - s] == c[|c| - 1 - r]
  {
  }

  lemma AddPushesBack(c: Lines, line: Line, r: nat)
    requires r < |c|
    ensures (c + [line])[|c| - 1 - r] == c[|c| - 1 - r] && |c + [line]| - 1 - (r + 1) == |c| - 1 - r
  {
  }

  /** An entry takes at most one line out, that of its id or the oldest of a full cache, and adds one. */
  lemma PutShape(c: Lines, cap: nat, id: EventId, meta: Meta) returns (k: int)
    ensures k == -1 ==> AfterPut(c, cap, id, meta) == c + [Line(id, meta)]
    ensures k != -1 ==> 0 <= k < |c| && AfterPut(c, cap, id, meta) == c[..k] + c[k + 1..] + [Line(id, meta)]
    ensures k != -1 ==> c[k].id == id || (k == 0 && cap <= |c|)
  {
    if Find(c, id).Some? {
      k := DropIs(c, id);
    } else if 0 < |c| && cap <= |c| {
      k := 0;
      assert c[..0] + c[1..] == c[1..];
    } else {
      k := -1;
    }
  }

  /** One more entry pushes a line back by at most one place, and out only from the last place. */
  lemma PutPushesBack(c: Lines, cap: nat, id: EventId, meta: Meta, x: EventId, r: nat) returns (s: nat)
    requires x != id && Rank(c, x, r) && r + 1 < cap
    ensures s <= r + 1 && s < |AfterPut(c, cap, id, meta)|
    ensures AfterPut(c, cap, id, meta)[|AfterPut(c, cap, id, meta)| - 1 - s] == c[|c| - 1 - r]
  {
    var k := PutShape(c, cap, id, meta);
    s := PushedBack(c, k, Line(id, meta), AfterPut(c, cap, id, meta), r);
  }

  lemma PushedBack(c: Lines, k: int, line: Line, n: Lines, r: nat) returns (s: nat)
    requires r < |c| && k != |c| - 1 - r
    requires if k == -1 then n == c + [line] else 0 <= k < |c| && n == c[..k] + c[k + 1..] + [line]
    ensures s <= r + 1 && s < |n| && n[|n| - 1 - s] == c[|c| - 1 - r]
  {
    if k == -1 {
      AddPushesBack(c, line, r);
      s := r + 1;
    } else {
      DropPushesBack(c, k, line, r);
      s := if |c| - 1 - r < k then r else r + 1;
    }
  }

  // ---- The events of an anchor ----

  function MetaIn(d: DagState, a: Anchor, id: EventId, now: nat): Meta
    requires id in d.events && id in d.depths
  {
    Meta(d.depths[id], a.id, now, d.ParentsOf(id))
  }

  lemma {:induction false} FilledUnique(c: Lines, cap: nat, d: DagState, a: Anchor, ids: seq<EventId>, now: nat)
    requires Unique(c)
    ensures Unique(FilledFromDag(c, cap, d, a, ids, now))
    decreases |ids|
  {
    if ids != [] {
      FilledUnique(c, cap, d, a, ids[..|ids| - 1], now);
      var id := ids[|ids| - 1];
      if id in d.events && id in d.depths {
        PutIsNewest(FilledFromDag(c, cap, d, a, ids[..|ids| - 1], now), cap, id, MetaIn(d, a, id, now));
      }
    }
  }

  lemma FillOneMore(rest: Lines, cap: nat, d: DagState, a: Anchor, id: EventId, now: nat, x: EventId, m: Meta, r: nat)
    returns (s: nat)
    requires RankOf(rest, x, m, r) && x != id && r + 1 < cap
    ensures s <= r + 1
    ensures RankOf(if id in d.events && id in d.depths then AfterPut(rest, cap, id, MetaIn(d, a, id, now)) else rest,
                   x, m, s)
  {
    s := r;
    if id in d.events && id in d.depths { s := PutPushesBack(rest, cap, id, MetaIn(d, a, id, now), x, r); }
  }

  /** The last events of the anchor that are in the DAG, as many as fit, are the most recent lines. */
  lemma {:induction false} FilledIsRecent(c: Lines, cap: nat, d: DagState, a: Anchor, ids: seq<EventId>, now: nat,
                                          i: nat)
    returns (r: nat)
    requires Unique(c) && i < |ids| && ids[i] in d.events && ids[i] in d.depths && |ids| - i <= cap
    ensures r <= |ids| - 1 - i
    ensures RankOf(FilledFromDag(c, cap, d, a, ids, now), ids[i], MetaIn(d, a, ids[i], now), r)
    decreases |ids|
  {
    var k, x := |ids| - 1, ids[|ids| - 1];
    var rest := FilledFromDag(c, cap, d, a, ids[..k], now);
    FilledUnique(c, cap, d, a, ids[..k], now);
    if x == ids[i] {
      PutIsNewest(rest, cap, x, MetaIn(d, a, x, now));
      r := 0;
    } else {
      r := FilledIsRecent(c, cap, d, a, ids[..k], now, i);
      r := FillOneMore(rest, cap, d, a, x, now, ids[i], MetaIn(d, a, ids[i], now), r);
    }
  }

  /** After an anchor's events were entered, each of the last ones that fit is found with its depth, the anchor and
      its parents. */
  lemma AnchorIsCached(c: Lines, cap: nat, d: DagState, a: Anchor, now: nat, i: nat)
    requires Unique(c) && i < |a.eventIds| && |a.eventIds| - i <= cap
    requires a.eventIds[i] in d.events && a.eventIds[i] in d.depths
    ensures var id := a.eventIds[i];
            Find(FilledFromDag(c, cap, d, a, a.eventIds, now), id)
            == Some(Meta(d.depths[id], a.id, now, d.ParentsOf(id)))
  {
    var r := FilledIsRecent(c, cap, d, a, a.eventIds, now, i);
    var n := FilledFromDag(c, cap, d, a, a.eventIds, now);
    FilledUnique(c, cap, d, a, a.eventIds, now);
    assert n[|n| - 1 - r] in n;
    FindIs(n, a.eventIds[i], MetaIn(d, a, a.eventIds[i], now));
  }

  // ---- Warming up ----

  /** What is entered for an event of an anchor from the store. */
  function MetaFrom(store: map<EventId, nat>, born: map<EventId, Birth>, a: Anchor, id: EventId): Meta
    requires id in store && id in born
  {
    Meta(store[id], a.id, a.timestamp, born[id].event.parents)
  }

  lemma {:induction false} LoadUnique(c: Lines, cap: nat, store: map<EventId, nat>, born: map<EventId, Birth>,
                                      a: Anchor, ids: seq<EventId>)
    requires Unique(c)
    ensures Unique(FilledFromStore(c, cap, store, born, a, ids))
    decreases |ids|
  {
    if ids != [] {
      var k := |ids| - 1;
      LoadUnique(c, cap, store, born, a, ids[..k]);
      if ids[k] in store && ids[k] in born {
        PutIsNewest(FilledFromStore(c, cap, store, born, a, ids[..k]), cap, ids[k], MetaFrom(store, born, a, ids[k]));
      }
    }
  }

  /** Loading one more event keeps what is recent. */
  lemma LoadOneMore(rest: Lines, cap: nat, store: map<EventId, nat>, born: map<EventId, Birth>, a: Anchor, id: EventId,
                    x: EventId, r: nat) returns (s: nat)
    requires Unique(rest) && Rank(rest, x, r) && r + 1 < cap
    ensures s <= r + 1
    ensures Rank(if id in store && id in born then AfterPut(rest, cap, id, MetaFrom(store, born, a, id)) else rest,
                 x, s)
  {
    s := r;
    if id in store && id in born {
      var m := MetaFrom(store, born, a, id);
      if x == id {
        PutIsNewest(rest, cap, id, m);
        s := 0;
      } else {
        s := PutPushesBack(rest, cap, id, m, x, r);
      }
    }
  }

  lemma {:induction false} LoadKeeps(c: Lines, cap: nat, store: map<EventId, nat>, born: map<EventId, Birth>,
                                     a: Anchor, ids: seq<EventId>, x: EventId, r: nat) returns (s: nat)
    requires Unique(c) && Rank(c, x, r) && r + |ids| < cap
    ensures s <= r + |ids| && Rank(FilledFromStore(c, cap, store, born, a, ids), x, s)
    decreases |ids|
  {
    s := r;
    if ids != [] {
      var k := |ids| - 1;
      s := LoadKeeps(c, cap, store, born, a, ids[..k], x, r);
      LoadUnique(c, cap, store, born, a, ids[..k]);
      s := LoadOneMore(FilledFromStore(c, cap, store, born, a, ids[..k]), cap, store, born, a, ids[k], x, s);
    }
  }

  lemma {:induction false} LoadHas(c: Lines, cap: nat, store: map<EventId, nat>, born: map<EventId, Birth>, a: Anchor,
                                   ids: seq<EventId>, i: nat) returns (r: nat)
    requires Unique(c) && i < |ids| && ids[i] in store && ids[i] in born && |ids| - i <= cap
    ensures r <= |ids| - 1 - i && Rank(FilledFromStore(c, cap, store, born, a, ids), ids[i], r)
    decreases |ids|
  {
    var k := |ids| - 1;
    LoadUnique(c, cap, store, born, a, ids[..k]);
    var rest := FilledFromStore(c, cap, store, born, a, ids[..k]);
    if i == k {
      PutIsNewest(rest, cap, ids[k], MetaFrom(store, born, a, ids[k]));
      r := 0;
    } else {
      r := LoadHas(c, cap, store, born, a, ids[..k], i);
      r := LoadOneMore(rest, cap, store, born, a, ids[k], ids[i], r);
    }
  }

  /** How many events come after those of anchor `j`. */
  function IdsAfter(anchors: seq<Anchor>, j: nat): nat
    requires j < |anchors|
    decreases |anchors|
  {
    var k := |anchors| - 1;
    if j == k then 0 else IdsAfter(anchors[..k], j) + |anchors[k].eventIds|
  }

  lemma {:induction false} WarmedUnique(c: Lines, cap: nat, store: map<EventId, nat>, born: map<EventId, Birth>,
                                        anchors: seq<Anchor>)
    requires Unique(c)
    ensures Unique(Warmed(c, cap, store, born, anchors))
    decreases |anchors|
  {
    if anchors != [] {
      var k := |anchors| - 1;
      WarmedUnique(c, cap, store, born, anchors[..k]);
      LoadUnique(Warmed(c, cap, store, born, anchors[..k]), cap, store, born, anchors[k], anchors[k].eventIds);
    }
  }

  lemma {:induction false} WarmedHas(c: Lines, cap: nat, store: map<EventId, nat>, born: map<EventId, Birth>,
                                     anchors: seq<Anchor>, j: nat, i: nat) returns (r: nat)
    requires Unique(c) && j < |anchors| && i < |anchors[j].eventIds|
    requires anchors[j].eventIds[i] in store && anchors[j].eventIds[i] in born
    requires |anchors[j].eventIds| - i + IdsAfter(anchors, j) <= cap
    ensures r <= |anchors[j].eventIds| - 1 - i + IdsAfter(anchors, j)
    ensures Rank(Warmed(c, cap, store, born, anchors), anchors[j].eventIds[i], r)
    decreases |anchors|
  {
    var k := |anchors| - 1;
    var rest := Warmed(c, cap, store, born, anchors[..k]);
    WarmedUnique(c, cap, store, born, anchors[..k]);
    if j == k {
      r := LoadHas(rest, cap, store, born, anchors[k], anchors[k].eventIds, i);
    } else {
      r := WarmedHas(c, cap, store, born, anchors[..k], j, i);
      r := LoadKeeps(rest, cap, store, born, anchors[k], anchors[k].eventIds, anchors[j].eventIds[i], r);
    }
  }

  /** After warming up, every persisted event of the given anchors is found that has fewer events after it in their
      lists than the cache has lines. */
  lemma WarmUpLoads(c: Lines, cap: nat, store: map<EventId, nat>, born: map<EventId, Birth>, anchors: seq<Anchor>,
                    j: nat, i: nat)
    requires Unique(c) && j < |anchors| && i < |anchors[j].eventIds|
    requires anchors[j].eventIds[i] in store && anchors[j].eventIds[i] in born
    requires |anchors[j].eventIds| - i + IdsAfter(anchors, j) <= cap
    ensures Find(Warmed(c, cap, store, born, anchors), anchors[j].eventIds[i]).Some?
  {
    var r := WarmedHas(c, cap, store, born, anchors, j, i);
    var n := Warmed(c, cap, store, born, anchors);
    assert n[|n| - 1 - r] in n;
  }
}
