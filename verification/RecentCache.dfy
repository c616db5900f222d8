/** The bounded cache of recently finalized events, evicting the least recently used entry. */
module RecentCache {
  import opened Types

  /** What is remembered of a finalized event. */
  datatype Meta = Meta(depth: nat, anchor: Digest, finalizedAt: nat, parents: seq<EventId>)
  datatype Line = Line(id: EventId, meta: Meta)

  /** Lines from the least to the most recently used. */
  type Lines = seq<Line>

  ghost predicate Unique(c: Lines) { forall i, j | 0 <= i < j < |c| :: c[i].id != c[j].id }

  function Find(c: Lines, id: EventId): (r: Option<Meta>)
    ensures r.Some? ==> Line(id, r.value) in c
    ensures r.None? ==> forall l | l in c :: l.id != id
  {
    if c == [] then None else if c[0].id == id then Some(c[0].meta) else Find(c[1..], id)
  }

  function Drop(c: Lines, id: EventId): (r: Lines)
    ensures |r| <= |c|
    ensures forall l | l in r :: l in c
    ensures forall l | l in c && l.id != id :: l in r
    ensures Unique(c) ==> Unique(r) && forall l | l in r :: l.id != id
    ensures (exists l | l in c :: l.id == id) ==> |r| < |c|
  {
    if c == [] then [] else if c[0].id == id then c[1..] else [c[0]] + Drop(c[1..], id)
  }

  function AfterPut(c: Lines, capacity: nat, id: EventId, meta: Meta): Lines {
    if Find(c, id).Some? then Drop(c, id) + [Line(id, meta)]
    else if 0 < |c| && capacity <= |c| then c[1..] + [Line(id, meta)]
    else c + [Line(id, meta)]
  }

  /** A hit makes the line the most recently used one. */
  function AfterGet(c: Lines, id: EventId): Lines {
    match Find(c, id)
    case Some(m) => Drop(c, id) + [Line(id, m)]
    case None => c
  }

  /** `a` was used less recently than `b`. */
  ghost predicate Older(c: Lines, a: EventId, b: EventId) {
    exists i, j :: 0 <= i < j < |c| && c[i].id == a && c[j].id == b
  }

  /** The lines of all ids but `id` stand in `after` as in `before`, one after the other. */
  ghost predicate SameOrder(before: Lines, after: Lines, id: EventId) {
    forall a, b | a != id && b != id :: Older(after, a, b) ==> Older(before, a, b)
  }

  lemma FindIs(c: Lines, id: EventId, meta: Meta)
    requires Unique(c)
    ensures Find(c, id) == Some(meta) <==> Line(id, meta) in c
  {
    if Line(id, meta) in c && Find(c, id).Some? {
      var i :| 0 <= i < |c| && c[i] == Line(id, meta);
      var j :| 0 <= j < |c| && c[j] == Line(id, Find(c, id).value);
    }
  }

  lemma CutFurther(c: Lines, h: nat)
    requires h + 1 < |c|
    ensures [c[0]] + (c[1..][..h] + c[1..][h + 1..]) == c[..h + 1] + c[h + 2..]
  {
    assert c[..h + 1] == [c[0]] + c[1..][..h];
    assert c[h + 2..] == c[1..][h + 1..];
  }

  lemma {:induction false} DropIs(c: Lines, id: EventId) returns (k: nat)
    requires Find(c, id).Some?
    ensures k < |c| && c[k].id == id && Drop(c, id) == c[..k] + c[k + 1..]
    decreases |c|
  {
    if c[0].id == id {
      k := 0;
    } else {
      var h := DropIs(c[1..], id);
      k := h + 1;
      assert Drop(c, id) == [c[0]] + Drop(c[1..], id);
      CutFurther(c, h);
    }
  }

  lemma CutKeepsOrder(c: Lines, k: nat, line: Line)
    requires k < |c|
    ensures SameOrder(c, c[..k] + c[k + 1..] + [line], line.id)
  {
    var r := c[..k] + c[k + 1..] + [line];
    forall a, b | a != line.id && b != line.id && Older(r, a, b) ensures Older(c, a, b) {
      var i, j :| 0 <= i < j < |r| && r[i].id == a && r[j].id == b;
      var i', j' := if i < k then i else i + 1, if j < k then j else j + 1;
      assert c[i'].id == a && c[j'].id == b;
    }
  }

  lemma AddKeepsOrder(c: Lines, line: Line)
    ensures SameOrder(c, c + [line], line.id)
  {
    var r := c + [line];
    forall a, b | a != line.id && b != line.id && Older(r, a, b) ensures Older(c, a, b) {
      var i, j :| 0 <= i < j < |r| && r[i].id == a && r[j].id == b;
      assert c[i].id == a && c[j].id == b;
    }
  }

  lemma PutKeepsOrder(c: Lines, capacity: nat, id: EventId, meta: Meta)
    ensures var r := AfterPut(c, capacity, id, meta); SameOrder(c, r, id) && r[|r| - 1] == Line(id, meta)
  {
    if Find(c, id).Some? {
      var k := DropIs(c, id);
      CutKeepsOrder(c, k, Line(id, meta));
    } else if 0 < |c| && capacity <= |c| {
      CutKeepsOrder(c, 0, Line(id, meta));
      assert c[..0] + c[1..] == c[1..];
    } else {
      AddKeepsOrder(c, Line(id, meta));
    }
  }

  lemma PutKeepsFound(c: Lines, capacity: nat, id: EventId, meta: Meta, x: EventId)
    requires Unique(c) && x != id
    ensures var r := AfterPut(c, capacity, id, meta);
            Unique(r) && Find(r, x) ==
            (if Find(c, id).None? && 0 < |c| && capacity <= |c| && c[0].id == x then None else Find(c, x))
  {
    var r := AfterPut(c, capacity, id, meta);
    if Find(c, x).Some? { FindIs(r, x, Find(c, x).value); }
    if Find(r, x).Some? { FindIs(c, x, Find(r, x).value); }
  }

  lemma GetKeepsFound(c: Lines, id: EventId, x: EventId)
    requires Unique(c)
    ensures Unique(AfterGet(c, id)) && Find(AfterGet(c, id), x) == Find(c, x)
  {
    var r := AfterGet(c, id);
    if Find(c, id).Some? {
      assert Unique(r);
      if Find(c, x).Some? { FindIs(r, x, Find(c, x).value); }
      if Find(r, x).Some? { FindIs(c, x, Find(r, x).value); }
    }
  }

  lemma GetKeepsOrder(c: Lines, id: EventId)
    ensures SameOrder(c, AfterGet(c, id), id)
    ensures Find(c, id).Some? ==> AfterGet(c, id)[|AfterGet(c, id)| - 1].id == id
  {
    if Find(c, id).Some? {
      var k := DropIs(c, id);
      CutKeepsOrder(c, k, Line(id, Find(c, id).value));
    }
  }

  class RecentEventCache {
    var lines: Lines
    const capacity: nat
    var hits: nat
    var misses: nat
    var evictions: nat

    ghost predicate Valid()
      reads this
    {
      capacity > 0 && |lines| <= capacity && Unique(lines)
    }

    constructor (capacity: nat)
      requires capacity > 0
      ensures Valid() && lines == [] && this.capacity == capacity
      ensures hits == misses == evictions == 0
    {
      this.capacity := capacity;
      lines, hits, misses, evictions := [], 0, 0, 0;
    }

    /** Inserts or updates; a new id in a full cache costs the least recently used line. */
    method Put(id: EventId, meta: Meta) returns (evicted: Option<Line>)
      requires Valid()
      modifies this
      ensures Valid() && lines == AfterPut(old(lines), capacity, id, meta)
      ensures Find(lines, id) == Some(meta)
      ensures evicted == if Find(old(lines), id).None? && |old(lines)| == capacity then Some(old(lines)[0]) else None
      ensures forall x | x != id ::
                Find(lines, x) == if evicted.Some? && evicted.value.id == x then None else Find(old(lines), x)
      ensures lines != [] && lines[|lines| - 1].id == id && SameOrder(old(lines), lines, id)
      ensures evictions == old(evictions) + (if evicted.Some? then 1 else 0)
      ensures hits == old(hits) && misses == old(misses)
    {
      PutKeepsOrder(lines, capacity, id, meta);
      forall x | x != id ensures Find(AfterPut(lines, capacity, id, meta), x) ==
        if Find(lines, id).None? && |lines| == capacity && lines[0].id == x then None else Find(lines, x)
      {
        PutKeepsFound(lines, capacity, id, meta, x);
      }
      if Find(lines, id).Some? {
        lines := Drop(lines, id) + [Line(id, meta)];
        FindLast(lines, id, meta);
        return None;
      }
      if |lines| >= capacity {
        evicted := Some(lines[0]);
        lines := lines[1..];
        evictions := evictions + 1;
      } else {
        evicted := None;
      }
      lines := lines + [Line(id, meta)];
      FindLast(lines, id, meta);
    }

    /** Looks an entry up and makes it the most recent one. */
    method Get(id: EventId) returns (r: Option<Meta>)
      requires Valid()
      modifies this
      ensures Valid() && r == Find(old(lines), id) && lines == AfterGet(old(lines), id)
      ensures forall x :: Find(lines, x) == Find(old(lines), x)
      ensures SameOrder(old(lines), lines, id) && (r.Some? ==> lines != [] && lines[|lines| - 1].id == id)
      ensures hits == old(hits) + (if r.Some? then 1 else 0)
      ensures misses == old(misses) + (if r.Some? then 0 else 1)
      ensures evictions == old(evictions)
    {
      forall x ensures Find(AfterGet(lines, id), x) == Find(lines, x) { GetKeepsFound(lines, id, x); }
      GetKeepsOrder(lines, id);
      r := Find(lines, id);
      if r.Some? {
        hits := hits + 1;
        lines := Drop(lines, id) + [Line(id, r.value)];
      } else {
        misses := misses + 1;
      }
    }

    method Contains(id: EventId) returns (r: bool)
      ensures r <==> exists l | l in lines :: l.id == id
    {
      r := Find(lines, id).Some?;
    }
  }

  lemma {:induction false} FindLast(c: Lines, id: EventId, meta: Meta)
    requires c != [] && c[|c| - 1] == Line(id, meta) && Unique(c)
    ensures Find(c, id) == Some(meta)
  {
    if |c| > 1 { FindLast(c[1..], id, meta); }
  }
}
