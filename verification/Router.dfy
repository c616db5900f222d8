/** Routing a batch of events into buckets, and listing the buckets again. */
module Router {
  import opened Types

  datatype Bucket = ToRoot | ToSystem(subnet: SubnetId) | ToApp(subnet: SubnetId) | ToNone

  function BucketOf(e: Event): Bucket {
    if e.subnet.None? then ToNone
    else
      var s := e.subnet.value;
      if e.kind.IsValidatorExecuted() || s.IsRoot() then ToRoot
      else if s.IsSystem() then ToSystem(s)
      else if s.IsApp() then ToApp(s)
      else ToNone
  }

  datatype RoutedEvents = RoutedEvents(root: seq<Event>, system: map<SubnetId, seq<Event>>,
                                       app: map<SubnetId, seq<Event>>, unrouted: seq<Event>)

  /** The events of some buckets, in their order of arrival. */
  function InBuckets(events: seq<Event>, bs: set<Bucket>): seq<Event> {
    if events == [] then []
    else
      var k := |events| - 1;
      InBuckets(events[..k], bs) + (if BucketOf(events[k]) in bs then [events[k]] else [])
  }

  ghost predicate Occurs(events: seq<Event>, b: Bucket) { exists e | e in events :: BucketOf(e) == b }

  function SubnetBucket(system: bool, s: SubnetId): Bucket { if system then ToSystem(s) else ToApp(s) }

  ghost predicate RoutesMap(m: map<SubnetId, seq<Event>>, events: seq<Event>, system: bool) {
    && (forall s :: s in m <==> Occurs(events, SubnetBucket(system, s)))
    && (forall s | s in m :: m[s] == InBuckets(events, {SubnetBucket(system, s)}))
  }

  /** Every bucket holds exactly its own events, in order, and no bucket is made in vain. */
  ghost predicate Routes(r: RoutedEvents, events: seq<Event>) {
    && r.root == InBuckets(events, {ToRoot})
    && r.unrouted == InBuckets(events, {ToNone})
    && RoutesMap(r.system, events, true)
    && RoutesMap(r.app, events, false)
  }

  function Pushed(m: map<SubnetId, seq<Event>>, s: SubnetId, e: Event): map<SubnetId, seq<Event>> {
    m[s := (if s in m then m[s] else []) + [e]]
  }

  function RouteOne(r: RoutedEvents, e: Event): RoutedEvents {
    match BucketOf(e)
    case ToRoot => r.(root := r.root + [e])
    case ToSystem(s) => r.(system := Pushed(r.system, s, e))
    case ToApp(s) => r.(app := Pushed(r.app, s, e))
    case ToNone => r.(unrouted := r.unrouted + [e])
  }

  lemma OccursStep(events: seq<Event>, e: Event)
    ensures forall b :: Occurs(events + [e], b) <==> Occurs(events, b) || BucketOf(e) == b
  {
    forall b ensures Occurs(events + [e], b) <==> Occurs(events, b) || BucketOf(e) == b {
      assert e in events + [e];
      if x :| x in events && BucketOf(x) == b { assert x in events + [e]; }
    }
  }

  lemma {:induction false} NotOccurring(events: seq<Event>, b: Bucket)
    requires !Occurs(events, b)
    ensures InBuckets(events, {b}) == []
    decreases |events|
  {
    if events != [] {
      assert events[|events| - 1] in events;
      NotOccurring(events[..|events| - 1], b);
    }
  }

  lemma InBucketsStep(events: seq<Event>, e: Event, bs: set<Bucket>)
    ensures InBuckets(events + [e], bs)
            == if BucketOf(e) in bs then InBuckets(events, bs) + [e] else InBuckets(events, bs)
  {
    assert (events + [e])[..|events|] == events;
  }

  lemma PushedKeeps(m: map<SubnetId, seq<Event>>, events: seq<Event>, system: bool, e: Event, s: SubnetId)
    requires RoutesMap(m, events, system) && BucketOf(e) == SubnetBucket(system, s)
    ensures RoutesMap(Pushed(m, s, e), events + [e], system)
  {
    OccursStep(events, e);
    if s !in m { NotOccurring(events, SubnetBucket(system, s)); }
    var n := Pushed(m, s, e);
    forall t | t in n ensures n[t] == InBuckets(events + [e], {SubnetBucket(system, t)}) {
      InBucketsStep(events, e, {SubnetBucket(system, t)});
    }
  }

  lemma OtherKeeps(m: map<SubnetId, seq<Event>>, events: seq<Event>, system: bool, e: Event)
    requires RoutesMap(m, events, system) && forall s :: BucketOf(e) != SubnetBucket(system, s)
    ensures RoutesMap(m, events + [e], system)
  {
    OccursStep(events, e);
    forall t | t in m ensures m[t] == InBuckets(events + [e], {SubnetBucket(system, t)}) {
      InBucketsStep(events, e, {SubnetBucket(system, t)});
    }
  }

  lemma RouteOneKeeps(r: RoutedEvents, events: seq<Event>, e: Event)
    requires Routes(r, events)
    ensures Routes(RouteOne(r, e), events + [e])
  {
    InBucketsStep(events, e, {ToRoot});
    InBucketsStep(events, e, {ToNone});
    var b := BucketOf(e);
    if b.ToSystem? { PushedKeeps(r.system, events, true, e, b.subnet); } else { OtherKeeps(r.system, events, true, e); }
    if b.ToApp? { PushedKeeps(r.app, events, false, e, b.subnet); } else { OtherKeeps(r.app, events, false, e); }
  }

  function Route(events: seq<Event>): RoutedEvents {
    if events == [] then RoutedEvents([], map[], map[], [])
    else RouteOne(Route(events[..|events| - 1]), events[|events| - 1])
  }

  lemma {:induction false} RouteIsRight(events: seq<Event>)
    ensures Routes(Route(events), events)
    decreases |events|
  {
    if events != [] {
      var k := |events| - 1;
      RouteIsRight(events[..k]);
      RouteOneKeeps(Route(events[..k]), events[..k], events[k]);
      assert events == events[..k] + [events[k]];
    }
  }

  method RouteEvents(events: seq<Event>) returns (r: RoutedEvents)
    ensures r == Route(events) && Routes(r, events)
  {
    r := RoutedEvents([], map[], map[], []);
    for i := 0 to |events|
      invariant r == Route(events[..i])
    {
      var e := events[i];
      assert events[..i + 1][..i] == events[..i];
      if e.subnet.None? {
        r := r.(unrouted := r.unrouted + [e]);
      } else {
        var s := e.subnet.value;
        if e.kind.IsValidatorExecuted() || s.IsRoot() {
          r := r.(root := r.root + [e]);
        } else if s.IsSystem() {
          r := r.(system := Pushed(r.system, s, e));
        } else if s.IsApp() {
          r := r.(app := Pushed(r.app, s, e));
        } else {
          r := r.(unrouted := r.unrouted + [e]);
        }
      }
    }
    assert events[..|events|] == events;
    RouteIsRight(events);
  }

  // ---- Which bucket ----

  /** Events that validators execute themselves, whatever subnet they name. */
  const VALIDATOR_KINDS: set<EventKind> :=
    {Genesis, System, ValidatorRegister, ValidatorUnregister, SolverRegister, SolverUnregister, SubnetRegister,
     UserRegister, ContractPublish}

  lemma {:induction false} InBucketsHas(events: seq<Event>, bs: set<Bucket>, e: Event)
    ensures e in InBuckets(events, bs) <==> e in events && BucketOf(e) in bs
    decreases |events|
  {
    if events != [] {
      var k := |events| - 1;
      InBucketsHas(events[..k], bs, e);
      assert events == events[..k] + [events[k]];
    }
  }

  /** Where an event goes: without a subnet nowhere; to the root if validators execute it or its subnet is the
      root; else by the type byte of its subnet, 0 and 1 being system subnets and 2 application ones. */
  lemma RoutedWhere(events: seq<Event>, e: Event)
    ensures var r := Route(events);
            var toRoot := e.subnet.Some? && (e.kind in VALIDATOR_KINDS || e.subnet == Some(SubnetId(0, 0)));
            && (e in r.root <==> e in events && toRoot)
            && (forall s | s in r.system :: e in r.system[s] <==>
                  e in events && !toRoot && e.subnet == Some(s) && s.prefix <= 1)
            && (forall s | s in r.app :: e in r.app[s] <==>
                  e in events && !toRoot && e.subnet == Some(s) && s.prefix == 2)
            && (e in r.unrouted <==> e in events && !toRoot && (e.subnet.None? || e.subnet.value.prefix > 2))
  {
    RouteIsRight(events);
    var r := Route(events);
    InBucketsHas(events, {ToRoot}, e);
    InBucketsHas(events, {ToNone}, e);
    forall s | s in r.system
      ensures e in r.system[s] <==> e in events && BucketOf(e) == ToSystem(s)
    {
      InBucketsHas(events, {SubnetBucket(true, s)}, e);
    }
    forall s | s in r.app
      ensures e in r.app[s] <==> e in events && BucketOf(e) == ToApp(s)
    {
      InBucketsHas(events, {SubnetBucket(false, s)}, e);
    }
    KindsAre(e.kind);
  }

  lemma KindsAre(k: EventKind)
    ensures k.IsValidatorExecuted() <==> k in VALIDATOR_KINDS
  {
  }

  // ---- Listing the buckets ----

  lemma {:induction false} OneMoreBucket(events: seq<Event>, bs: set<Bucket>, b: Bucket)
    requires b !in bs
    ensures multiset(InBuckets(events, bs + {b})) == multiset(InBuckets(events, bs)) + multiset(InBuckets(events, {b}))
    decreases |events|
  {
    if events != [] { OneMoreBucket(events[..|events| - 1], bs, b); }
  }

  lemma {:induction false} AllBuckets(events: seq<Event>, bs: set<Bucket>)
    requires forall b | Occurs(events, b) :: b in bs
    ensures InBuckets(events, bs) == events
    decreases |events|
  {
    if events != [] {
      var k := |events| - 1;
      assert events == events[..k] + [events[k]];
      OccursStep(events[..k], events[k]);
      AllBuckets(events[..k], bs);
    }
  }

  /** `now` adds to `done` the buckets of the given subnets. */
  ghost predicate IsFamily(system: bool, subnets: set<SubnetId>, done: set<Bucket>, now: set<Bucket>) {
    forall b :: b in now <==> b in done || exists s | s in subnets :: b == SubnetBucket(system, s)
  }

  lemma FamilyStep(system: bool, subnets: set<SubnetId>, done: set<Bucket>, now: set<Bucket>, s: SubnetId)
    requires IsFamily(system, subnets, done, now) && s !in subnets && SubnetBucket(system, s) !in done
    ensures IsFamily(system, subnets + {s}, done, now + {SubnetBucket(system, s)})
    ensures SubnetBucket(system, s) !in now
  {
    var b := SubnetBucket(system, s);
    forall t ensures SubnetBucket(system, t) == b ==> t == s { }
  }

  /** Appends one family of buckets, in whatever order the hash map yields them. */
  method ListFamily(m: map<SubnetId, seq<Event>>, system: bool, front: seq<Event>, ghost events: seq<Event>,
                    ghost done: set<Bucket>)
    returns (all: seq<Event>, ghost now: set<Bucket>)
    requires RoutesMap(m, events, system) && multiset(front) == multiset(InBuckets(events, done))
    requires forall s :: SubnetBucket(system, s) !in done
    ensures multiset(all) == multiset(InBuckets(events, now))
    ensures IsFamily(system, m.Keys, done, now)
  {
    all, now := front, done;
    var left := m.Keys;
    while left != {}
      invariant left <= m.Keys
      invariant multiset(all) == multiset(InBuckets(events, now))
      invariant IsFamily(system, m.Keys - left, done, now)
      decreases left
    {
      var s :| s in left;
      FamilyStep(system, m.Keys - left, done, now, s);
      OneMoreBucket(events, now, SubnetBucket(system, s));
      assert m.Keys - (left - {s}) == (m.Keys - left) + {s};
      all := all + m[s];
      left, now := left - {s}, now + {SubnetBucket(system, s)};
    }
  }

  /** Lists everything again.  The buckets of a hash map come in no particular order; whatever
      it is, the routed events come back, each as often as it went in. */
  method AllEvents(r: RoutedEvents, ghost events: seq<Event>) returns (all: seq<Event>)
    requires Routes(r, events)
    ensures multiset(all) == multiset(events)
  {
    ghost var done := {ToRoot};
    all, done := ListFamily(r.system, true, r.root, events, done);
    all, done := ListFamily(r.app, false, all, events, done);
    OneMoreBucket(events, done, ToNone);
    all := all + r.unrouted;
    forall b | Occurs(events, b) ensures b in done + {ToNone} {
      if b.ToSystem? { assert b == SubnetBucket(true, b.subnet); }
      if b.ToApp? { assert b == SubnetBucket(false, b.subnet); }
    }
    AllBuckets(events, done + {ToNone});
  }
}
