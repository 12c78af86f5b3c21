/** StartConsultation against the monthly quota.  A request reserves a slot of the month it
    starts in, runs the agent, stores the consultation, and gives the slot back if anything
    fails.  Requests interleave between their database calls; each call is one atomic step
    and may fail without effect. */
module ConsultationQuota {
  import opened Wrappers
  import Text
  import N = LimitNotification

  type Key = N.Key

  datatype Usage = Usage(count: int, limit: nat) {
    predicate UseExternalModel() {
      count <= limit
    }

    /** The choice ContinueConsultation makes from the usage it reads; it reserves nothing. */
    predicate ContinueOnExternalModel() {
      !(count >= limit)
    }

    /** The guard of notifyMonthlyLimit. */
    predicate ReachesLimit() {
      count >= limit && count != 0
    }
  }

  datatype Stage =
    | Building    // reserved, collecting the context
    | Running     // the agent works
    | Creating    // the consultation is being stored
    | Failing     // failed; the deferred release is still to come
    | Committed   // stored and answered
    | Released    // failed, slot given back
    | Leaked      // failed, and the release failed too
    | Blocked     // the release found no slot to give back

  datatype Request = Request(key: Key, usage: Usage, stage: Stage)

  datatype State = State(usage: map<Key, int>, requests: map<nat, Request>)

  datatype Event =
    | Begin(id: nat, key: Key, limit: nat, ok: bool)  // ReserveMonthlyConsultation
    | Advance(id: nat, ok: bool)                      // the next call of a running request
    | Release(id: nat, applied: bool)                 // the deferred ReleaseMonthlyConsultation

  function Count(usage: map<Key, int>, key: Key): int {
    if key in usage then usage[key] else 0
  }

  function Step(s: State, e: Event): State {
    match e
    case Begin(id, key, limit, ok) =>
      if id in s.requests || key.user <= 0 || !ok then s
      else
        var count := Count(s.usage, key) + 1;
        State(s.usage[key := count], s.requests[id := Request(key, Usage(count, limit), Building)])
    case Advance(id, ok) =>
      if id !in s.requests then s
      else
        var r := s.requests[id];
        var stage :=
          match r.stage
          case Building => if ok then Running else Failing
          case Running => if ok then Creating else Failing
          case Creating => if ok then Committed else Failing
          case _ => r.stage;
        s.(requests := s.requests[id := r.(stage := stage)])
    case Release(id, applied) =>
      if id !in s.requests || !s.requests[id].stage.Failing? then s
      else
        var r := s.requests[id];
        if !applied then s.(requests := s.requests[id := r.(stage := Leaked)])
        else if Count(s.usage, r.key) > 0 then
          State(s.usage[r.key := Count(s.usage, r.key) - 1], s.requests[id := r.(stage := Released)])
        else s.(requests := s.requests[id := r.(stage := Blocked)])
  }

  function Run(s: State, events: seq<Event>): State
    decreases events
  {
    if events == [] then s else Run(Step(s, events[0]), events[1..])
  }

  // ------------------------------------------------------------------- slots

  predicate InFlightStage(stage: Stage) {
    stage.Building? || stage.Running? || stage.Creating? || stage.Failing?
  }

  predicate HoldsSlot(stage: Stage) {
    InFlightStage(stage) || stage.Committed? || stage.Leaked?
  }

  function CommittedSlots(s: State, key: Key): set<nat> {
    set id | id in s.requests && s.requests[id].key == key && s.requests[id].stage.Committed?
  }

  function InFlight(s: State, key: Key): set<nat> {
    set id | id in s.requests && s.requests[id].key == key && InFlightStage(s.requests[id].stage)
  }

  function LeakedSlots(s: State, key: Key): set<nat> {
    set id | id in s.requests && s.requests[id].key == key && s.requests[id].stage.Leaked?
  }

  function Slots(s: State, key: Key): set<nat> {
    set id | id in s.requests && s.requests[id].key == key && HoldsSlot(s.requests[id].stage)
  }

  /** Consultations stored or under way on the external model. */
  function External(s: State, key: Key): set<nat> {
    set id | id in s.requests && s.requests[id].key == key && s.requests[id].usage.UseExternalModel()
             && (InFlightStage(s.requests[id].stage) || s.requests[id].stage.Committed?)
  }

  /** A table of counts with no request running; `usage` may hold earlier months' counts. */
  predicate Start(s: State) {
    s.requests == map[] && forall key :: key in s.usage ==> s.usage[key] >= 0
  }

  /** The row counts what it held at the start and one for every slot held now. */
  ghost predicate Counted(start: map<Key, int>, s: State) {
    && (forall key :: Count(s.usage, key) == Count(start, key) + |Slots(s, key)|)
    && (forall id :: id in s.requests ==> !s.requests[id].stage.Blocked?)
  }

  /** By how much a step changes the number of slots that `key` has. */
  function SlotChange(s: State, e: Event, key: Key): int {
    match e
    case Begin(id, k, _, ok) => if id !in s.requests && k.user > 0 && ok && k == key then 1 else 0
    case Advance(_, _) => 0
    case Release(id, applied) =>
      if id in s.requests && s.requests[id].stage.Failing? && s.requests[id].key == key && applied then -1 else 0
  }

  predicate Holds(s: State, id: nat, key: Key) {
    id in s.requests && s.requests[id].key == key && HoldsSlot(s.requests[id].stage)
  }

  lemma SlotsUpdate(s: State, next: State, id: nat, key: Key)
    requires id in next.requests && next.requests == s.requests[id := next.requests[id]]
    ensures Slots(next, key) == Slots(s, key) - {id} + if Holds(next, id, key) then {id} else {}
  {
  }

  lemma ReplaceSize(a: set<nat>, x: nat, back: bool)
    ensures |a - {x} + (if back then {x} else {})| == |a| - (if x in a then 1 else 0) + (if back then 1 else 0)
  {
    if x in a {
      assert a == a - {x} + {x};
    } else {
      assert a == a - {x};
    }
  }

  lemma HoldsStep(s: State, e: Event, key: Key)
    ensures (if Holds(Step(s, e), e.id, key) then 1 else 0)
         == (if Holds(s, e.id, key) then 1 else 0) + SlotChange(s, e, key)
       || Step(s, e).requests[e.id].stage.Blocked?
  {
  }

  lemma OneRequestMoves(s: State, e: Event)
    requires Step(s, e) != s
    ensures e.id in Step(s, e).requests
    ensures Step(s, e).requests == s.requests[e.id := Step(s, e).requests[e.id]]
  {
  }

  lemma SlotsStep(s: State, e: Event, key: Key)
    requires forall id :: id in Step(s, e).requests ==> !Step(s, e).requests[id].stage.Blocked?
    ensures |Slots(Step(s, e), key)| == |Slots(s, key)| + SlotChange(s, e, key)
  {
    var next := Step(s, e);
    if next != s {
      OneRequestMoves(s, e);
      SlotsUpdate(s, next, e.id, key);
      ReplaceSize(Slots(s, key), e.id, Holds(next, e.id, key));
      HoldsStep(s, e, key);
    }
  }

  lemma CountedStep(start: map<Key, int>, s: State, e: Event)
    requires Counted(start, s) && forall key :: key in start ==> start[key] >= 0
    ensures Counted(start, Step(s, e))
  {
    var next := Step(s, e);
    if e.Release? && e.id in s.requests && s.requests[e.id].stage.Failing? {
      assert e.id in Slots(s, s.requests[e.id].key);
    }
    forall key
      ensures Count(next.usage, key) == Count(start, key) + |Slots(next, key)|
    {
      SlotsStep(s, e, key);
    }
  }

  lemma {:induction false} CountedRun(start: map<Key, int>, s: State, events: seq<Event>)
    requires Counted(start, s) && forall key :: key in start ==> start[key] >= 0
    ensures Counted(start, Run(s, events))
    decreases events
  {
    if events != [] {
      CountedStep(start, s, events[0]);
      CountedRun(start, Step(s, events[0]), events[1..]);
    }
  }

  lemma StartCounted(s: State)
    requires Start(s)
    ensures Counted(s.usage, s)
  {
    forall key ensures |Slots(s, key)| == 0 {
      assert Slots(s, key) == {};
    }
  }

  /** In every interleaving the count of a user's month is what it held at the start plus the
      committed consultations, the ones in flight and the slots whose release was lost; and
      the `consultation_count > 0` guard never keeps a release from its slot. */
  lemma SlotsAreConserved(s: State, events: seq<Event>, key: Key)
    requires Start(s)
    ensures
      var end := Run(s, events);
      && Count(end.usage, key)
         == Count(s.usage, key) + |CommittedSlots(end, key)| + |InFlight(end, key)| + |LeakedSlots(end, key)|
      && forall id :: id in end.requests ==> !end.requests[id].stage.Blocked?
  {
    StartCounted(s);
    CountedRun(s.usage, s, events);
    var end := Run(s, events);
    var committed, inFlight, leaked := CommittedSlots(end, key), InFlight(end, key), LeakedSlots(end, key);
    assert Slots(end, key) == committed + inFlight + leaked;
    assert committed !! inFlight && (committed + inFlight) !! leaked;
  }

  /** A release takes its slot from the month that was reserved, and from no other row. */
  lemma ReleaseHitsReservedMonth(s: State, events: seq<Event>, id: nat)
    requires Start(s) && id in Run(s, events).requests && Run(s, events).requests[id].stage.Failing?
    ensures
      var end := Run(s, events);
      var key, next := end.requests[id].key, Step(end, Release(id, true));
      && Count(next.usage, key) == Count(end.usage, key) - 1
      && next.requests[id].stage.Released?
      && forall other :: other != key ==> Count(next.usage, other) == Count(end.usage, other)
  {
    StartCounted(s);
    CountedRun(s.usage, s, events);
    assert id in Slots(Run(s, events), Run(s, events).requests[id].key);
  }

  /** The count a request is given at its reservation is the number of slots held at that
      moment, its own among them. */
  lemma ReservationSeesAllSlots(s: State, events: seq<Event>, id: nat, key: Key, limit: nat)
    requires Start(s) && id !in Run(s, events).requests && key.user > 0
    ensures
      var next := Step(Run(s, events), Begin(id, key, limit, true));
      && id in next.requests
      && next.requests[id].usage == Usage(Count(s.usage, key) + |Slots(next, key)|, limit)
      && id in Slots(next, key)
  {
    StartCounted(s);
    CountedRun(s.usage, s, events);
    CountedStep(s.usage, Run(s, events), Begin(id, key, limit, true));
  }

  // ----------------------------------------------------------- external model

  predicate LimitsAtMost(s: State, key: Key, limit: nat) {
    forall id :: id in s.requests && s.requests[id].key == key ==> s.requests[id].usage.limit <= limit
  }

  function Room(start: map<Key, int>, key: Key, limit: nat): nat {
    if Count(start, key) <= limit && Count(start, key) >= 0 then limit - Count(start, key) else 0
  }

  ghost predicate ExternalBounded(start: map<Key, int>, s: State, key: Key, limit: nat) {
    LimitsAtMost(s, key, limit) ==> |External(s, key)| <= Room(start, key, limit)
  }

  lemma SubsetSize<T>(a: set<T>, b: set<T>)
    requires a <= b
    ensures |a| <= |b|
  {
    assert b == a + (b - a);
  }

  lemma ExternalStep(start: map<Key, int>, s: State, e: Event, key: Key, limit: nat)
    requires Counted(start, s) && ExternalBounded(start, s, key, limit)
    requires forall key :: key in start ==> start[key] >= 0
    ensures ExternalBounded(start, Step(s, e), key, limit)
  {
    var next := Step(s, e);
    if LimitsAtMost(next, key, limit) {
      LimitsShrinkBack(s, e, key, limit);
      if e.Begin? && SlotChange(s, e, key) == 1 && next.requests[e.id].usage.UseExternalModel() {
        CountedStep(start, s, e);
        assert next.requests[e.id].usage.count == Count(start, key) + |Slots(next, key)|;
        assert next.requests[e.id].usage.limit <= limit;
        SubsetSize(External(next, key), Slots(next, key));
      } else {
        SubsetSize(External(next, key), External(s, key));
      }
    }
  }

  lemma LimitsShrinkBack(s: State, e: Event, key: Key, limit: nat)
    requires LimitsAtMost(Step(s, e), key, limit)
    ensures LimitsAtMost(s, key, limit)
  {
    var next := Step(s, e);
    forall id | id in s.requests && s.requests[id].key == key
      ensures s.requests[id].usage.limit <= limit
    {
      assert id in next.requests && next.requests[id].usage == s.requests[id].usage && next.requests[id].key == key;
    }
  }

  lemma {:induction false} ExternalRun(start: map<Key, int>, s: State, events: seq<Event>, key: Key, limit: nat)
    requires Counted(start, s) && ExternalBounded(start, s, key, limit)
    requires forall key :: key in start ==> start[key] >= 0
    ensures ExternalBounded(start, Run(s, events), key, limit)
    decreases events
  {
    if events != [] {
      ExternalStep(start, s, events[0], key, limit);
      CountedStep(start, s, events[0]);
      ExternalRun(start, Step(s, events[0]), events[1..], key, limit);
    }
  }

  /** Whatever the interleaving, and however the limit is changed meanwhile: the
      consultations committed or in flight on the external model never outnumber what the
      largest limit seen leaves over. */
  lemma ExternalNeverExceedsLimit(s: State, events: seq<Event>, key: Key, limit: nat)
    requires Start(s) && LimitsAtMost(Run(s, events), key, limit)
    ensures |External(Run(s, events), key)| <= Room(s.usage, key, limit) <= limit
  {
    StartCounted(s);
    assert External(s, key) == {};
    ExternalRun(s.usage, s, events, key, limit);
  }

  /** At the moment of its read a continuation gets the external model only while a slot is free.
      It takes no slot, so more of them may read the same count: those that fit in the room it
      leaves keep the external consultations of the month within the limit then. */
  lemma ContinuationsFit(s: State, events: seq<Event>, key: Key, limit: nat, n: nat)
    requires Start(s)
    ensures
      var end := Run(s, events);
      var count := Count(end.usage, key);
      && (Usage(count, limit).ContinueOnExternalModel() ==> |External(end, key)| + 1 <= limit)
      && (n <= limit - count ==> |External(end, key)| + n <= limit)
      && (count == |External(end, key)| ==> (|External(end, key)| + n <= limit <==> n <= limit - count))
  {
    StartCounted(s);
    CountedRun(s.usage, s, events);
    SubsetSize(External(Run(s, events), key), Slots(Run(s, events), key));
  }

  /** For one: at limit 2 with one slot taken, two continuations read the same count and both
      pass, which makes three. */
  lemma TwoContinuationsOverrun(key: Key)
    requires key.user > 0
    ensures
      var end := Run(State(map[], map[]), [Begin(1, key, 2, true)]);
      && Usage(Count(end.usage, key), 2).ContinueOnExternalModel()
      && Count(end.usage, key) == |External(end, key)| && |External(end, key)| + 2 > 2
  {
    var s, e := State(map[], map[]), Begin(1, key, 2, true);
    assert [e][1..] == [] && Run(s, [e]) == Step(s, e);
    assert External(Step(s, e), key) == {1};
  }

  // ------------------------------------------------------------ continuations

  /** Starts and continuations together: `continuing` are the continuations under way on the
      external model. */
  datatype Mixed = Mixed(base: State, continuing: map<nat, Key>)

  datatype MixedEvent =
    | OfStart(event: Event)
    | Continue(id: nat, key: Key, limit: nat)    // reads the usage and chooses the model
    | Done(id: nat)                              // the agent returns, or fails

  function MixedStep(m: Mixed, e: MixedEvent): Mixed {
    match e
    case OfStart(event) => m.(base := Step(m.base, event))
    case Continue(id, key, limit) =>
      if id !in m.continuing && Usage(Count(m.base.usage, key), limit).ContinueOnExternalModel()
      then m.(continuing := m.continuing[id := key]) else m
    case Done(id) => m.(continuing := m.continuing - {id})
  }

  function MixedRun(m: Mixed, events: seq<MixedEvent>): Mixed
    decreases events
  {
    if events == [] then m else MixedRun(MixedStep(m, events[0]), events[1..])
  }

  function StartsOf(events: seq<MixedEvent>): seq<Event> {
    if events == [] then []
    else (if events[0].OfStart? then [events[0].event] else []) + StartsOf(events[1..])
  }

  function Continuing(m: Mixed, key: Key): set<nat> {
    set id | id in m.continuing && m.continuing[id] == key
  }

  /** Continuations change no count: the starts run as they would without them. */
  lemma {:induction false} ContinuationsLeaveCounts(m: Mixed, events: seq<MixedEvent>)
    ensures MixedRun(m, events).base == Run(m.base, StartsOf(events))
    decreases events
  {
    if events != [] {
      var e, next := events[0], MixedStep(m, events[0]);
      ContinuationsLeaveCounts(next, events[1..]);
      if e.OfStart? {
        assert ([e.event] + StartsOf(events[1..]))[1..] == StartsOf(events[1..]);
      } else {
        assert [] + StartsOf(events[1..]) == StartsOf(events[1..]);
      }
    }
  }

  /** Over any run, later starts included: with at most n continuations under way, at most n more
      than what the largest limit seen leaves are on the external model. */
  lemma ExternalWithContinuations(s: State, events: seq<MixedEvent>, key: Key, limit: nat, n: nat)
    requires Start(s)
    requires
      var end := MixedRun(Mixed(s, map[]), events);
      LimitsAtMost(end.base, key, limit) && |Continuing(end, key)| <= n
    ensures
      var end := MixedRun(Mixed(s, map[]), events);
      |External(end.base, key)| + |Continuing(end, key)| <= Room(s.usage, key, limit) + n
  {
    ContinuationsLeaveCounts(Mixed(s, map[]), events);
    ExternalNeverExceedsLimit(s, StartsOf(events), key, limit);
  }

  lemma {:induction false} MixedConcat(m: Mixed, a: seq<MixedEvent>, b: seq<MixedEvent>)
    ensures MixedRun(m, a + b) == MixedRun(MixedRun(m, a), b)
    decreases a
  {
    if a == [] {
      assert a + b == b;
    } else {
      assert (a + b)[1..] == a[1..] + b;
      MixedConcat(MixedStep(m, a[0]), a[1..], b);
    }
  }

  lemma MixedSnoc(m: Mixed, events: seq<MixedEvent>, e: MixedEvent)
    ensures MixedRun(m, events + [e]) == MixedStep(MixedRun(m, events), e)
  {
    MixedConcat(m, events, [e]);
    assert [e][1..] == [];
  }

  /** n continuations that read an empty month. */
  function Continues(n: nat, key: Key, limit: nat): seq<MixedEvent> {
    if n == 0 then [] else Continues(n - 1, key, limit) + [Continue(n, key, limit)]
  }

  /** n starts. */
  function Begins(n: nat, key: Key, limit: nat): seq<MixedEvent> {
    if n == 0 then [] else Begins(n - 1, key, limit) + [OfStart(Begin(n, key, limit, true))]
  }

  function Numbers(n: nat): (r: set<nat>)
    ensures |r| == n && forall k: nat :: k in r <==> 1 <= k <= n
  {
    if n == 0 then {} else Numbers(n - 1) + {n}
  }

  /** Nothing has started, and the continuations 1 to n are under way. */
  ghost predicate OnlyContinues(m: Mixed, n: nat, key: Key) {
    && m.base == State(map[], map[]) && m.continuing.Keys == Numbers(n)
    && forall k :: k in m.continuing ==> m.continuing[k] == key
  }

  lemma OneMoreContinues(m: Mixed, n: nat, key: Key, limit: nat)
    requires limit >= 1 && OnlyContinues(m, n, key)
    ensures OnlyContinues(MixedStep(m, Continue(n + 1, key, limit)), n + 1, key)
  {
    assert n + 1 !in Numbers(n);
    assert Count(m.base.usage, key) == 0;
  }

  lemma {:induction false} AllContinue(n: nat, key: Key, limit: nat)
    requires limit >= 1
    ensures OnlyContinues(MixedRun(Mixed(State(map[], map[]), map[]), Continues(n, key, limit)), n, key)
    decreases n
  {
    var m := Mixed(State(map[], map[]), map[]);
    if n > 0 {
      AllContinue(n - 1, key, limit);
      MixedSnoc(m, Continues(n - 1, key, limit), Continue(n, key, limit));
      OneMoreContinues(MixedRun(m, Continues(n - 1, key, limit)), n - 1, key, limit);
    }
  }

  /** One more start that is allowed the external model. */
  lemma OneMoreBegins(m: Mixed, n: nat, key: Key, limit: nat)
    requires key.user > 0 && n < limit && n + 1 !in m.base.requests && Count(m.base.usage, key) == n
    ensures
      var next := MixedStep(m, OfStart(Begin(n + 1, key, limit, true)));
      && next.continuing == m.continuing && Count(next.base.usage, key) == n + 1
      && next.base.requests.Keys == m.base.requests.Keys + {n + 1}
      && External(next.base, key) == External(m.base, key) + {n + 1}
  {
  }

  lemma {:induction false} AllBegin(m: Mixed, n: nat, key: Key, limit: nat)
    requires key.user > 0 && n <= limit && m.base == State(map[], map[])
    ensures
      var end := MixedRun(m, Begins(n, key, limit));
      && end.continuing == m.continuing && Count(end.base.usage, key) == n
      && end.base.requests.Keys == Numbers(n) && External(end.base, key) == Numbers(n)
    decreases n
  {
    if n == 0 {
      assert External(m.base, key) == {};
    } else {
      AllBegin(m, n - 1, key, limit);
      MixedSnoc(m, Begins(n - 1, key, limit), OfStart(Begin(n, key, limit, true)));
      OneMoreBegins(MixedRun(m, Begins(n - 1, key, limit)), n - 1, key, limit);
    }
  }

  /** And that many can be, so the bound is exact: for every limit from 1 on and every n, n
      continuations that read an empty month, and then as many starts as the limit, make
      limit + n on the external model. */
  lemma BoundIsMet(n: nat, key: Key, limit: nat)
    requires key.user > 0 && limit >= 1
    ensures
      var m := Mixed(State(map[], map[]), map[]);
      var end := MixedRun(m, Continues(n, key, limit) + Begins(limit, key, limit));
      && |Continuing(end, key)| == n
      && |External(end.base, key)| + |Continuing(end, key)| == limit + n
  {
    var m := Mixed(State(map[], map[]), map[]);
    MixedConcat(m, Continues(n, key, limit), Begins(limit, key, limit));
    AllContinue(n, key, limit);
    var middle := MixedRun(m, Continues(n, key, limit));
    AllBegin(middle, limit, key, limit);
    var end := MixedRun(m, Continues(n, key, limit) + Begins(limit, key, limit));
    assert Continuing(end, key) == Numbers(n);
  }

  /** For one, at limit 2: a start, a continuation that reads 1 and fits, and a second start. */
  lemma LaterStartOverruns(key: Key)
    requires key.user > 0
    ensures
      var m := Mixed(State(map[], map[]), map[]);
      var events := [OfStart(Begin(1, key, 2, true)), Continue(9, key, 2), OfStart(Begin(2, key, 2, true))];
      var end := MixedRun(m, events);
      |External(end.base, key)| + |Continuing(end, key)| == 3
  {
    var m := Mixed(State(map[], map[]), map[]);
    var e1, e2, e3 := OfStart(Begin(1, key, 2, true)), Continue(9, key, 2), OfStart(Begin(2, key, 2, true));
    MixedSnoc(m, [], e1);
    assert [] + [e1] == [e1];
    MixedSnoc(m, [e1], e2);
    MixedSnoc(m, [e1] + [e2], e3);
    assert [e1, e2, e3] == [e1] + [e2] + [e3];
    var m1 := MixedStep(m, e1);
    assert External(m.base, key) == {};
    OneMoreBegins(m, 0, key, 2);
    var m2 := MixedStep(m1, e2);
    OneMoreBegins(m2, 1, key, 2);
    assert Continuing(MixedStep(m2, e3), key) == {9};
    assert External(MixedStep(m2, e3).base, key) == {1, 2};
  }

  // ------------------------------------------------------------- notification

  /** With concurrent requests a notification may go out before that many consultations are
      committed: the second of two requests finishes first.  Here the limit is two. */
  lemma NotifiesBeforeCommitted(key: Key)
    requires key.user > 0
    ensures
      var s := State(map[], map[]);
      var events := [Begin(1, key, 2, true), Begin(2, key, 2, true),
                     Advance(2, true), Advance(2, true), Advance(2, true)];
      var end := Run(s, events);
      && Start(s) && 2 in end.requests && end.requests[2].stage.Committed? && end.requests[2].usage.ReachesLimit()
      && CommittedSlots(end, key) == {2}
      && |CommittedSlots(end, key)| < end.requests[2].usage.limit
  {
    var s := State(map[], map[]);
    var go := Advance(2, true);
    var s1 := Step(s, Begin(1, key, 2, true));
    var s2 := Step(s1, Begin(2, key, 2, true));
    var s3 := Step(s2, go);
    var s4 := Step(s3, go);
    var s5 := Step(s4, go);
    assert Run(s4, [go]) == s5 by { assert [go][1..] == []; }
    assert Run(s3, [go, go]) == s5 by { assert [go, go][1..] == [go]; }
    assert Run(s2, [go, go, go]) == s5 by { assert [go, go, go][1..] == [go, go]; }
    var tail := [Begin(2, key, 2, true), go, go, go];
    assert Run(s1, tail) == s5 by { assert tail[1..] == [go, go, go]; }
    assert ([Begin(1, key, 2, true)] + tail)[1..] == tail;
    assert [Begin(1, key, 2, true)] + tail == [Begin(1, key, 2, true), Begin(2, key, 2, true), go, go, go];
    assert CommittedSlots(s5, key) == {2};
  }

  /** Requests 1 and 2 take both slots of the limit, and 1 gives its slot back. */
  lemma OneReleases(key: Key)
    requires key.user > 0
    ensures Run(State(map[], map[]), [Begin(1, key, 2, true), Begin(2, key, 2, true), Advance(1, false),
                                      Release(1, true)])
         == State(map[key := 1],
                  map[1 := Request(key, Usage(1, 2), Released), 2 := Request(key, Usage(2, 2), Building)])
  {
    var s := State(map[], map[]);
    var e1, e2, e3, e4 := Begin(1, key, 2, true), Begin(2, key, 2, true), Advance(1, false), Release(1, true);
    var s1 := Step(s, e1);
    var s2 := Step(s1, e2);
    var s3 := Step(s2, e3);
    RunSnoc(s, [], e1);
    assert [] + [e1] == [e1];
    RunSnoc(s, [e1], e2);
    RunSnoc(s, [e1] + [e2], e3);
    RunSnoc(s, [e1] + [e2] + [e3], e4);
    assert [e1, e2, e3, e4] == [e1] + [e2] + [e3] + [e4];
    assert s3.requests == map[1 := Request(key, Usage(1, 2), Failing), 2 := Request(key, Usage(2, 2), Building)];
  }

  /** A request that is left to itself commits in three calls. */
  lemma ThreeCallsCommit(s: State, id: nat)
    requires id in s.requests && s.requests[id].stage.Building?
    ensures Run(s, [Advance(id, true), Advance(id, true), Advance(id, true)])
         == s.(requests := s.requests[id := s.requests[id].(stage := Committed)])
  {
    var go := Advance(id, true);
    RunSnoc(s, [], go);
    assert [] + [go] == [go];
    RunSnoc(s, [go], go);
    RunSnoc(s, [go] + [go], go);
    assert [go, go, go] == [go] + [go] + [go];
  }

  /** It may also go out after another request has given its slot back: request 1 fails, and
      request 2, whose count was 2 with it, is the only one left. */
  lemma NotifiesAfterRelease(key: Key)
    requires key.user > 0
    ensures
      var s := State(map[], map[]);
      var events := [Begin(1, key, 2, true), Begin(2, key, 2, true), Advance(1, false), Release(1, true)]
                    + [Advance(2, true), Advance(2, true), Advance(2, true)];
      var end := Run(s, events);
      && Start(s) && Notifying(end, 2)
      && |CommittedSlots(end, key)| + |InFlight(end, key)| + |LeakedSlots(end, key)| == 1 < end.requests[2].usage.limit
  {
    var s, go := State(map[], map[]), Advance(2, true);
    var first := [Begin(1, key, 2, true), Begin(2, key, 2, true), Advance(1, false), Release(1, true)];
    OneReleases(key);
    ThreeCallsCommit(Run(s, first), 2);
    RunConcat(s, first, [go, go, go]);
    var end := Run(s, first + [go, go, go]);
    assert CommittedSlots(end, key) == {2} && InFlight(end, key) == {} && LeakedSlots(end, key) == {};
  }

  /** A request whose commit calls for the notification. */
  predicate Notifying(s: State, id: nat) {
    id in s.requests && s.requests[id].stage.Committed? && s.requests[id].usage.ReachesLimit()
  }

  /** Event k is the reservation that made the request. */
  predicate BegunAt(s: State, events: seq<Event>, id: nat, k: nat) {
    && k < |events| && events[k].Begin? && events[k].id == id
    && id !in Run(s, events[..k]).requests && id in Run(s, events[..k + 1]).requests
  }

  lemma {:induction false} RunConcat(s: State, a: seq<Event>, b: seq<Event>)
    ensures Run(s, a + b) == Run(Run(s, a), b)
    decreases a
  {
    if a == [] {
      assert a + b == b;
    } else {
      assert (a + b)[1..] == a[1..] + b;
      RunConcat(Step(s, a[0]), a[1..], b);
    }
  }

  /** A request keeps its month and its usage, and a slot it holds until it is released. */
  lemma StepKeepsRequest(s: State, e: Event, id: nat)
    requires id in s.requests
    ensures
      var r := s.requests[id];
      && id in Step(s, e).requests
      && var t := Step(s, e).requests[id];
         && t.key == r.key && t.usage == r.usage
         && (HoldsSlot(r.stage) || Settled(r.stage) ==> HoldsSlot(t.stage) || Settled(t.stage))
  {
  }

  /** A slot holder no more: it gave the slot back, or would have. */
  predicate Settled(stage: Stage) {
    stage.Released? || stage.Blocked?
  }

  lemma {:induction false} RunKeepsRequest(s: State, events: seq<Event>, id: nat)
    requires id in s.requests
    ensures
      var r := s.requests[id];
      && id in Run(s, events).requests
      && var t := Run(s, events).requests[id];
         && t.key == r.key && t.usage == r.usage
         && (HoldsSlot(r.stage) || Settled(r.stage) ==> HoldsSlot(t.stage) || Settled(t.stage))
    decreases events
  {
    if events != [] {
      StepKeepsRequest(s, events[0], id);
      RunKeepsRequest(Step(s, events[0]), events[1..], id);
    }
  }

  /** Every request has its reservation. */
  lemma {:induction false} HasBegun(s: State, events: seq<Event>, id: nat)
    requires Start(s) && id in Run(s, events).requests
    ensures exists k: nat :: BegunAt(s, events, id, k)
    decreases |events|
  {
    var n := |events| - 1;
    assert events != [];
    assert events == events[..n] + [events[n]] && events[..n + 1] == events;
    RunSnoc(s, events[..n], events[n]);
    if id in Run(s, events[..n]).requests {
      HasBegun(s, events[..n], id);
      var k: nat :| BegunAt(s, events[..n], id, k);
      assert events[..n][..k] == events[..k] && events[..n][..k + 1] == events[..k + 1];
      assert BegunAt(s, events, id, k);
    } else {
      assert BegunAt(s, events, id, n);
    }
  }

  /** At its own reservation the slots held, with what the month had at the start, had reached
      the limit that a notifying request reports. */
  lemma NotifierSawTheLimit(s: State, events: seq<Event>, id: nat)
    requires Start(s) && Notifying(Run(s, events), id)
    ensures
      var r := Run(s, events).requests[id];
      exists k: nat ::
        && BegunAt(s, events, id, k)
        && id in Slots(Run(s, events[..k + 1]), r.key)
        && r.usage.limit <= r.usage.count == Count(s.usage, r.key) + |Slots(Run(s, events[..k + 1]), r.key)|
  {
    HasBegun(s, events, id);
    var k: nat :| BegunAt(s, events, id, k);
    BeginSeesSlots(s, events, id, k);
  }

  lemma BeginSeesSlots(s: State, events: seq<Event>, id: nat, k: nat)
    requires Start(s) && BegunAt(s, events, id, k)
    ensures
      var at, end := Run(s, events[..k + 1]), Run(s, events);
      && id in end.requests
      && var r := end.requests[id];
         && at.requests[id].key == r.key && at.requests[id].usage == r.usage && id in Slots(at, r.key)
         && r.usage.count == Count(s.usage, r.key) + |Slots(at, r.key)|
  {
    var e, before, at := events[k], Run(s, events[..k]), Run(s, events[..k + 1]);
    assert events[..k + 1] == events[..k] + [e];
    RunSnoc(s, events[..k], e);
    assert e.ok && e.key.user > 0;
    ReservationSeesAllSlots(s, events[..k], id, e.key, e.limit);
    assert e == Begin(id, e.key, e.limit, true);
    assert events == events[..k + 1] + events[k + 1..];
    RunConcat(s, events[..k + 1], events[k + 1..]);
    RunKeepsRequest(at, events[k + 1..], id);
  }

  /** What has become of a slot held at a reservation that is not committed at the end. */
  lemma SlotHolderLater(s: State, events: seq<Event>, id: nat, k: nat, other: nat)
    requires Start(s) && BegunAt(s, events, id, k) && id in Run(s, events).requests
    requires
      var key := Run(s, events).requests[id].key;
      other in Slots(Run(s, events[..k + 1]), key) - CommittedSlots(Run(s, events), key)
    ensures
      var end := Run(s, events);
      && other in end.requests
      && (|| InFlightStage(end.requests[other].stage)
          || end.requests[other].stage.Leaked? || end.requests[other].stage.Released?)
  {
    assert events == events[..k + 1] + events[k + 1..];
    RunConcat(s, events[..k + 1], events[k + 1..]);
    RunKeepsRequest(Run(s, events[..k + 1]), events[k + 1..], other);
    SlotsAreConserved(s, events, Run(s, events).requests[id].key);
  }

  lemma Difference(a: set<nat>, b: set<nat>)
    ensures |a| - |a - b| == |b| - |b - a|
  {
    assert a == (a - b) + (a * b) && b == (b - a) + (a * b);
    assert |a| == |a - b| + |a * b|;
    assert |b| == |b - a| + |a * b|;
  }

  /** Exactly when the month's consultations, with what it had at the start, have not reached
      the limit that a notifying request reports: when, of the slots held at its reservation,
      those that are in flight, leaked or released since are more than the count was above the
      limit and the requests committed since from later reservations. */
  lemma NotifiesEarlyIff(s: State, events: seq<Event>, id: nat, k: nat)
    requires Start(s) && Notifying(Run(s, events), id) && BegunAt(s, events, id, k)
    ensures
      var at, end := Run(s, events[..k + 1]), Run(s, events);
      var r := end.requests[id];
      var seen, committed := Slots(at, r.key), CommittedSlots(end, r.key);
      && (Count(s.usage, r.key) + |committed| < r.usage.limit
          <==> |seen - committed| > (r.usage.count - r.usage.limit) + |committed - seen|)
      && (forall other :: other in seen - committed ==>
            && other in end.requests
            && (|| InFlightStage(end.requests[other].stage)
                || end.requests[other].stage.Leaked? || end.requests[other].stage.Released?))
  {
    var at, end := Run(s, events[..k + 1]), Run(s, events);
    var key := end.requests[id].key;
    BeginSeesSlots(s, events, id, k);
    Difference(Slots(at, key), CommittedSlots(end, key));
    forall other | other in Slots(at, key) - CommittedSlots(end, key)
      ensures && other in end.requests
              && (|| InFlightStage(end.requests[other].stage)
                  || end.requests[other].stage.Leaked? || end.requests[other].stage.Released?)
    {
      SlotHolderLater(s, events, id, k, other);
    }
  }

  /** The usual case, a count that meets the limit exactly with no later commit: the committed
      consultations have reached it if and only if every slot held at the reservation is
      committed. */
  lemma NotifiesOnTimeIff(s: State, events: seq<Event>, id: nat, k: nat)
    requires Start(s) && Notifying(Run(s, events), id) && BegunAt(s, events, id, k)
    requires
      var r := Run(s, events).requests[id];
      && r.usage.count == r.usage.limit
      && CommittedSlots(Run(s, events), r.key) <= Slots(Run(s, events[..k + 1]), r.key)
    ensures
      var r := Run(s, events).requests[id];
      var seen, committed := Slots(Run(s, events[..k + 1]), r.key), CommittedSlots(Run(s, events), r.key);
      Count(s.usage, r.key) + |committed| >= r.usage.limit <==> seen == committed
  {
    NotifiesEarlyIff(s, events, id, k);
    var r := Run(s, events).requests[id];
    var seen, committed := Slots(Run(s, events[..k + 1]), r.key), CommittedSlots(Run(s, events), r.key);
    assert committed - seen == {};
    if seen != committed {
      var other :| other in seen - committed;
    }
  }

  // --------------------------------------------------------------- the server

  /** The usage table; each method is one transaction. */
  class UsageTable {
    var usage: map<Key, int>

    constructor ()
      ensures usage == map[]
    {
      usage := map[];
    }

    method ReserveMonthlyConsultation(key: Key, limit: nat, ok: bool) returns (r: Result<Usage, string>)
      modifies this
      ensures key.user > 0 && ok ==>
                && r == Ok(Usage(Count(old(usage), key) + 1, limit))
                && usage == old(usage)[key := Count(old(usage), key) + 1]
      ensures key.user <= 0 || !ok ==> r.Err? && usage == old(usage)
    {
      if key.user <= 0 {
        return Err("authenticated user is required");
      }
      if !ok {
        return Err("database");
      }
      var count := 1;
      if key in usage {
        count := usage[key] + 1;
      }
      usage := usage[key := count];
      return Ok(Usage(count, limit));
    }

    method ReleaseMonthlyConsultation(key: Key, ok: bool) returns (r: Result<(), string>)
      modifies this
      ensures r.Ok? <==> ok && Count(old(usage), key) > 0
      ensures usage == if r.Ok? then old(usage)[key := Count(old(usage), key) - 1] else old(usage)
    {
      if !ok {
        return Err("database");
      }
      if key !in usage || usage[key] <= 0 {
        return Err("not found");
      }
      usage := usage[key := usage[key] - 1];
      return Ok(());
    }
  }

  /** How the calls of one StartConsultation turn out. */
  datatype Outcomes = Outcomes(reserve: bool, build: bool, agent: bool, create: bool, release: bool)

  lemma {:induction false} RunSnoc(s: State, events: seq<Event>, e: Event)
    ensures Run(s, events + [e]) == Step(Run(s, events), e)
    decreases events
  {
    if events == [] {
      assert Run(Step(s, e), []) == Step(s, e);
      assert ([] + [e])[1..] == [];
    } else {
      assert (events + [e])[1..] == events[1..] + [e];
      RunSnoc(Step(s, events[0]), events[1..], e);
    }
  }

  predicate Succeeds(key: Key, o: Outcomes) {
    key.user > 0 && o.reserve && o.build && o.agent && o.create
  }

  /** The counts after a call: one more for a success or a lost release, else as before. */
  function UsageAfter(usage: map<Key, int>, key: Key, o: Outcomes): map<Key, int> {
    if key.user <= 0 || !o.reserve then usage
    else if Succeeds(key, o) || !o.release then usage[key := Count(usage, key) + 1]
    else usage[key := Count(usage, key)]
  }

  /** The stage that the calls of one StartConsultation lead to before its release. */
  function StageAfter(o: Outcomes): Stage {
    if o.build && o.agent && o.create then Committed else Failing
  }

  /** The calls after the reservation. */
  function Calls(o: Outcomes): seq<Event> {
    [Advance(0, o.build)] + (if o.build then [Advance(0, o.agent)] else [])
    + (if o.build && o.agent then [Advance(0, o.create)] else [])
  }

  /** The run that one undisturbed StartConsultation makes once its input is accepted. */
  function Script(key: Key, limit: nat, o: Outcomes): seq<Event> {
    var begin := [Begin(0, key, limit, o.reserve)];
    if key.user <= 0 || !o.reserve then begin
    else if StageAfter(o).Committed? then begin + Calls(o)
    else begin + Calls(o) + [Release(0, o.release)]
  }

  lemma CallsRun(s: State, key: Key, usage: Usage, o: Outcomes)
    requires s.requests == map[0 := Request(key, usage, Building)]
    ensures Run(s, Calls(o)) == s.(requests := map[0 := Request(key, usage, StageAfter(o))])
  {
    var e1, e2, e3 := Advance(0, o.build), Advance(0, o.agent), Advance(0, o.create);
    RunSnoc(s, [], e1);
    assert [] + [e1] == [e1];
    if !o.build {
      assert Calls(o) == [e1];
    } else if !o.agent {
      RunSnoc(s, [e1], e2);
      assert Calls(o) == [e1] + [e2];
    } else {
      RunSnoc(s, [e1], e2);
      RunSnoc(s, [e1] + [e2], e3);
      assert Calls(o) == [e1] + [e2] + [e3];
    }
  }

  /** The undisturbed call is one of the protocol's runs. */
  lemma ScriptRun(usage: map<Key, int>, key: Key, limit: nat, o: Outcomes)
    requires Start(State(usage, map[]))
    ensures Run(State(usage, map[]), Script(key, limit, o)).usage == UsageAfter(usage, key, o)
  {
    var s, e0 := State(usage, map[]), Begin(0, key, limit, o.reserve);
    var t := Step(s, e0);
    if key.user > 0 && o.reserve {
      CallsRun(t, key, Usage(Count(usage, key) + 1, limit), o);
      assert ([e0] + Calls(o))[1..] == Calls(o);
      assert Run(s, [e0] + Calls(o)) == Run(t, Calls(o));
      if StageAfter(o).Failing? {
        RunSnoc(s, [e0] + Calls(o), Release(0, o.release));
        UpdateTwice(usage, key, Count(usage, key) + 1, Count(usage, key));
      }
    } else {
      assert [e0][1..] == [];
    }
  }

  predicate Accepted(message: string, plannedAmount: Option<int>) {
    !Text.Blank(message) && (plannedAmount.Some? ==> plannedAmount.value >= 0)
  }

  lemma UpdateTwice(usage: map<Key, int>, key: Key, a: int, b: int)
    ensures usage[key := a][key := b] == usage[key := b]
  {
  }

  /** What becomes of the notification: whether there is a notifier, the claim's fate, the
      notifier's error and whether the completion is recorded. */
  datatype Delivery = Delivery(hasNotifier: bool, fate: N.Fate, error: Option<string>, recorded: bool, now: int)

  /** The notification rows after a commit: as they were below the limit or without a notifier,
      else as the protocol's claim, send and completion leave them. */
  function RowsAfterCommit(rows: map<Key, N.Row>, key: Key, usage: Usage, n: Delivery): map<Key, N.Row>
    requires usage.count >= 0
  {
    if !n.hasNotifier || !usage.ReachesLimit() then rows
    else
      N.Run(N.State(rows, map[]),
            [N.Claim(0, key, N.LimitEvent(usage.count, usage.limit, n.now), n.fate), N.Notify(0, n.error.None?),
             N.Complete(0, N.MessageOf(n.error), n.recorded)]).rows
  }

  /** What that comes to when every answer arrives: nothing below the limit; a row with the
      count, the limit and the time of the first commit that reaches it, delivered or failed as
      the notifier says; a failed row tried again, at its first time; and otherwise nothing. */
  lemma NotificationOfCommit(rows: map<Key, N.Row>, key: Key, usage: Usage, n: Delivery)
    requires usage.count >= 0 && n.hasNotifier && n.fate.Answered? && n.recorded
    ensures
      var after := RowsAfterCommit(rows, key, usage, n);
      var status := if n.error.None? then N.Delivered else N.Failed;
      var message := if n.error.None? then "" else n.error.value;
      var delivered := if n.error.None? then Some(n.now) else None;
      if usage.count < usage.limit || usage.count == 0 then after == rows
      else if key !in rows then
        after == rows[key := N.Row(usage.count, usage.limit, status, 1, message, n.now, delivered)]
      else if rows[key].status == N.Failed then
        after == rows[key := N.Row(usage.count, usage.limit, status, rows[key].attempts + 1, message,
                                   rows[key].occurredAt, delivered)]
      else after == rows
  {
    if n.hasNotifier && usage.ReachesLimit() {
      var event := N.LimitEvent(usage.count, usage.limit, n.now);
      var s := N.State(rows, map[]);
      var e0, e1 := N.Claim(0, key, event, n.fate), N.Notify(0, n.error.None?);
      var e2 := N.Complete(0, N.MessageOf(n.error), n.recorded);
      ThreeSteps(s, e0, e1, e2);
    }
  }

  lemma ThreeSteps(s: N.State, e0: N.Event, e1: N.Event, e2: N.Event)
    ensures N.Run(s, [e0, e1, e2]) == N.Step(N.Step(N.Step(s, e0), e1), e2)
  {
    assert [e0, e1, e2][1..] == [e1, e2] && [e1, e2][1..] == [e2] && [e2][1..] == [];
    assert N.Run(N.Step(N.Step(s, e0), e1), [e2]) == N.Step(N.Step(N.Step(s, e0), e1), e2);
    assert N.Run(N.Step(s, e0), [e1, e2]) == N.Step(N.Step(N.Step(s, e0), e1), e2);
  }

  /** notifyMonthlyLimit; the errors of the claim and of the completion are ignored. */
  method NotifyMonthlyLimit(table: N.PostgresNotifications, key: Key, usage: Usage, n: Delivery)
    requires usage.count >= 0
    modifies table
    ensures table.rows == RowsAfterCommit(old(table.rows), key, usage, n)
  {
    if !n.hasNotifier || usage.count < usage.limit || usage.count == 0 {
      return;
    }
    var event := N.LimitEvent(usage.count, usage.limit, n.now);
    ghost var s := N.State(table.rows, map[]);
    ghost var e0, e1 := N.Claim(0, key, event, n.fate), N.Notify(0, n.error.None?);
    ghost var e2 := N.Complete(0, N.MessageOf(n.error), n.recorded);
    ThreeSteps(s, e0, e1, e2);
    var claimed := table.ClaimMonthlyLimitNotification(key, event, n.fate);
    if claimed.Err? || !claimed.value {
      return;
    }
    table.CompleteMonthlyLimitNotification(key, event, n.error, n.recorded);
  }

  datatype Message = Message(role: string, content: string)

  /** The messages of the new consultation. */
  class Conversation {
    var messages: seq<Message>

    constructor ()
      ensures messages == []
    {
      messages := [];
    }

    /** `ok`: the row is stored; the caller ignores the error otherwise. */
    method AddMessage(role: string, content: string, ok: bool)
      modifies this
      ensures messages == old(messages) + if ok then [Message(role, content)] else []
    {
      if ok {
        messages := messages + [Message(role, content)];
      }
    }
  }

  /** The assistant's text, and whether the two messages can be stored. */
  datatype Talk = Talk(recommendation: string, userStored: bool, assistantStored: bool)

  /** One undisturbed StartConsultation: it succeeds exactly when every call does; when it fails
      the counts are as they were unless the release failed too, nobody is notified and no
      message is stored; when it succeeds the notification has run its protocol and the
      trimmed message and the answer are stored, but for errors that change nothing else. */
  method StartConsultation(table: UsageTable, notifications: N.PostgresNotifications, conversation: Conversation,
                           message: string, plannedAmount: Option<int>, key: Key, limit: nat, o: Outcomes,
                           n: Delivery, t: Talk)
    returns (r: Result<Usage, string>)
    requires Count(table.usage, key) >= 0
    modifies table, notifications, conversation
    ensures r.Ok? <==>
              !Text.Blank(message) && !(plannedAmount.Some? && plannedAmount.value < 0)
              && key.user > 0 && o.reserve && o.build && o.agent && o.create
    ensures r.Ok? ==> r.value == Usage(Count(old(table.usage), key) + 1, limit)
    ensures table.usage == if Accepted(message, plannedAmount) then UsageAfter(old(table.usage), key, o)
                           else old(table.usage)
    ensures notifications.rows == if r.Ok? then RowsAfterCommit(old(notifications.rows), key, r.value, n)
                                  else old(notifications.rows)
    ensures r.Ok? ==>
              conversation.messages
              == old(conversation.messages)
                 + (if t.userStored then [Message("user", Text.TrimSpace(message))] else [])
                 + (if t.assistantStored then [Message("assistant", t.recommendation)] else [])
    ensures r.Err? ==> conversation.messages == old(conversation.messages)
  {
    Text.TrimSpaceEmpty(message);
    var text := Text.TrimSpace(message);
    if text == "" {
      return Err("blank message");
    }
    if plannedAmount.Some? && plannedAmount.value < 0 {
      return Err("negative amount");
    }
    assert Accepted(message, plannedAmount);
    r := StartAccepted(table, notifications, conversation, text, key, limit, o, n, t);
  }

  /** StartConsultation after its input checks, up to and including its deferred release. */
  method StartAccepted(table: UsageTable, notifications: N.PostgresNotifications, conversation: Conversation,
                       message: string, key: Key, limit: nat, o: Outcomes, n: Delivery, t: Talk)
    returns (r: Result<Usage, string>)
    requires Count(table.usage, key) >= 0
    modifies table, notifications, conversation
    ensures r.Ok? <==> Succeeds(key, o)
    ensures r.Ok? ==> r.value == Usage(Count(old(table.usage), key) + 1, limit)
    ensures table.usage == UsageAfter(old(table.usage), key, o)
    ensures notifications.rows == if r.Ok? then RowsAfterCommit(old(notifications.rows), key, r.value, n)
                                  else old(notifications.rows)
    ensures r.Ok? ==>
              conversation.messages
              == old(conversation.messages)
                 + (if t.userStored then [Message("user", message)] else [])
                 + (if t.assistantStored then [Message("assistant", t.recommendation)] else [])
    ensures r.Err? ==> conversation.messages == old(conversation.messages)
  {
    r := table.ReserveMonthlyConsultation(key, limit, o.reserve);
    if r.Err? {
      return;
    }
    var committed := false;
    if o.build {
      if o.agent {
        committed := o.create;
      }
    }
    if committed {
      assert Succeeds(key, o);
      NotifyMonthlyLimit(notifications, key, r.value, n);
      conversation.AddMessage("user", message, t.userStored);
      conversation.AddMessage("assistant", t.recommendation, t.assistantStored);
      return;
    }
    ghost var count := Count(old(table.usage), key);
    var released := table.ReleaseMonthlyConsultation(key, o.release);
    if o.release {
      UpdateTwice(old(table.usage), key, count + 1, count);
      assert table.usage == old(table.usage)[key := count];
    } else {
      assert table.usage == old(table.usage)[key := count + 1];
    }
    r := Err("failed");
  }
}
