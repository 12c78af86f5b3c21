/** The mobile app's SessionController: an in-memory session, a record in secure storage,
    and a chain of futures that serialises the storage calls.

    Everything runs on one Dart event loop, so the protocol is a state machine whose steps
    are the pieces of code between two awaits.  An Event is one such piece. */
module MobileSession {
  import opened Wrappers

  datatype Session = Session(token: string, expiresAt: int)

  /** One call handed to `_persist`.  `overtaken` is history, not program state: it tells
      whether a clear took effect since the call was made. */
  datatype Call = Write(session: Session, overtaken: bool) | Delete

  /** A finished call whose caller has not resumed yet. */
  datatype Outcome = Outcome(call: Call, ok: bool)

  datatype State = State(
    session: Option<Session>,    // _session
    timer: Option<string>,       // the token the running _expiryTimer will clear
    generation: nat,
    storageError: bool,          // storageError != null
    stored: Option<Session>,     // the record in secure storage
    queue: seq<Call>,            // calls behind _storageQueue, oldest first
    outcomes: seq<Outcome>,      // finished calls whose await has not resumed
    logouts: seq<string>,        // tokens of logout requests without an answer
    overtaken: bool)             // history: `overtaken` of the write that published `session`

  datatype Event =
    | Activate(session: Session, alive: bool)  // activate() up to its first await
    | Finish(ok: bool)                         // storage finishes the oldest call
    | Resume                                   // the oldest finished call's caller resumes
    | Reject(token: Option<string>)            // clearIfCurrent(), from a 401 response
    | Expire                                   // _expiryTimer fires
    | Logout(alive: bool)                      // logout() up to its first await
    | LogoutAnswer(i: nat, accepted: bool)     // the i-th open logout: success or 401, else an error

  function TokenOf(session: Option<Session>): Option<string> {
    if session.Some? then Some(session.value.token) else None
  }

  // ---------------------------------------------------------------- one step

  function Overtake(call: Call): Call {
    if call.Write? then call.(overtaken := true) else call
  }

  function OvertakeAll(calls: seq<Call>): (r: seq<Call>)
    ensures |r| == |calls|
    ensures forall i :: 0 <= i < |calls| ==> r[i] == Overtake(calls[i])
  {
    seq(|calls|, i requires 0 <= i < |calls| => Overtake(calls[i]))
  }

  function OvertakeOutcomes(outcomes: seq<Outcome>): (r: seq<Outcome>)
    ensures |r| == |outcomes|
    ensures forall i :: 0 <= i < |outcomes| ==> r[i] == Outcome(Overtake(outcomes[i].call), outcomes[i].ok)
  {
    seq(|outcomes|, i requires 0 <= i < |outcomes| => Outcome(Overtake(outcomes[i].call), outcomes[i].ok))
  }

  /** clearIfCurrent: drop the session at once, delete the record through the queue. */
  function Clear(s: State, token: Option<string>): State {
    if TokenOf(s.session) != token then s
    else s.(session := None, timer := None, generation := s.generation + 1,
            queue := OvertakeAll(s.queue) + [Delete],
            outcomes := OvertakeOutcomes(s.outcomes), overtaken := false)
  }

  function Effect(stored: Option<Session>, call: Call, ok: bool): Option<Session> {
    if !ok then stored
    else match call
      case Write(session, _) => Some(session)
      case Delete => None
  }

  function Publish(s: State, outcome: Outcome): State {
    match outcome.call
    case Write(session, overtaken) =>
      if outcome.ok then
        s.(session := Some(session), timer := Some(session.token), generation := s.generation + 1,
           storageError := false, overtaken := overtaken)
      else s
    case Delete => if outcome.ok then s else s.(storageError := true)
  }

  function Step(s: State, e: Event): State {
    match e
    case Activate(session, alive) =>
      if alive then s.(queue := s.queue + [Write(session, false)]) else s
    case Finish(ok) =>
      if s.queue == [] then s
      else s.(stored := Effect(s.stored, s.queue[0], ok), queue := s.queue[1..],
              outcomes := s.outcomes + [Outcome(s.queue[0], ok)])
    case Resume =>
      if s.outcomes == [] then s
      else Publish(s.(outcomes := s.outcomes[1..]), s.outcomes[0])
    case Reject(token) => Clear(s, token)
    case Expire => if s.timer.None? then s else Clear(s.(timer := None), s.timer)
    case Logout(alive) =>
      if s.session.Some? && alive then s.(logouts := s.logouts + [s.session.value.token])
      else Clear(s, TokenOf(s.session))
    case LogoutAnswer(i, accepted) =>
      if i >= |s.logouts| then s
      else
        var rest := s.(logouts := s.logouts[..i] + s.logouts[i + 1..]);
        if accepted then Clear(rest, Some(s.logouts[i])) else rest
  }

  function Run(s: State, events: seq<Event>): State
    decreases events
  {
    if events == [] then s else Run(Step(s, events[0]), events[1..])
  }

  /** The state once `initialize` has finished without an error. */
  predicate Initial(s: State) {
    && s.queue == [] && s.outcomes == [] && s.logouts == []
    && s.stored == s.session && s.timer == TokenOf(s.session) && !s.overtaken
  }

  predicate AtRest(s: State) {
    s.queue == [] && s.outcomes == []
  }

  // ------------------------------------------- storage is a queue of calls

  /** The storage call that an event makes: a write for an accepted activate, a delete for
      a clear whose token matches. */
  function Made(s: State, e: Event): seq<Call> {
    match e
    case Activate(session, alive) => if alive then [Write(session, false)] else []
    case Finish(_) => []
    case Resume => []
    case Reject(token) => if TokenOf(s.session) == token then [Delete] else []
    case Expire => if s.timer.Some? && TokenOf(s.session) == s.timer then [Delete] else []
    case Logout(alive) => if s.session.Some? && alive then [] else [Delete]
    case LogoutAnswer(i, accepted) =>
      if i < |s.logouts| && accepted && TokenOf(s.session) == Some(s.logouts[i]) then [Delete] else []
  }

  /** The calls that a run hands to `_persist`, in call order. */
  function Calls(s: State, events: seq<Event>): seq<Call>
    decreases events
  {
    if events == [] then [] else Made(s, events[0]) + Calls(Step(s, events[0]), events[1..])
  }

  function PlainCall(call: Call): Call {
    if call.Write? then call.(overtaken := false) else call
  }

  function Plain(calls: seq<Call>): (r: seq<Call>)
    ensures |r| == |calls|
    ensures forall i :: 0 <= i < |calls| ==> r[i] == PlainCall(calls[i])
  {
    seq(|calls|, i requires 0 <= i < |calls| => PlainCall(calls[i]))
  }

  /** The answers of storage in a run: one for each call it finishes. */
  function Answers(s: State, events: seq<Event>): seq<bool>
    decreases events
  {
    if events == [] then []
    else
      (if events[0].Finish? && s.queue != [] then [events[0].ok] else [])
      + Answers(Step(s, events[0]), events[1..])
  }

  function Fold(stored: Option<Session>, calls: seq<Call>, answers: seq<bool>): Option<Session>
    requires |calls| == |answers|
    decreases calls
  {
    if calls == [] then stored
    else Fold(Effect(stored, calls[0], answers[0]), calls[1..], answers[1..])
  }

  lemma StepAppendsItsCall(s: State, e: Event)
    requires !e.Finish?
    ensures Plain(Step(s, e).queue) == Plain(s.queue) + Made(s, e)
    ensures Step(s, e).stored == s.stored
  {
  }

  /** Handing `calls` to a queue `queue` and taking `answers` from storage leads from the
      record `stored` to the record `end` with `left` still queued. */
  predicate Follows(stored: Option<Session>, queue: seq<Call>, calls: seq<Call>, answers: seq<bool>,
                    end: Option<Session>, left: seq<Call>)
  {
    var all := queue + calls;
    && |answers| <= |all|
    && end == Fold(stored, all[..|answers|], answers)
    && left == all[|answers|..]
  }

  lemma FollowsFinish(stored: Option<Session>, queue: seq<Call>, calls: seq<Call>, ok: bool, answers: seq<bool>,
                      end: Option<Session>, left: seq<Call>)
    requires queue != [] && Follows(Effect(stored, queue[0], ok), queue[1..], calls, answers, end, left)
    ensures Follows(stored, queue, calls, [ok] + answers, end, left)
  {
    var all, rest := queue + calls, queue[1..] + calls;
    var k := |answers|;
    assert all[1..] == rest;
    assert all[1 + k..] == rest[k..];
    var done := all[..1 + k];
    assert done[0] == queue[0] && done[1..] == rest[..k];
    assert ([ok] + answers)[1..] == answers;
  }

  lemma FollowsCall(stored: Option<Session>, queue: seq<Call>, made: seq<Call>, calls: seq<Call>, answers: seq<bool>,
                    end: Option<Session>, left: seq<Call>)
    requires Follows(stored, queue + made, calls, answers, end, left)
    ensures Follows(stored, queue, made + calls, answers, end, left)
  {
    assert queue + (made + calls) == queue + made + calls;
  }

  /** Storage always holds the fold of the finished calls in the order they were made, with
      the failed ones skipped; what is left of the calls is exactly the queue. */
  lemma {:induction false} StorageFollowsCallOrder(s: State, events: seq<Event>)
    ensures
      var end := Run(s, events);
      Follows(s.stored, Plain(s.queue), Calls(s, events), Answers(s, events), end.stored, Plain(end.queue))
    decreases events
  {
    if events != [] {
      var e, next, end := events[0], Step(s, events[0]), Run(s, events);
      StorageFollowsCallOrder(next, events[1..]);
      var calls, answers := Calls(next, events[1..]), Answers(next, events[1..]);
      if e.Finish? && s.queue != [] {
        assert Plain(next.queue) == Plain(s.queue)[1..];
        assert Calls(s, events) == calls;
        FollowsFinish(s.stored, Plain(s.queue), calls, e.ok, answers, end.stored, Plain(end.queue));
      } else if e.Finish? {
        assert Calls(s, events) == calls && Answers(s, events) == answers;
      } else {
        StepAppendsItsCall(s, e);
        assert Answers(s, events) == answers;
        FollowsCall(s.stored, Plain(s.queue), Made(s, e), calls, answers, end.stored, Plain(end.queue));
      }
    }
  }

  function Finishes(answers: seq<bool>): (events: seq<Event>)
    ensures |events| == |answers|
  {
    if answers == [] then [] else [Finish(answers[0])] + Finishes(answers[1..])
  }

  /** A failed call never blocks a later one: whatever storage answers, |queue| answers
      drain the queue and every call has had its turn. */
  lemma {:induction false} FailureNeverBlocks(s: State, answers: seq<bool>)
    requires |answers| == |s.queue|
    ensures Run(s, Finishes(answers)).queue == []
    ensures Run(s, Finishes(answers)).stored == Fold(s.stored, s.queue, answers)
    ensures |Run(s, Finishes(answers)).outcomes| == |s.outcomes| + |s.queue|
    decreases answers
  {
    if answers == [] {
    } else {
      var events := Finishes(answers);
      assert events[1..] == Finishes(answers[1..]);
      FailureNeverBlocks(Step(s, events[0]), answers[1..]);
    }
  }

  // ---------------------------------------------------- generations and tokens

  /** `generation` never falls, and rises strictly across any run that ends in another
      session than it began with. */
  lemma {:induction false} EveryChangeRaisesGeneration(s: State, events: seq<Event>)
    ensures s.generation <= Run(s, events).generation
    ensures Run(s, events).session != s.session ==> s.generation < Run(s, events).generation
    decreases events
  {
    if events != [] {
      EveryChangeRaisesGeneration(Step(s, events[0]), events[1..]);
    }
  }

  /** The token that an event asks to clear, if it asks for one. */
  function Target(s: State, e: Event): Option<string> {
    match e
    case Reject(token) => token
    case Expire => s.timer
    case Logout(alive) => if alive then None else TokenOf(s.session)
    case LogoutAnswer(i, accepted) => if i < |s.logouts| && accepted then Some(s.logouts[i]) else None
    case _ => None
  }

  /** A session is removed exactly by an event aimed at its own token: a late 401, logout
      answer or timer for another token leaves it, and storage, alone. */
  lemma OnlyOwnTokenRemoves(s: State, e: Event)
    requires s.session.Some?
    ensures Step(s, e).session.None? <==> Target(s, e) == Some(s.session.value.token)
    ensures Target(s, e).Some? && Target(s, e) != Some(s.session.value.token)
            ==> Step(s, e).session == s.session && Step(s, e).queue == s.queue
                && Step(s, e).generation == s.generation
  {
  }

  lemma TimerStep(s: State, e: Event)
    requires s.timer == TokenOf(s.session)
    ensures Step(s, e).timer == TokenOf(Step(s, e).session)
  {
  }

  /** The running timer is always the timer of the session in memory. */
  lemma {:induction false} TimerBelongsToSession(s: State, events: seq<Event>)
    requires s.timer == TokenOf(s.session)
    ensures Run(s, events).timer == TokenOf(Run(s, events).session)
    decreases events
  {
    if events != [] {
      TimerStep(s, events[0]);
      TimerBelongsToSession(Step(s, events[0]), events[1..]);
    }
  }

  // ------------------------------------------------- memory and storage at rest

  /** No storage delete fails in the run. */
  predicate DeletesSucceed(s: State, events: seq<Event>)
    decreases events
  {
    events == [] || (
      && (events[0].Finish? && s.queue != [] && s.queue[0].Delete? ==> events[0].ok)
      && DeletesSucceed(Step(s, events[0]), events[1..]))
  }

  /** No clear takes effect while an activate is between its call and its publication. */
  predicate NoClearDuringActivate(s: State, events: seq<Event>)
    decreases events
  {
    events == [] || (
      && (Cleared(s, events[0]) ==> !ActivateInFlight(s))
      && NoClearDuringActivate(Step(s, events[0]), events[1..]))
  }

  predicate Cleared(s: State, e: Event) {
    Made(s, e) == [Delete]
  }

  predicate ActivateInFlight(s: State) {
    || (exists i :: 0 <= i < |s.queue| && s.queue[i].Write?)
    || (exists i :: 0 <= i < |s.outcomes| && Published(s.outcomes[i]))
  }

  /** Finished writes that succeeded and will become the session. */
  predicate Published(o: Outcome) {
    o.ok && o.call.Write?
  }

  function LastPublished(outcomes: seq<Outcome>, session: Option<Session>, overtaken: bool): (Option<Session>, bool) {
    if outcomes == [] then (session, overtaken)
    else
      var o := outcomes[|outcomes| - 1];
      if Published(o) then (Some(o.call.session), o.call.overtaken)
      else LastPublished(outcomes[..|outcomes| - 1], session, overtaken)
  }

  /** What the session and its flag will be when the finished calls have all resumed. */
  function Due(s: State): (Option<Session>, bool) {
    LastPublished(s.outcomes, s.session, s.overtaken)
  }

  predicate DeleteQueued(s: State) {
    Delete in s.queue
  }

  /** If no delete is waiting, storage agrees with the session that is due, unless a clear
      overtook that session's write; then the record is gone. */
  ghost predicate Agreement(s: State) {
    && (s.stored.Some? && !DeleteQueued(s) ==> s.stored == Due(s).0)
    && (!DeleteQueued(s) && Due(s).0.Some? ==> (s.stored.None? <==> Due(s).1))
    && (DeleteQueued(s) && Due(s).0.Some? ==> Due(s).1)
    && OvertakenBehindDelete(s)
  }

  /** A queued write that was overtaken still has a delete behind it; one that was not has
      none. */
  ghost predicate OvertakenBehindDelete(s: State) {
    forall i :: 0 <= i < |s.queue| && s.queue[i].Write? ==>
      (s.queue[i].overtaken <==> exists j :: i < j < |s.queue| && s.queue[j].Delete?)
  }

  lemma LastPublishedAppend(outcomes: seq<Outcome>, o: Outcome, session: Option<Session>, overtaken: bool)
    ensures LastPublished(outcomes + [o], session, overtaken)
         == if Published(o) then (Some(o.call.session), o.call.overtaken)
            else LastPublished(outcomes, session, overtaken)
  {
    assert (outcomes + [o])[..|outcomes|] == outcomes;
  }

  lemma {:induction false} LastPublishedResume(outcomes: seq<Outcome>, session: Option<Session>, overtaken: bool)
    requires outcomes != []
    ensures
      var o := outcomes[0];
      LastPublished(outcomes, session, overtaken)
        == if Published(o) then LastPublished(outcomes[1..], Some(o.call.session), o.call.overtaken)
           else LastPublished(outcomes[1..], session, overtaken)
  {
    var n := |outcomes| - 1;
    if n > 0 {
      LastPublishedResume(outcomes[..n], session, overtaken);
      assert outcomes[1..][..n - 1] == outcomes[..n][1..];
    }
  }

  lemma {:induction false} LastPublishedOvertake(outcomes: seq<Outcome>)
    ensures
      var after := LastPublished(OvertakeOutcomes(outcomes), None, false);
      after.0.Some? ==> after.1
  {
    var n := |outcomes| - 1;
    if n >= 0 {
      LastPublishedOvertake(outcomes[..n]);
      assert OvertakeOutcomes(outcomes)[..n] == OvertakeOutcomes(outcomes[..n]);
    }
  }

  lemma AgreementStep(s: State, e: Event)
    requires Agreement(s)
    requires e.Finish? && s.queue != [] && s.queue[0].Delete? ==> e.ok
    ensures Agreement(Step(s, e))
  {
    var next := Step(s, e);
    match e {
      case Activate(session, alive) =>
        if alive { AgreementEnqueue(s, session); }
      case Finish(ok) =>
        if s.queue != [] { AgreementFinish(s, ok); }
      case Resume =>
        if s.outcomes != [] {
          LastPublishedResume(s.outcomes, s.session, s.overtaken);
        }
      case Reject(token) => AgreementClear(s, token);
      case Expire => AgreementExpire(s);
      case Logout(alive) => AgreementLogout(s, alive);
      case LogoutAnswer(i, accepted) => AgreementAnswer(s, i, accepted);
    }
  }

  lemma AgreementExpire(s: State)
    requires Agreement(s)
    ensures Agreement(Step(s, Expire))
  {
    if s.timer.Some? {
      AgreementClear(s.(timer := None), s.timer);
    }
  }

  lemma AgreementLogout(s: State, alive: bool)
    requires Agreement(s)
    ensures Agreement(Step(s, Logout(alive)))
  {
    if !(s.session.Some? && alive) {
      AgreementClear(s, TokenOf(s.session));
    }
  }

  lemma AgreementAnswer(s: State, i: nat, accepted: bool)
    requires Agreement(s)
    ensures Agreement(Step(s, LogoutAnswer(i, accepted)))
  {
    if i < |s.logouts| && accepted {
      AgreementClear(s.(logouts := s.logouts[..i] + s.logouts[i + 1..]), Some(s.logouts[i]));
    }
  }

  lemma AgreementEnqueue(s: State, session: Session)
    requires Agreement(s)
    ensures Agreement(s.(queue := s.queue + [Write(session, false)]))
  {
    var next := s.(queue := s.queue + [Write(session, false)]);
    assert DeleteQueued(next) <==> DeleteQueued(s);
    forall i | 0 <= i < |next.queue| && next.queue[i].Write?
      ensures next.queue[i].overtaken <==> exists j :: i < j < |next.queue| && next.queue[j].Delete?
    {
      if i < |s.queue| && s.queue[i].overtaken {
        var j :| i < j < |s.queue| && s.queue[j].Delete?;
        assert next.queue[j].Delete?;
      }
    }
  }

  lemma AgreementFinish(s: State, ok: bool)
    requires Agreement(s) && s.queue != []
    requires s.queue[0].Delete? ==> ok
    ensures Agreement(Step(s, Finish(ok)))
  {
    var next := Step(s, Finish(ok));
    LastPublishedAppend(s.outcomes, Outcome(s.queue[0], ok), s.session, s.overtaken);
    forall i | 0 <= i < |next.queue| && next.queue[i].Write?
      ensures next.queue[i].overtaken <==> exists j :: i < j < |next.queue| && next.queue[j].Delete?
    {
      assert next.queue[i] == s.queue[i + 1];
      if s.queue[i + 1].overtaken {
        var j :| i + 1 < j < |s.queue| && s.queue[j].Delete?;
        assert next.queue[j - 1].Delete?;
      }
      if j :| i < j < |next.queue| && next.queue[j].Delete? {
        assert s.queue[j + 1].Delete?;
      }
    }
    if s.queue[0].Write? {
      if j :| 0 < j < |s.queue| && s.queue[j].Delete? {
        assert next.queue[j - 1] == Delete;
      }
    }
    if DeleteQueued(next) {
      var j :| 0 <= j < |next.queue| && next.queue[j] == Delete;
      assert s.queue[j + 1] == Delete;
    }
  }

  lemma AgreementClear(s: State, token: Option<string>)
    requires Agreement(s)
    ensures Agreement(Clear(s, token))
  {
    if TokenOf(s.session) == token {
      var next := Clear(s, token);
      var n := |s.queue|;
      assert next.queue[n] == Delete;
      LastPublishedOvertake(s.outcomes);
      forall i | 0 <= i < |next.queue| && next.queue[i].Write?
        ensures next.queue[i].overtaken <==> exists j :: i < j < |next.queue| && next.queue[j].Delete?
      {
        assert i < n && next.queue[n].Delete?;
      }
    }
  }

  lemma {:induction false} AgreementRun(s: State, events: seq<Event>)
    requires Agreement(s) && DeletesSucceed(s, events)
    ensures Agreement(Run(s, events))
    decreases events
  {
    if events != [] {
      AgreementStep(s, events[0]);
      AgreementRun(Step(s, events[0]), events[1..]);
    }
  }

  /** At rest, in every interleaving in which no storage delete fails: the stored record is
      absent or belongs to the current session, and the two are equal exactly when no clear
      took effect between the call and the publication of the activate that made the current
      session. */
  lemma StorageAtRest(s: State, events: seq<Event>)
    requires Initial(s) && DeletesSucceed(s, events) && AtRest(Run(s, events))
    ensures
      var end := Run(s, events);
      && (end.stored.None? || end.stored == end.session)
      && (end.stored == end.session <==> !(end.session.Some? && end.overtaken))
  {
    AgreementRun(s, events);
    var end := Run(s, events);
    assert !DeleteQueued(end);
    assert Due(end) == (end.session, end.overtaken);
  }

  /** No write in flight, and not the published one, has been overtaken. */
  ghost predicate Unovertaken(s: State) {
    && !s.overtaken
    && (forall i :: 0 <= i < |s.queue| && s.queue[i].Write? ==> !s.queue[i].overtaken)
    && (forall i :: 0 <= i < |s.outcomes| && Published(s.outcomes[i]) ==> !s.outcomes[i].call.overtaken)
  }

  lemma UnovertakenStep(s: State, e: Event)
    requires Unovertaken(s) && (Cleared(s, e) ==> !ActivateInFlight(s))
    ensures Unovertaken(Step(s, e))
  {
    var next := Step(s, e);
    if Cleared(s, e) {
      assert forall i :: 0 <= i < |s.queue| ==> next.queue[i] == Overtake(s.queue[i]);
      assert forall i :: 0 <= i < |next.outcomes| ==> (Published(next.outcomes[i]) <==> Published(s.outcomes[i]));
    }
  }

  /** With no clear during an activate, memory and storage agree at rest. */
  lemma {:induction false} QuietRunAgrees(s: State, events: seq<Event>)
    requires Initial(s) && DeletesSucceed(s, events) && NoClearDuringActivate(s, events)
    requires AtRest(Run(s, events))
    ensures Run(s, events).stored == Run(s, events).session
  {
    UnovertakenRun(s, events);
    StorageAtRest(s, events);
  }

  lemma {:induction false} UnovertakenRun(s: State, events: seq<Event>)
    requires Unovertaken(s) && NoClearDuringActivate(s, events)
    ensures Unovertaken(Run(s, events))
    decreases events
  {
    if events != [] {
      UnovertakenStep(s, events[0]);
      UnovertakenRun(Step(s, events[0]), events[1..]);
    }
  }

  /** The race that separates the two: a 401 for the old session arrives while the write of
      the new one is under way. */
  lemma RejectionDuringActivateLosesRecord(a: Session, b: Session)
    requires a.token != b.token
    ensures
      var s := State(Some(a), Some(a.token), 0, false, Some(a), [], [], [], false);
      var events := [Activate(b, true), Reject(Some(a.token)), Finish(true), Finish(true), Resume, Resume];
      var end := Run(s, events);
      && Initial(s) && DeletesSucceed(s, events) && AtRest(end)
      && end.session == Some(b) && end.stored == None
  {
    var s := State(Some(a), Some(a.token), 0, false, Some(a), [], [], [], false);
    var e1, e2, e3, e4 := Activate(b, true), Reject(Some(a.token)), Finish(true), Resume;
    var s1 := Step(s, e1);
    var s2 := Step(s1, e2);
    assert s2.queue == [Write(b, true), Delete];
    var s3 := Step(s2, e3);
    assert s3.queue == [Delete];
    var s4 := Step(s3, e3);
    assert s4.queue == [] && s4.outcomes == [Outcome(Write(b, true), true), Outcome(Delete, true)];
    var s5 := Step(s4, e4);
    assert s5.outcomes == [Outcome(Delete, true)];
    var s6 := Step(s5, e4);
    assert Run(s5, [e4]) == s6 && DeletesSucceed(s5, [e4]) by { assert [e4][1..] == []; }
    assert Run(s4, [e4, e4]) == s6 && DeletesSucceed(s4, [e4, e4]) by { assert [e4, e4][1..] == [e4]; }
    var tail := [e3, e3, e4, e4];
    assert Run(s3, [e3, e4, e4]) == s6 && DeletesSucceed(s3, [e3, e4, e4]) by { assert [e3, e4, e4][1..] == [e4, e4]; }
    assert Run(s2, tail) == s6 && DeletesSucceed(s2, tail) by { assert tail[1..] == [e3, e4, e4]; }
    assert ([e2] + tail)[1..] == tail && ([e1, e2] + tail)[1..] == [e2] + tail;
    assert [e1, e2, e3, e3, e4, e4] == [e1, e2] + tail;
  }

  /** Without the assumption on deletes the record can outlive its session: one failed
      delete is enough. */
  lemma FailedDeleteLeavesRecord(a: Session)
    ensures
      var s := State(Some(a), Some(a.token), 0, false, Some(a), [], [], [], false);
      var end := Run(s, [Expire, Finish(false), Resume]);
      Initial(s) && AtRest(end) && end.session == None && end.stored == Some(a) && end.storageError
  {
    var s := State(Some(a), Some(a.token), 0, false, Some(a), [], [], [], false);
    var s1 := Step(s, Expire);
    assert s1.queue == [Delete];
    var s2 := Step(s1, Finish(false));
    var s3 := Step(s2, Resume);
    assert [Expire, Finish(false), Resume][1..] == [Finish(false), Resume];
    assert [Finish(false), Resume][1..] == [Resume];
    assert [Resume][1..] == [];
    assert Run(s2, [Resume]) == s3;
  }

  // ------------------------------------------------------------ the controller

  /** The controller itself; each method is one piece of code between two awaits. */
  class SessionController {
    var session: Option<Session>
    var expiryTimer: Option<string>
    var generation: nat
    var storageError: bool
    var stored: Option<Session>
    var storageQueue: seq<Call>
    var outcomes: seq<Outcome>
    var logouts: seq<string>
    ghost var overtaken: bool

    ghost function View(): State
      reads this
    {
      State(session, expiryTimer, generation, storageError, stored, storageQueue, outcomes, logouts, overtaken)
    }

    /** After `initialize`: the live session found in storage, or none. */
    constructor (restored: Option<Session>)
      ensures Initial(View()) && session == restored
    {
      session, stored := restored, restored;
      expiryTimer := TokenOf(restored);
      generation, storageError := 0, false;
      storageQueue, outcomes, logouts := [], [], [];
      overtaken := false;
    }

    method Persist(call: Call)
      modifies this`storageQueue
      ensures storageQueue == old(storageQueue) + [call]
    {
      storageQueue := storageQueue + [call];
    }

    method Activate(candidate: Session, alive: bool) returns (accepted: bool)
      modifies this
      ensures accepted == alive
      ensures View() == Step(old(View()), Event.Activate(candidate, alive))
    {
      if !alive {
        return false;
      }
      Persist(Write(candidate, false));
      return true;
    }

    /** Storage finishes the oldest call. */
    method StorageFinishes(ok: bool)
      modifies this
      ensures View() == Step(old(View()), Finish(ok))
    {
      if storageQueue != [] {
        var call := storageQueue[0];
        storageQueue := storageQueue[1..];
        if ok {
          match call {
            case Write(written, _) => stored := Some(written);
            case Delete => stored := None;
          }
        }
        outcomes := outcomes + [Outcome(call, ok)];
      }
    }

    /** The code after the await in `activate` and in `clearIfCurrent`. */
    method CallerResumes()
      modifies this
      ensures View() == Step(old(View()), Resume)
    {
      if outcomes != [] {
        var outcome := outcomes[0];
        outcomes := outcomes[1..];
        match outcome.call {
          case Write(written, flag) =>
            if outcome.ok {
              session := Some(written);
              storageError := false;
              generation := generation + 1;
              ScheduleExpiry();
              overtaken := flag;
            }
          case Delete =>
            if !outcome.ok {
              storageError := true;
            }
        }
      }
    }

    method ScheduleExpiry()
      requires session.Some?
      modifies this`expiryTimer
      ensures expiryTimer == Some(session.value.token)
    {
      expiryTimer := None;
      expiryTimer := Some(session.value.token);
    }

    method ClearIfCurrent(rejected: Option<string>)
      modifies this
      ensures View() == Step(old(View()), Reject(rejected))
    {
      if TokenOf(session) != rejected {
        return;
      }
      session := None;
      expiryTimer := None;
      generation := generation + 1;
      outcomes := OvertakeOutcomes(outcomes);
      storageQueue := OvertakeAll(storageQueue);
      overtaken := false;
      Persist(Delete);
    }

    method ExpiryTimerFires()
      modifies this
      ensures View() == Step(old(View()), Expire)
    {
      if expiryTimer.Some? {
        var token := expiryTimer;
        expiryTimer := None;
        ClearIfCurrent(token);
      }
    }

    method Logout(alive: bool)
      modifies this
      ensures View() == Step(old(View()), Event.Logout(alive))
    {
      if session.Some? && alive {
        logouts := logouts + [session.value.token];
      } else {
        ClearIfCurrent(TokenOf(session));
      }
    }

    /** The server answers the i-th open logout: done or 401, or another error. */
    method LogoutAnswered(i: nat, accepted: bool)
      modifies this
      ensures View() == Step(old(View()), LogoutAnswer(i, accepted))
    {
      if i < |logouts| {
        var current := logouts[i];
        logouts := logouts[..i] + logouts[i + 1..];
        if accepted {
          ClearIfCurrent(Some(current));
        }
      }
    }
  }
}
