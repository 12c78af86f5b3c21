/** Over whole runs of the SessionController: which logout requests are open, what an answer to
    one of them ends, and when the storage error is shown. */
module MobileLogout {
  import opened Wrappers
  import opened MobileSession

  // ------------------------------------------------------------- logging out

  lemma {:induction false} RunSnoc(s: State, events: seq<Event>)
    requires events != []
    ensures Run(s, events) == Step(Run(s, events[..|events| - 1]), events[|events| - 1])
    decreases events
  {
    var n := |events| - 1;
    if n > 0 {
      RunSnoc(Step(s, events[0]), events[1..]);
      assert events[1..][..n - 1] == events[..n][1..];
    }
  }

  /** A logout of a live session asks for the token that is current then, and each answer
      settles one request. */
  function OpenAfter(open: seq<string>, current: Option<string>, e: Event): seq<string> {
    match e
    case Logout(alive) => if alive && current.Some? then open + [current.value] else open
    case LogoutAnswer(i, _) => if i < |open| then open[..i] + open[i + 1..] else open
    case _ => open
  }

  /** The logout requests without an answer, told from the events. */
  function Open(s: State, events: seq<Event>): seq<string> {
    if events == [] then []
    else
      var n := |events| - 1;
      OpenAfter(Open(s, events[..n]), TokenOf(Run(s, events[..n]).session), events[n])
  }

  lemma LogoutsStep(s: State, e: Event)
    ensures Step(s, e).logouts == OpenAfter(s.logouts, TokenOf(s.session), e)
  {
  }

  /** No request is forgotten, and none is made up. */
  lemma {:induction false} LogoutsFollowHistory(s: State, events: seq<Event>)
    requires Initial(s)
    ensures Run(s, events).logouts == Open(s, events)
    decreases |events|
  {
    if events != [] {
      RunSnoc(s, events);
      LogoutsFollowHistory(s, events[..|events| - 1]);
      LogoutsStep(Run(s, events[..|events| - 1]), events[|events| - 1]);
    }
  }

  /** How many of the calls write a session with this token. */
  function WritesOf(calls: seq<Call>, token: string): nat {
    if calls == [] then 0
    else
      var call := calls[|calls| - 1];
      WritesOf(calls[..|calls| - 1], token) + if call.Write? && call.session.token == token then 1 else 0
  }

  lemma {:induction false} WritesOfAll(a: seq<Call>, b: seq<Call>, token: string)
    ensures WritesOf(a + b, token) == WritesOf(a, token) + WritesOf(b, token)
    decreases |b|
  {
    if b == [] {
      assert a + b == a;
    } else {
      assert (a + b)[..|a + b| - 1] == a + b[..|b| - 1];
      WritesOfAll(a, b[..|b| - 1], token);
    }
  }

  lemma {:induction false} WritesOfOvertaken(calls: seq<Call>, token: string)
    ensures WritesOf(OvertakeAll(calls), token) == WritesOf(calls, token)
    decreases |calls|
  {
    if calls != [] {
      WritesOfOvertaken(calls[..|calls| - 1], token);
      assert OvertakeAll(calls)[..|calls| - 1] == OvertakeAll(calls[..|calls| - 1]);
    }
  }

  /** The calls of the finished writes that will still become the session. */
  function Publishing(outcomes: seq<Outcome>): (r: seq<Call>)
    ensures |r| == |outcomes|
    ensures forall i :: 0 <= i < |r| ==> r[i] == if outcomes[i].ok then outcomes[i].call else Delete
  {
    seq(|outcomes|, i requires 0 <= i < |outcomes| => if outcomes[i].ok then outcomes[i].call else Delete)
  }

  /** Activations with this token on their way to become the session. */
  function Pending(s: State, token: string): nat {
    WritesOf(s.queue, token) + WritesOf(Publishing(s.outcomes), token)
  }

  /** The token is, or has lately been, that of the session. */
  predicate Known(s: State, token: string) {
    TokenOf(s.session) == Some(token) || token in s.logouts
  }

  /** What one event adds to the activations of a token. */
  function Adds(e: Event, token: string): nat {
    if e.Activate? && e.alive && e.session.token == token then 1 else 0
  }

  /** How often the token has been activated. */
  function Activated(s: State, events: seq<Event>, token: string): nat {
    if events == [] then (if TokenOf(s.session) == Some(token) then 1 else 0)
    else Activated(s, events[..|events| - 1], token) + Adds(events[|events| - 1], token)
  }

  function Weight(s: State, token: string): nat {
    Pending(s, token) + if Known(s, token) then 1 else 0
  }

  function Load(s: State, token: string): nat {
    Pending(s, token) + if TokenOf(s.session) == Some(token) then 1 else 0
  }

  lemma WritesOfOne(call: Call, token: string)
    ensures WritesOf([call], token) == if call.Write? && call.session.token == token then 1 else 0
  {
    assert [call][..0] == [];
  }

  lemma PendingOfClear(s: State, cleared: Option<string>, token: string)
    ensures Pending(Clear(s, cleared), token) == Pending(s, token)
    ensures Load(Clear(s, cleared), token) <= Load(s, token)
  {
    if TokenOf(s.session) == cleared {
      WritesOfAll(OvertakeAll(s.queue), [Delete], token);
      WritesOfOvertaken(s.queue, token);
      WritesOfOne(Delete, token);
      assert Publishing(OvertakeOutcomes(s.outcomes)) == OvertakeAll(Publishing(s.outcomes));
      WritesOfOvertaken(Publishing(s.outcomes), token);
    }
  }

  lemma PendingOfFinish(s: State, ok: bool, token: string)
    ensures Pending(Step(s, Finish(ok)), token) <= Pending(s, token)
  {
    if s.queue != [] {
      var next, call := Step(s, Finish(ok)), s.queue[0];
      var done := if ok then call else Delete;
      assert s.queue == [call] + s.queue[1..];
      WritesOfAll([call], s.queue[1..], token);
      WritesOfOne(call, token);
      assert Publishing(next.outcomes) == Publishing(s.outcomes) + [done];
      WritesOfAll(Publishing(s.outcomes), [done], token);
      WritesOfOne(done, token);
    }
  }

  lemma FirstPublishing(outcomes: seq<Outcome>, token: string)
    requires outcomes != []
    ensures WritesOf(Publishing(outcomes), token)
         == WritesOf(Publishing(outcomes[1..]), token)
            + if Published(outcomes[0]) && outcomes[0].call.session.token == token then 1 else 0
  {
    var done := if outcomes[0].ok then outcomes[0].call else Delete;
    assert Publishing(outcomes) == [done] + Publishing(outcomes[1..]);
    WritesOfAll([done], Publishing(outcomes[1..]), token);
    WritesOfOne(done, token);
  }

  lemma PendingOfResume(s: State, token: string)
    ensures Pending(Step(s, Resume), token) <= Pending(s, token)
    ensures Load(Step(s, Resume), token) <= Load(s, token)
  {
    if s.outcomes != [] {
      FirstPublishing(s.outcomes, token);
    }
  }

  /** Only an activation adds to what is on its way, and only what was on its way becomes the
      session. */
  lemma PendingStep(s: State, e: Event, token: string)
    ensures Pending(Step(s, e), token) <= Pending(s, token) + Adds(e, token)
    ensures Load(Step(s, e), token) <= Load(s, token) + Adds(e, token)
  {
    match e {
      case Activate(session, alive) =>
        WritesOfAll(s.queue, [Write(session, false)], token);
        WritesOfOne(Write(session, false), token);
      case Finish(ok) => PendingOfFinish(s, ok, token);
      case Resume => PendingOfResume(s, token);
      case Reject(t) => PendingOfClear(s, t, token);
      case Expire => PendingOfClear(s.(timer := None), s.timer, token);
      case Logout(alive) =>
        if !(s.session.Some? && alive) { PendingOfClear(s, TokenOf(s.session), token); }
      case LogoutAnswer(i, accepted) =>
        if i < |s.logouts| {
          PendingOfClear(s.(logouts := s.logouts[..i] + s.logouts[i + 1..]), Some(s.logouts[i]), token);
        }
    }
  }

  /** Only the session's own token is added to the open logouts. */
  lemma KnownStep(s: State, e: Event, token: string)
    ensures token in Step(s, e).logouts ==> Known(s, token)
  {
  }

  lemma {:induction false} WeightRun(s: State, events: seq<Event>, token: string)
    requires Initial(s)
    ensures Weight(Run(s, events), token) <= Activated(s, events, token)
    decreases |events|
  {
    if events != [] {
      RunSnoc(s, events);
      WeightRun(s, events[..|events| - 1], token);
      PendingStep(Run(s, events[..|events| - 1]), events[|events| - 1], token);
      KnownStep(Run(s, events[..|events| - 1]), events[|events| - 1], token);
    }
  }

  /** What is neither the session nor on its way stays so without another activation. */
  lemma {:induction false} GoneRun(s: State, events: seq<Event>, more: seq<Event>, token: string)
    requires Load(Run(s, events), token) == 0
    requires Activated(s, events + more, token) <= Activated(s, events, token)
    ensures Load(Run(s, events + more), token) == 0
    decreases |more|
  {
    if more == [] {
      assert events + more == events;
    } else {
      var n := |more| - 1;
      assert (events + more)[..|events + more| - 1] == events + more[..n];
      ActivatedGrows(s, events, more[..n], token);
      GoneRun(s, events, more[..n], token);
      RunSnoc(s, events + more);
      PendingStep(Run(s, events + more[..n]), more[n], token);
    }
  }

  lemma {:induction false} ActivatedGrows(s: State, events: seq<Event>, more: seq<Event>, token: string)
    ensures Activated(s, events + more, token) >= Activated(s, events, token)
    decreases |more|
  {
    if more == [] {
      assert events + more == events;
    } else {
      assert (events + more)[..|events + more| - 1] == events + more[..|more| - 1];
      ActivatedGrows(s, events, more[..|more| - 1], token);
    }
  }

  lemma AnswerEnds(s: State, i: nat)
    requires i < |s.logouts|
    ensures
      var next := Step(s, LogoutAnswer(i, true));
      && TokenOf(next.session) != Some(s.logouts[i])
      && Pending(next, s.logouts[i]) == Pending(s, s.logouts[i])
  {
    PendingOfClear(s.(logouts := s.logouts[..i] + s.logouts[i + 1..]), Some(s.logouts[i]), s.logouts[i]);
  }

  /** Once an open logout is answered with success or a 401, its token is not that of the
      session; and if the token has been activated only once, it never is again. */
  lemma AcceptedLogoutEndsSession(s: State, events: seq<Event>, i: nat, more: seq<Event>)
    requires Initial(s) && i < |Open(s, events)|
    ensures
      var token, answered := Open(s, events)[i], events + [LogoutAnswer(i, true)];
      && TokenOf(Run(s, answered).session) != Some(token)
      && (Activated(s, answered + more, token) <= 1 ==> TokenOf(Run(s, answered + more).session) != Some(token))
  {
    var token, answered := Open(s, events)[i], events + [LogoutAnswer(i, true)];
    LogoutsFollowHistory(s, events);
    assert answered[..|answered| - 1] == events;
    RunSnoc(s, answered);
    AnswerEnds(Run(s, events), i);
    if Activated(s, answered + more, token) <= 1 {
      ActivatedGrows(s, answered, more, token);
      WeightRun(s, events, token);
      GoneRun(s, answered, more, token);
    }
  }

  /** Then, at rest and when no delete failed, no record with the token is left either. */
  lemma AcceptedLogoutEndsRecord(s: State, events: seq<Event>, i: nat, more: seq<Event>)
    requires Initial(s) && i < |Open(s, events)|
    requires
      var all := events + [LogoutAnswer(i, true)] + more;
      DeletesSucceed(s, all) && AtRest(Run(s, all)) && Activated(s, all, Open(s, events)[i]) <= 1
    ensures TokenOf(Run(s, events + [LogoutAnswer(i, true)] + more).stored) != Some(Open(s, events)[i])
  {
    AcceptedLogoutEndsSession(s, events, i, more);
    StorageAtRest(s, events + [LogoutAnswer(i, true)] + more);
  }

  // ---------------------------------------------------------- the error message

  /** The finished calls whose callers have resumed, in order. */
  function Resumed(s: State, events: seq<Event>): seq<Outcome> {
    if events == [] then []
    else
      var n := |events| - 1;
      var outcomes := Run(s, events[..n]).outcomes;
      Resumed(s, events[..n]) + if events[n].Resume? && outcomes != [] then [outcomes[0]] else []
  }

  predicate DeleteFailed(o: Outcome) {
    o.call.Delete? && !o.ok
  }

  /** The last of these that says anything about the error is a failed delete; or none does, and
      the error was there before. */
  predicate ErrorLeft(outcomes: seq<Outcome>, before: bool) {
    || (exists k :: 0 <= k < |outcomes| && DeleteFailed(outcomes[k])
                    && forall j :: k < j < |outcomes| ==> !Published(outcomes[j]))
    || (before && forall j :: 0 <= j < |outcomes| ==> !Published(outcomes[j]))
  }

  lemma ErrorLeftNext(outcomes: seq<Outcome>, o: Outcome, before: bool)
    ensures ErrorLeft(outcomes + [o], before) <==> DeleteFailed(o) || (!Published(o) && ErrorLeft(outcomes, before))
  {
    var all := outcomes + [o];
    assert all[|outcomes|] == o;
    assert forall j :: 0 <= j < |outcomes| ==> all[j] == outcomes[j];
  }

  /** The error is shown exactly from a failed delete to the next session that is published. */
  lemma {:induction false} ErrorFollowsHistory(s: State, events: seq<Event>)
    ensures Run(s, events).storageError <==> ErrorLeft(Resumed(s, events), s.storageError)
    decreases |events|
  {
    if events != [] {
      var n := |events| - 1;
      RunSnoc(s, events);
      ErrorFollowsHistory(s, events[..n]);
      var outcomes := Run(s, events[..n]).outcomes;
      if events[n].Resume? && outcomes != [] {
        ErrorLeftNext(Resumed(s, events[..n]), outcomes[0], s.storageError);
      } else {
        assert Resumed(s, events) == Resumed(s, events[..n]);
      }
    }
  }
}
