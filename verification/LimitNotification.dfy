/** The once-a-month notification that a user has used up the consultation limit: rows of
    `admin_notifications` and the claim / send / complete protocol that many requests run
    at the same time.  Each database call is one atomic step. */
module LimitNotification {
  import opened Wrappers

  datatype Key = Key(user: int, month: string)

  /** The facts a claim writes into the row. */
  datatype LimitEvent = LimitEvent(count: nat, limit: nat, occurredAt: int)

  datatype Status = Sending | Delivered | Failed

  datatype Row = Row(count: nat, limit: nat, status: Status, attempts: nat, lastError: string,
                     occurredAt: int, deliveredAt: Option<int>)

  /** The fate of a database call: answered, applied with the answer lost, or not applied. */
  datatype Fate = Answered | ReplyLost | NotApplied

  /** Where a request stands. */
  datatype Phase =
    | Refused(key: Key)                              // the claim answered false
    | ClaimError(key: Key)                           // the claim failed without effect
    | ClaimLost(key: Key)                            // the claim took effect, its answer was lost
    | InProgress(key: Key, event: LimitEvent)        // claimed, notifier running
    | Sent(key: Key, event: LimitEvent, ok: bool)    // notifier returned
    | Finished(key: Key, ok: bool, recorded: bool)   // completion called; recorded or lost

  datatype State = State(rows: map<Key, Row>, requests: map<nat, Phase>)

  datatype Event =
    | Claim(id: nat, key: Key, event: LimitEvent, fate: Fate)
    | Notify(id: nat, ok: bool)
    | Complete(id: nat, message: string, recorded: bool)

  // ---------------------------------------------------------------- statements

  predicate Claimable(rows: map<Key, Row>, key: Key) {
    key in rows ==> rows[key].status == Failed
  }

  /** The row after INSERT ... ON CONFLICT DO UPDATE ... WHERE status = 'failed'. */
  function ClaimRows(rows: map<Key, Row>, key: Key, event: LimitEvent): map<Key, Row> {
    if key !in rows then
      rows[key := Row(event.count, event.limit, Sending, 1, "", event.occurredAt, None)]
    else if rows[key].status == Failed then
      rows[key := rows[key].(count := event.count, limit := event.limit, status := Sending,
                             attempts := rows[key].attempts + 1, lastError := "")]
    else rows
  }

  /** The row after the completion's UPDATE, which looks at no status. */
  function CompleteRows(rows: map<Key, Row>, key: Key, event: LimitEvent, ok: bool, message: string): map<Key, Row> {
    if key !in rows then rows
    else if ok then
      rows[key := rows[key].(status := Delivered, lastError := "", deliveredAt := Some(event.occurredAt))]
    else
      rows[key := rows[key].(status := Failed, lastError := message, deliveredAt := None)]
  }

  // ------------------------------------------------------------------ protocol

  function Step(s: State, e: Event): State {
    match e
    case Claim(id, key, event, fate) =>
      if id in s.requests then s
      else if fate.NotApplied? then s.(requests := s.requests[id := ClaimError(key)])
      else
        var phase :=
          if !Claimable(s.rows, key) then (if fate.Answered? then Refused(key) else ClaimError(key))
          else if fate.Answered? then InProgress(key, event) else ClaimLost(key);
        State(ClaimRows(s.rows, key, event), s.requests[id := phase])
    case Notify(id, ok) =>
      if id !in s.requests || !s.requests[id].InProgress? then s
      else s.(requests := s.requests[id := Sent(s.requests[id].key, s.requests[id].event, ok)])
    case Complete(id, message, recorded) =>
      if id !in s.requests || !s.requests[id].Sent? then s
      else
        var p := s.requests[id];
        State(if recorded then CompleteRows(s.rows, p.key, p.event, p.ok, message) else s.rows,
              s.requests[id := Finished(p.key, p.ok, recorded)])
  }

  function Run(s: State, events: seq<Event>): State
    decreases events
  {
    if events == [] then s else Run(Step(s, events[0]), events[1..])
  }

  const EMPTY := State(map[], map[])

  // ---------------------------------------------------------------- invariant

  /** Requests whose claim took effect. */
  predicate Claimed(p: Phase) {
    p.ClaimLost? || p.InProgress? || p.Sent? || p.Finished?
  }

  /** Requests between a successful claim and its completion. */
  predicate Busy(p: Phase) {
    p.InProgress? || p.Sent?
  }

  predicate ReportsSuccess(p: Phase) {
    (p.Sent? || p.Finished?) && p.ok
  }

  predicate Engaged(p: Phase) {
    Busy(p) || ReportsSuccess(p)
  }

  function Claimants(s: State, key: Key): set<nat> {
    set id | id in s.requests && s.requests[id].key == key && Claimed(s.requests[id])
  }

  ghost predicate AttemptsCounted(s: State) {
    && (forall key :: key in s.rows ==> s.rows[key].attempts == |Claimants(s, key)|)
    && (forall id :: id in s.requests && Claimed(s.requests[id]) ==> s.requests[id].key in s.rows)
  }

  /** Two requests for the same user's month. */
  predicate Peers(s: State, i: nat, j: nat) {
    i in s.requests && j in s.requests && s.requests[i].key == s.requests[j].key
  }

  predicate IsSending(s: State, key: Key) {
    key in s.rows && s.rows[key].status == Sending
  }

  /** The row is there and no claim can take it. */
  predicate IsTaken(s: State, key: Key) {
    key in s.rows && s.rows[key].status != Failed
  }

  ghost predicate OneSender(s: State) {
    && (forall i :: i in s.requests && Busy(s.requests[i]) ==> IsSending(s, s.requests[i].key))
    && (forall i, j :: Peers(s, i, j) && Busy(s.requests[i]) && Busy(s.requests[j]) ==> i == j)
  }

  ghost predicate OneSuccess(s: State) {
    && (forall i :: i in s.requests && ReportsSuccess(s.requests[i]) ==> IsTaken(s, s.requests[i].key))
    && (forall i, j :: Peers(s, i, j) && ReportsSuccess(s.requests[i]) && Engaged(s.requests[j]) ==> i == j)
  }

  ghost predicate DeliveredMeansRecorded(s: State) {
    forall key :: key in s.rows ==>
      (s.rows[key].status == Delivered <==> exists i :: RecordedSuccess(s, key, i))
  }

  predicate RecordedSuccess(s: State, key: Key, i: nat) {
    i in s.requests && s.requests[i] == Finished(key, true, true)
  }

  ghost predicate Safe(s: State) {
    AttemptsCounted(s) && OneSender(s) && OneSuccess(s) && DeliveredMeansRecorded(s)
  }

  /** The claim of this event takes effect. */
  predicate TakesEffect(s: State, e: Event) {
    e.Claim? && e.id !in s.requests && !e.fate.NotApplied? && Claimable(s.rows, e.key)
  }

  /** A step that does not make its request a claimant leaves the claimants of a month alone. */
  lemma SameClaimants(s: State, e: Event, key: Key)
    requires !(TakesEffect(s, e) && e.key == key)
    ensures Claimants(Step(s, e), key) == Claimants(s, key)
  {
    forall id
      ensures id in Claimants(Step(s, e), key) <==> id in Claimants(s, key)
    {
    }
  }

  lemma OneMoreClaimant(s: State, e: Event, key: Key)
    requires TakesEffect(s, e) && e.key == key
    ensures Claimants(Step(s, e), key) == Claimants(s, key) + {e.id} && e.id !in Claimants(s, key)
  {
  }

  lemma ClaimantsStep(s: State, e: Event, key: Key)
    ensures !(TakesEffect(s, e) && e.key == key) ==> Claimants(Step(s, e), key) == Claimants(s, key)
    ensures |Claimants(Step(s, e), key)|
         == |Claimants(s, key)| + if TakesEffect(s, e) && e.key == key then 1 else 0
  {
    if TakesEffect(s, e) && e.key == key {
      OneMoreClaimant(s, e, key);
    } else {
      SameClaimants(s, e, key);
    }
  }

  lemma AttemptsStep(s: State, e: Event)
    requires AttemptsCounted(s)
    ensures AttemptsCounted(Step(s, e))
  {
    var next := Step(s, e);
    forall key | key in next.rows
      ensures next.rows[key].attempts == |Claimants(next, key)|
    {
      AttemptsStepAt(s, e, key);
    }
  }

  lemma AttemptsStepAt(s: State, e: Event, key: Key)
    requires AttemptsCounted(s) && key in Step(s, e).rows
    ensures Step(s, e).rows[key].attempts == |Claimants(Step(s, e), key)|
  {
    ClaimantsStep(s, e, key);
    if key !in s.rows {
      assert Claimants(s, key) == {};
    }
  }

  /** A claim adds a request and leaves the others and, unless it takes effect, the rows. */
  lemma ClaimAdds(s: State, e: Event)
    requires e.Claim? && e.id !in s.requests
    ensures
      var next := Step(s, e);
      && next.requests.Keys == s.requests.Keys + {e.id}
      && (forall i :: i in s.requests ==> next.requests[i] == s.requests[i])
      && next.requests[e.id].key == e.key && !ReportsSuccess(next.requests[e.id])
      && (if TakesEffect(s, e)
          then IsSending(next, e.key) && forall key :: key in s.rows && key != e.key ==>
                 key in next.rows && next.rows[key] == s.rows[key]
          else !Busy(next.requests[e.id]) && next.rows == s.rows)
  {
  }

  /** A claim takes effect only where nobody sends or has sent. */
  lemma NobodySends(s: State, e: Event, i: nat)
    requires OneSender(s) && OneSuccess(s) && TakesEffect(s, e)
    requires i in s.requests && s.requests[i].key == e.key
    ensures !Busy(s.requests[i]) && !ReportsSuccess(s.requests[i])
  {
  }

  lemma ClaimKeepsOneSender(s: State, e: Event)
    requires OneSender(s) && OneSuccess(s) && e.Claim? && e.id !in s.requests
    ensures OneSender(Step(s, e))
  {
    ClaimAdds(s, e);
    if TakesEffect(s, e) {
      forall i | i in s.requests && s.requests[i].key == e.key
        ensures !Busy(s.requests[i])
      {
        NobodySends(s, e, i);
      }
    }
  }

  lemma ClaimKeepsOneSuccess(s: State, e: Event)
    requires OneSender(s) && OneSuccess(s) && e.Claim? && e.id !in s.requests
    ensures OneSuccess(Step(s, e))
  {
    ClaimAdds(s, e);
    if TakesEffect(s, e) {
      forall i | i in s.requests && s.requests[i].key == e.key
        ensures !ReportsSuccess(s.requests[i])
      {
        NobodySends(s, e, i);
      }
    }
  }

  /** The end of the notifier's call moves one busy request, and leaves it busy. */
  lemma NotifyMoves(s: State, e: Event)
    requires e.Notify? && e.id in s.requests && s.requests[e.id].InProgress?
    ensures
      var next := Step(s, e);
      && next.rows == s.rows && next.requests.Keys == s.requests.Keys
      && (forall i :: i in s.requests ==>
            && next.requests[i].key == s.requests[i].key
            && (Busy(next.requests[i]) <==> Busy(s.requests[i]))
            && (i != e.id ==> next.requests[i] == s.requests[i]))
  {
  }

  lemma NotifyKeepsOneSender(s: State, e: Event)
    requires OneSender(s) && e.Notify?
    ensures OneSender(Step(s, e))
  {
    if e.id in s.requests && s.requests[e.id].InProgress? {
      NotifyMoves(s, e);
      var next := Step(s, e);
      forall i, j | Peers(next, i, j) && Busy(next.requests[i]) && Busy(next.requests[j])
        ensures i == j
      {
        assert Peers(s, i, j);
      }
    }
  }

  lemma NotifyKeepsOneSuccess(s: State, e: Event)
    requires OneSender(s) && OneSuccess(s) && e.Notify?
    ensures OneSuccess(Step(s, e))
  {
    if e.id in s.requests && s.requests[e.id].InProgress? {
      NotifyMoves(s, e);
      var next := Step(s, e);
      forall i, j | Peers(next, i, j) && ReportsSuccess(next.requests[i]) && Engaged(next.requests[j])
        ensures i == j
      {
        assert Peers(s, i, j) && Peers(s, j, i);
      }
    }
  }

  /** A completion moves one busy request, which was the only one of its month. */
  lemma CompleteMoves(s: State, e: Event)
    requires OneSender(s) && OneSuccess(s) && e.Complete? && e.id in s.requests && s.requests[e.id].Sent?
    ensures
      var next, p := Step(s, e), s.requests[e.id];
      && next.requests.Keys == s.requests.Keys
      && (forall i :: i in s.requests ==>
            && next.requests[i].key == s.requests[i].key
            && (ReportsSuccess(next.requests[i]) <==> ReportsSuccess(s.requests[i]))
            && (i != e.id ==> next.requests[i] == s.requests[i])
            && (i != e.id && s.requests[i].key == p.key ==> !Engaged(s.requests[i])))
      && !Busy(next.requests[e.id])
      && (p.ok ==> IsTaken(next, p.key))
      && (forall key :: key in s.rows && key != p.key ==> key in next.rows && next.rows[key] == s.rows[key])
  {
    var p := s.requests[e.id];
    assert Peers(s, e.id, e.id);
    forall i | i in s.requests && i != e.id && s.requests[i].key == p.key
      ensures !Engaged(s.requests[i])
    {
      assert Peers(s, i, e.id);
    }
  }

  lemma CompleteKeepsOneSender(s: State, e: Event)
    requires OneSender(s) && OneSuccess(s) && e.Complete?
    ensures OneSender(Step(s, e))
  {
    if e.id in s.requests && s.requests[e.id].Sent? {
      CompleteMoves(s, e);
      var next := Step(s, e);
      forall i, j | Peers(next, i, j) && Busy(next.requests[i]) && Busy(next.requests[j])
        ensures i == j
      {
        assert Peers(s, i, j);
      }
    }
  }

  lemma CompleteKeepsOneSuccess(s: State, e: Event)
    requires OneSender(s) && OneSuccess(s) && e.Complete?
    ensures OneSuccess(Step(s, e))
  {
    if e.id in s.requests && s.requests[e.id].Sent? {
      CompleteMoves(s, e);
      var next := Step(s, e);
      forall i, j | Peers(next, i, j) && ReportsSuccess(next.requests[i]) && Engaged(next.requests[j])
        ensures i == j
      {
        assert Peers(s, i, j);
      }
    }
  }

  lemma RecordedStep(s: State, e: Event)
    requires Safe(s)
    ensures DeliveredMeansRecorded(Step(s, e))
  {
    var next := Step(s, e);
    forall key | key in next.rows
      ensures next.rows[key].status == Delivered <==> exists i :: RecordedSuccess(next, key, i)
    {
      var completes := e.Complete? && e.id in s.requests && s.requests[e.id].Sent?;
      assert forall i :: RecordedSuccess(s, key, i) ==> ReportsSuccess(s.requests[i]) && Peers(s, i, i);
      forall i | !completes || i != e.id
        ensures RecordedSuccess(next, key, i) <==> RecordedSuccess(s, key, i)
      {
      }
      if completes && key == s.requests[e.id].key {
        RecordedComplete(s, e, key);
      } else if completes {
        assert !RecordedSuccess(next, key, e.id) && !RecordedSuccess(s, key, e.id);
      }
    }
  }

  lemma RecordedComplete(s: State, e: Event, key: Key)
    requires Safe(s) && e.Complete? && e.id in s.requests && s.requests[e.id].Sent? && s.requests[e.id].key == key
    ensures key in Step(s, e).rows
    ensures Step(s, e).rows[key].status == Delivered <==> exists i :: RecordedSuccess(Step(s, e), key, i)
  {
    var next, p := Step(s, e), s.requests[e.id];
    assert Busy(p);
    assert s.rows[key].status == Sending;
    forall i | i != e.id
      ensures !RecordedSuccess(next, key, i)
    {
      assert RecordedSuccess(next, key, i) <==> RecordedSuccess(s, key, i);
    }
    assert RecordedSuccess(next, key, e.id) <==> p.ok && e.recorded;
  }

  lemma SafeStep(s: State, e: Event)
    requires Safe(s)
    ensures Safe(Step(s, e))
  {
    AttemptsStep(s, e);
    RecordedStep(s, e);
    match e {
      case Claim(id, _, _, _) =>
        if id !in s.requests {
          ClaimKeepsOneSender(s, e);
          ClaimKeepsOneSuccess(s, e);
        }
      case Notify(_, _) =>
        NotifyKeepsOneSender(s, e);
        NotifyKeepsOneSuccess(s, e);
      case Complete(_, _, _) =>
        CompleteKeepsOneSender(s, e);
        CompleteKeepsOneSuccess(s, e);
    }
  }

  lemma {:induction false} SafeRun(s: State, events: seq<Event>)
    requires Safe(s)
    ensures Safe(Run(s, events))
    decreases events
  {
    if events != [] {
      SafeStep(s, events[0]);
      SafeRun(Step(s, events[0]), events[1..]);
    }
  }

  // ------------------------------------------------------------- main results

  /** In every interleaving, with claims and completions lost at will: at most one send is
      in progress for a user's month, and at most one send ever reports success. */
  lemma AtMostOneSend(events: seq<Event>, i: nat, j: nat)
    requires
      var s := Run(EMPTY, events);
      && Peers(s, i, j)
      && (|| (Busy(s.requests[i]) && Busy(s.requests[j]))
          || (ReportsSuccess(s.requests[i]) && ReportsSuccess(s.requests[j])))
    ensures i == j
  {
    SafeRun(EMPTY, events);
  }

  /** `attempts` is the number of claims that took effect, and a row is delivered exactly
      when a successful send was recorded. */
  lemma RowTellsHistory(events: seq<Event>, key: Key)
    requires key in Run(EMPTY, events).rows
    ensures
      var s := Run(EMPTY, events);
      && s.rows[key].attempts == |Claimants(s, key)|
      && (s.rows[key].status == Delivered <==> exists i :: RecordedSuccess(s, key, i))
  {
    SafeRun(EMPTY, events);
  }

  /** A row changes only by a claim that finds it failed or by a busy request's completion. */
  lemma RowStays(s: State, e: Event, key: Key)
    requires IsTaken(s, key)
    requires forall id :: id in s.requests && s.requests[id].key == key ==> !Busy(s.requests[id])
    ensures key in Step(s, e).rows && Step(s, e).rows[key] == s.rows[key]
    ensures forall id :: id in Step(s, e).requests && Step(s, e).requests[id].key == key ==>
              !Busy(Step(s, e).requests[id])
  {
  }

  /** A taken row that nobody is busy with never changes again. */
  lemma {:induction false} RowStaysForever(s: State, events: seq<Event>, key: Key)
    requires IsTaken(s, key)
    requires forall id :: id in s.requests && s.requests[id].key == key ==> !Busy(s.requests[id])
    ensures key in Run(s, events).rows && Run(s, events).rows[key] == s.rows[key]
    decreases events
  {
    if events != [] {
      RowStays(s, events[0], key);
      RowStaysForever(Step(s, events[0]), events[1..], key);
    }
  }

  /** A delivered row never changes again. */
  lemma DeliveredIsAbsorbing(events: seq<Event>, more: seq<Event>, key: Key)
    requires
      var s := Run(EMPTY, events);
      key in s.rows && s.rows[key].status == Delivered
    ensures
      var s := Run(EMPTY, events);
      key in Run(s, more).rows && Run(s, more).rows[key] == s.rows[key]
  {
    var s := Run(EMPTY, events);
    SafeRun(EMPTY, events);
    RowStaysForever(s, more, key);
  }

  /** A lost answer is final: a row left in `sending` by a lost claim, or by a completion
      that was not recorded, admits no later claim. */
  lemma {:induction false} LostAnswerBlocksClaims(s: State, events: seq<Event>, key: Key)
    requires IsSending(s, key)
    requires forall id :: id in s.requests && s.requests[id].key == key ==> !Busy(s.requests[id])
    ensures IsSending(Run(s, events), key)
    ensures !Claimable(Run(s, events).rows, key)
    ensures Claimants(Run(s, events), key) == Claimants(s, key)
    decreases events
  {
    if events != [] {
      RowStays(s, events[0], key);
      ClaimantsStep(s, events[0], key);
      LostAnswerBlocksClaims(Step(s, events[0]), events[1..], key);
    }
  }

  // ------------------------------------------------------------ trying again

  /** The request's send failed, and that was recorded. */
  predicate Settled(p: Phase) {
    p.Finished? && !p.ok && p.recorded
  }

  predicate Unsettled(p: Phase) {
    Claimed(p) && !Settled(p)
  }

  ghost predicate AllSettled(s: State, key: Key) {
    forall i :: i in Claimants(s, key) ==> s.requests[i] == Finished(key, false, true)
  }

  /** A row has failed exactly when every claim of it has, on the record; and one claim at most
      has not. */
  ghost predicate FailuresTold(s: State) {
    && (forall key :: key in s.rows ==> (s.rows[key].status == Failed <==> AllSettled(s, key)))
    && (forall i, j :: Peers(s, i, j) && Unsettled(s.requests[i]) && Unsettled(s.requests[j]) ==> i == j)
  }

  lemma ClaimLeaves(s: State, e: Event, i: nat)
    requires e.Claim? && i in s.requests
    ensures i in Step(s, e).requests && Step(s, e).requests[i] == s.requests[i]
  {
  }

  lemma ClaimTellsFailures(s: State, e: Event, key: Key)
    requires Safe(s) && FailuresTold(s) && e.Claim? && key in Step(s, e).rows
    ensures Step(s, e).rows[key].status == Failed <==> AllSettled(Step(s, e), key)
  {
    var next := Step(s, e);
    if TakesEffect(s, e) && e.key == key {
      OneMoreClaimant(s, e, key);
      assert e.id in Claimants(next, key) && !next.requests[e.id].Finished?;
    } else {
      SameClaimants(s, e, key);
      assert key in s.rows && next.rows[key] == s.rows[key];
      forall i | i in Claimants(s, key)
        ensures i in next.requests && next.requests[i] == s.requests[i]
      {
        ClaimLeaves(s, e, i);
      }
    }
  }

  /** A claim that takes effect finds all claims before it settled. */
  lemma ClaimFindsSettled(s: State, e: Event, i: nat)
    requires Safe(s) && FailuresTold(s) && TakesEffect(s, e) && i in s.requests && s.requests[i].key == e.key
    ensures !Unsettled(s.requests[i])
  {
    if Claimed(s.requests[i]) {
      assert i in Claimants(s, e.key);
    }
  }

  lemma ClaimLeavesOneUnsettled(s: State, e: Event, i: nat, j: nat)
    requires Safe(s) && FailuresTold(s) && e.Claim? && Peers(Step(s, e), i, j)
    requires Unsettled(Step(s, e).requests[i]) && Unsettled(Step(s, e).requests[j])
    ensures i == j
  {
    if TakesEffect(s, e) {
      forall k | k in s.requests && s.requests[k].key == e.key
        ensures !Unsettled(s.requests[k])
      {
        ClaimFindsSettled(s, e, k);
      }
    }
    assert Peers(s, i, j) || i == e.id || j == e.id;
  }

  lemma NotifyTellsFailures(s: State, e: Event)
    requires FailuresTold(s) && e.Notify?
    ensures FailuresTold(Step(s, e))
  {
    var next := Step(s, e);
    forall key | key in next.rows
      ensures next.rows[key].status == Failed <==> AllSettled(next, key)
    {
      SameClaimants(s, e, key);
    }
    forall i, j | Peers(next, i, j) && Unsettled(next.requests[i]) && Unsettled(next.requests[j])
      ensures i == j
    {
      assert Peers(s, i, j);
    }
  }

  /** A completion leaves every other claimant of its month settled. */
  lemma CompleteTellsFailures(s: State, e: Event, key: Key)
    requires Safe(s) && FailuresTold(s) && e.Complete? && key in Step(s, e).rows
    ensures Step(s, e).rows[key].status == Failed <==> AllSettled(Step(s, e), key)
  {
    var next := Step(s, e);
    SameClaimants(s, e, key);
    if e.id in s.requests && s.requests[e.id].Sent? && s.requests[e.id].key == key {
      assert e.id in Claimants(s, key) && IsSending(s, key);
      forall i | i in Claimants(s, key) && i != e.id
        ensures next.requests[i] == Finished(key, false, true)
      {
        assert Peers(s, i, e.id) && !Unsettled(s.requests[i]);
      }
    }
  }

  lemma CompleteLeavesOneUnsettled(s: State, e: Event, i: nat, j: nat)
    requires FailuresTold(s) && e.Complete? && Peers(Step(s, e), i, j)
    requires Unsettled(Step(s, e).requests[i]) && Unsettled(Step(s, e).requests[j])
    ensures i == j
  {
    assert Peers(s, i, j);
  }

  lemma FailuresStep(s: State, e: Event)
    requires Safe(s) && FailuresTold(s)
    ensures FailuresTold(Step(s, e))
  {
    var next := Step(s, e);
    if e.Notify? {
      NotifyTellsFailures(s, e);
    } else {
      forall key | key in next.rows
        ensures next.rows[key].status == Failed <==> AllSettled(next, key)
      {
        if e.Claim? { ClaimTellsFailures(s, e, key); } else { CompleteTellsFailures(s, e, key); }
      }
      forall i, j | Peers(next, i, j) && Unsettled(next.requests[i]) && Unsettled(next.requests[j])
        ensures i == j
      {
        if e.Claim? { ClaimLeavesOneUnsettled(s, e, i, j); } else { CompleteLeavesOneUnsettled(s, e, i, j); }
      }
    }
  }

  lemma {:induction false} FailuresRun(s: State, events: seq<Event>)
    requires Safe(s) && FailuresTold(s)
    ensures FailuresTold(Run(s, events))
    decreases events
  {
    if events != [] {
      SafeStep(s, events[0]);
      FailuresStep(s, events[0]);
      FailuresRun(Step(s, events[0]), events[1..]);
    }
  }

  /** A row has failed exactly when every send of the month has, and each failure was recorded;
      and exactly then, or when there is no row yet, the next claim that is answered may send. */
  lemma FailedSendIsTriedAgain(events: seq<Event>, key: Key, id: nat, event: LimitEvent)
    requires id !in Run(EMPTY, events).requests
    ensures
      var s := Run(EMPTY, events);
      key in s.rows ==>
        (s.rows[key].status == Failed <==>
         forall i :: i in Claimants(s, key) ==> s.requests[i] == Finished(key, false, true))
    ensures
      var s := Run(EMPTY, events);
      Step(s, Claim(id, key, event, Answered)).requests[id]
      == if forall i :: i in Claimants(s, key) ==> s.requests[i] == Finished(key, false, true)
         then InProgress(key, event) else Refused(key)
  {
    SafeRun(EMPTY, events);
    FailuresRun(EMPTY, events);
    assert key !in Run(EMPTY, events).rows ==> Claimants(Run(EMPTY, events), key) == {};
    assert AllSettled(Run(EMPTY, events), key) <==>
      forall i :: i in Claimants(Run(EMPTY, events), key) ==>
        Run(EMPTY, events).requests[i] == Finished(key, false, true);
  }

  // ---------------------------------------------------------- the row in full

  /** What the history has put into a row: the first claim of it, the last one, and the message
      of the last recorded failure. */
  datatype Told = Told(first: LimitEvent, last: LimitEvent, message: string)

  /** The claim that this event makes of the month, if it takes effect. */
  predicate Claims(s: State, e: Event, key: Key) {
    TakesEffect(s, e) && e.key == key
  }

  /** This event records that the month's send has failed. */
  predicate RecordsFailure(s: State, e: Event, key: Key) {
    e.Complete? && e.recorded && e.id in s.requests && s.requests[e.id].Sent?
    && s.requests[e.id].key == key && !s.requests[e.id].ok
  }

  function ToldAfter(before: Option<Told>, s: State, e: Event, key: Key): Option<Told> {
    if Claims(s, e, key) then
      Some(if before.None? then Told(e.event, e.event, "") else before.value.(last := e.event))
    else if before.Some? && RecordsFailure(s, e, key) then Some(before.value.(message := e.message))
    else before
  }

  function History(events: seq<Event>, key: Key): Option<Told> {
    if events == [] then None
    else
      var n := |events| - 1;
      ToldAfter(History(events[..n], key), Run(EMPTY, events[..n]), events[n], key)
  }

  /** The row that such a history leaves, given its status and its number of claims. */
  function RowOf(told: Told, status: Status, attempts: nat): Row {
    Row(told.last.count, told.last.limit, status, attempts,
        if status == Failed then told.message else "", told.first.occurredAt,
        if status == Delivered then Some(told.last.occurredAt) else None)
  }

  /** The row is that, and who is busy with it works for the last claim. */
  ghost predicate RowTold(s: State, key: Key, told: Option<Told>) {
    && (key in s.rows <==> told.Some?)
    && (key in s.rows ==> s.rows[key] == RowOf(told.value, s.rows[key].status, s.rows[key].attempts))
    && (forall i :: i in s.requests && s.requests[i].key == key && Busy(s.requests[i]) ==>
          told.Some? && s.requests[i].event == told.value.last)
  }

  lemma RowToldClaim(s: State, e: Event, key: Key, told: Option<Told>)
    requires Safe(s) && RowTold(s, key, told) && e.Claim?
    ensures RowTold(Step(s, e), key, ToldAfter(told, s, e, key))
  {
    if Claims(s, e, key) {
      forall i | i in s.requests && s.requests[i].key == key
        ensures !Busy(s.requests[i])
      {
        NobodySends(s, e, i);
      }
    }
  }

  lemma RowToldComplete(s: State, e: Event, key: Key, told: Option<Told>)
    requires Safe(s) && RowTold(s, key, told) && e.Complete?
    ensures RowTold(Step(s, e), key, ToldAfter(told, s, e, key))
  {
    if e.id in s.requests && s.requests[e.id].Sent? && s.requests[e.id].key == key {
      CompleteMoves(s, e);
      assert Busy(s.requests[e.id]) && IsSending(s, key);
    }
  }

  lemma RowToldStep(s: State, e: Event, key: Key, told: Option<Told>)
    requires Safe(s) && RowTold(s, key, told)
    ensures RowTold(Step(s, e), key, ToldAfter(told, s, e, key))
  {
    match e {
      case Claim(_, _, _, _) => RowToldClaim(s, e, key, told);
      case Notify(_, _) =>
      case Complete(_, _, _) => RowToldComplete(s, e, key, told);
    }
  }

  lemma {:induction false} RunSnoc(s: State, events: seq<Event>)
    requires events != []
    ensures Run(s, events) == Step(Run(s, events[..|events| - 1]), events[|events| - 1])
    decreases events
  {
    var n := |events| - 1;
    if n > 0 {
      RunSnoc(Step(s, events[0]), events[1..]);
      assert events[1..][..n - 1] == events[..n][1..];
    }
  }

  lemma {:induction false} RowToldRun(events: seq<Event>, key: Key)
    ensures RowTold(Run(EMPTY, events), key, History(events, key))
    decreases |events|
  {
    if events != [] {
      var n := |events| - 1;
      RunSnoc(EMPTY, events);
      SafeRun(EMPTY, events[..n]);
      RowToldRun(events[..n], key);
      RowToldStep(Run(EMPTY, events[..n]), events[n], key, History(events[..n], key));
    }
  }

  /** Every column of a row: count and limit of the last claim that took effect, the time of the
      first, the number of them, the message of the last recorded failure while the row has
      failed, and as the time of delivery that of the last claim. */
  lemma RowIsItsHistory(events: seq<Event>, key: Key)
    requires key in Run(EMPTY, events).rows
    ensures
      var row, told := Run(EMPTY, events).rows[key], History(events, key);
      && told.Some?
      && row.count == told.value.last.count && row.limit == told.value.last.limit
      && row.occurredAt == told.value.first.occurredAt
      && row.attempts == |Claimants(Run(EMPTY, events), key)|
      && row.lastError == (if row.status == Failed then told.value.message else "")
      && row.deliveredAt == if row.status == Delivered then Some(told.value.last.occurredAt) else None
  {
    RowToldRun(events, key);
    SafeRun(EMPTY, events);
  }

  // ------------------------------------------------------------------- adapter

  /** The PostgreSQL adapter: each method is one statement. */
  class PostgresNotifications {
    var rows: map<Key, Row>

    constructor ()
      ensures rows == map[]
    {
      rows := map[];
    }

    /** `fate` is what becomes of the call: an error may come before or after the effect. */
    method ClaimMonthlyLimitNotification(key: Key, event: LimitEvent, fate: Fate) returns (r: Result<bool, string>)
      modifies this
      ensures r == if fate.Answered? then Ok(old(Claimable(rows, key))) else Err("database")
      ensures rows == if fate.NotApplied? then old(rows) else ClaimRows(old(rows), key, event)
    {
      if fate.NotApplied? {
        return Err("database");
      }
      var claimed := true;
      if key !in rows {
        rows := rows[key := Row(event.count, event.limit, Sending, 1, "", event.occurredAt, None)];
      } else if rows[key].status == Failed {
        var row := rows[key];
        rows := rows[key := Row(event.count, event.limit, Sending, row.attempts + 1, "", row.occurredAt,
                                row.deliveredAt)];
      } else {
        claimed := false;
      }
      if fate.ReplyLost? {
        return Err("database");
      }
      return Ok(claimed);
    }

    /** `recorded` tells whether the update takes effect; its error is ignored by the caller. */
    method CompleteMonthlyLimitNotification(key: Key, event: LimitEvent, notifyError: Option<string>, recorded: bool)
      modifies this
      ensures rows == if recorded
                      then CompleteRows(old(rows), key, event, notifyError.None?, MessageOf(notifyError))
                      else old(rows)
    {
      var status, lastError, deliveredAt := Delivered, "", Some(event.occurredAt);
      if notifyError.Some? {
        status, lastError, deliveredAt := Failed, notifyError.value, None;
      }
      if recorded && key in rows {
        rows := rows[key := rows[key].(status := status, lastError := lastError, deliveredAt := deliveredAt)];
      }
    }
  }

  function MessageOf(error: Option<string>): string {
    if error.Some? then error.value else ""
  }
}
