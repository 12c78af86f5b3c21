/** The SQLite adapter claims a notification with two statements, INSERT OR IGNORE and then
    UPDATE ... WHERE status = 'failed'.  Steps of other requests may fall between the two.
    This module shows that it still refines the one-statement PostgreSQL claim. */
module SqliteClaim {
  import opened Wrappers
  import opened LimitNotification

  /** `between` holds the requests that are between their two statements. */
  datatype Pending = Pending(key: Key, event: LimitEvent)

  datatype TwoStepState = TwoStepState(
    rows: map<Key, Row>, requests: map<nat, Phase>, between: map<nat, Pending>)

  datatype TwoStepEvent =
    | Insert(id: nat, key: Key, event: LimitEvent, fate: Fate)
    | Update(id: nat, fate: Fate)
    | Other(step: Event)             // a notifier's return or a completion

  // --------------------------------------------------------------- statements

  function InsertOrIgnore(rows: map<Key, Row>, key: Key, event: LimitEvent): map<Key, Row> {
    if key in rows then rows
    else rows[key := Row(event.count, event.limit, Sending, 1, "", event.occurredAt, None)]
  }

  function UpdateFailed(rows: map<Key, Row>, key: Key, event: LimitEvent): map<Key, Row> {
    if key in rows && rows[key].status == Failed then
      rows[key := rows[key].(count := event.count, limit := event.limit, status := Sending,
                             attempts := rows[key].attempts + 1, lastError := "")]
    else rows
  }

  // ----------------------------------------------------------------- protocol

  function TwoStep(s: TwoStepState, e: TwoStepEvent): TwoStepState {
    match e
    case Insert(id, key, event, fate) =>
      if id in s.requests || id in s.between then s
      else if fate.NotApplied? then s.(requests := s.requests[id := ClaimError(key)])
      else
        var t := s.(rows := InsertOrIgnore(s.rows, key, event));
        if key !in s.rows then
          t.(requests := s.requests[id := if fate.Answered? then InProgress(key, event) else ClaimLost(key)])
        else if fate.ReplyLost? then t.(requests := s.requests[id := ClaimError(key)])
        else t.(between := s.between[id := Pending(key, event)])
    case Update(id, fate) =>
      if id !in s.between then s
      else
        var p := s.between[id];
        var t := s.(between := s.between - {id});
        if fate.NotApplied? then t.(requests := s.requests[id := ClaimError(p.key)])
        else
          var affected := p.key in s.rows && s.rows[p.key].status == Failed;
          t.(rows := UpdateFailed(s.rows, p.key, p.event),
             requests := s.requests[id :=
               if affected then (if fate.Answered? then InProgress(p.key, p.event) else ClaimLost(p.key))
               else (if fate.Answered? then Refused(p.key) else ClaimError(p.key))])
    case Other(step) =>
      if step.Claim? then s
      else
        var t := Step(State(s.rows, s.requests), step);
        s.(rows := t.rows, requests := t.requests)
  }

  function TwoStepRun(s: TwoStepState, events: seq<TwoStepEvent>): TwoStepState
    decreases events
  {
    if events == [] then s else TwoStepRun(TwoStep(s, events[0]), events[1..])
  }

  // --------------------------------------------------------------- refinement

  /** The atomic machine that a two-statement state stands for: the same rows and the same
      answers; a request between its statements has not claimed yet. */
  function Abstract(s: TwoStepState): State {
    State(s.rows, s.requests)
  }

  /** The atomic step, if any, that a statement stands for.  It carries the request's own id,
      so every claim is linearised at one of its own statements: the insert if that settles
      it, the update otherwise. */
  function Linearise(s: TwoStepState, e: TwoStepEvent): seq<Event> {
    match e
    case Insert(id, key, event, fate) =>
      if id in s.requests || id in s.between then []
      else if key !in s.rows || fate.NotApplied? then [Claim(id, key, event, fate)]
      else if fate.ReplyLost? then [Claim(id, key, event, NotApplied)]
      else []
    case Update(id, fate) =>
      if id !in s.between then [] else [Claim(id, s.between[id].key, s.between[id].event, fate)]
    case Other(step) => if step.Claim? then [] else [step]
  }

  function LineariseRun(s: TwoStepState, events: seq<TwoStepEvent>): seq<Event>
    decreases events
  {
    if events == [] then [] else Linearise(s, events[0]) + LineariseRun(TwoStep(s, events[0]), events[1..])
  }

  /** Rows are never deleted, so a request between its statements finds its row. */
  ghost predicate Linked(s: TwoStepState) {
    forall id :: id in s.between ==> id !in s.requests && s.between[id].key in s.rows
  }

  lemma LinkedStep(s: TwoStepState, e: TwoStepEvent)
    requires Linked(s)
    ensures Linked(TwoStep(s, e))
  {
  }

  lemma RefinesStep(s: TwoStepState, e: TwoStepEvent)
    requires Linked(s)
    ensures Abstract(TwoStep(s, e)) == Run(Abstract(s), Linearise(s, e))
  {
    var events := Linearise(s, e);
    if events != [] {
      assert events[1..] == [];
      assert Run(Abstract(s), events) == Step(Abstract(s), events[0]);
    }
  }

  lemma {:induction false} RunConcat(s: State, a: seq<Event>, b: seq<Event>)
    ensures Run(s, a + b) == Run(Run(s, a), b)
    decreases a
  {
    if a == [] {
      assert a + b == b;
    } else {
      assert (a + b)[1..] == a[1..] + b;
      RunConcat(Step(s, a[0]), a[1..], b);
    }
  }

  /** Every run of the two-statement adapter, with any steps between the statements, has the
      rows and the answers of the atomic run that linearises it. */
  lemma {:induction false} TwoStatementsRefineOne(s: TwoStepState, events: seq<TwoStepEvent>)
    requires Linked(s)
    ensures Linked(TwoStepRun(s, events))
    ensures Abstract(TwoStepRun(s, events)) == Run(Abstract(s), LineariseRun(s, events))
    decreases events
  {
    if events != [] {
      var e, next := events[0], TwoStep(s, events[0]);
      LinkedStep(s, e);
      RefinesStep(s, e);
      TwoStatementsRefineOne(next, events[1..]);
      RunConcat(Abstract(s), Linearise(s, e), LineariseRun(next, events[1..]));
    }
  }

  /** How many claims of a run are made by request `id`. */
  function ClaimsOf(events: seq<Event>, id: nat): nat {
    if events == [] then 0
    else (if events[0].Claim? && events[0].id == id then 1 else 0) + ClaimsOf(events[1..], id)
  }

  lemma {:induction false} ClaimsOfConcat(a: seq<Event>, b: seq<Event>, id: nat)
    ensures ClaimsOf(a + b, id) == ClaimsOf(a, id) + ClaimsOf(b, id)
  {
    if a == [] {
      assert a + b == b;
    } else {
      assert (a + b)[1..] == a[1..] + b;
      ClaimsOfConcat(a[1..], b, id);
    }
  }

  /** A request's claim is in the very step that answers it. */
  lemma ClaimsOfStep(s: TwoStepState, e: TwoStepEvent, id: nat)
    requires Linked(s)
    ensures id in s.requests ==> ClaimsOf(Linearise(s, e), id) == 0 && id in TwoStep(s, e).requests
    ensures id !in s.requests ==> ClaimsOf(Linearise(s, e), id) == if id in TwoStep(s, e).requests then 1 else 0
  {
    var events := Linearise(s, e);
    if events != [] {
      assert events[1..] == [];
    }
  }

  /** Each request is linearised exactly once by the time it has an answer, and not before. */
  lemma {:induction false} LinearisedOnce(s: TwoStepState, events: seq<TwoStepEvent>, id: nat)
    requires Linked(s) && id !in s.requests
    ensures ClaimsOf(LineariseRun(s, events), id) == if id in TwoStepRun(s, events).requests then 1 else 0
    decreases events
  {
    if events != [] {
      var e, next := events[0], TwoStep(s, events[0]);
      LinkedStep(s, e);
      ClaimsOfStep(s, e, id);
      ClaimsOfConcat(Linearise(s, e), LineariseRun(next, events[1..]), id);
      if id in next.requests {
        AnsweredStaysSilent(next, events[1..], id);
      } else {
        LinearisedOnce(next, events[1..], id);
      }
    }
  }

  lemma {:induction false} AnsweredStaysSilent(s: TwoStepState, events: seq<TwoStepEvent>, id: nat)
    requires Linked(s) && id in s.requests
    ensures ClaimsOf(LineariseRun(s, events), id) == 0
    ensures id in TwoStepRun(s, events).requests
    decreases events
  {
    if events != [] {
      var e, next := events[0], TwoStep(s, events[0]);
      LinkedStep(s, e);
      ClaimsOfStep(s, e, id);
      ClaimsOfConcat(Linearise(s, e), LineariseRun(next, events[1..]), id);
      AnsweredStaysSilent(next, events[1..], id);
    }
  }

  /** What the refinement is for: the guarantees of the atomic protocol hold of SQLite. */
  lemma SqliteSendsAtMostOnce(events: seq<TwoStepEvent>, i: nat, j: nat)
    requires
      var s := Abstract(TwoStepRun(TwoStepState(map[], map[], map[]), events));
      && Peers(s, i, j)
      && (|| (Busy(s.requests[i]) && Busy(s.requests[j]))
          || (ReportsSuccess(s.requests[i]) && ReportsSuccess(s.requests[j])))
    ensures i == j
  {
    var s := TwoStepState(map[], map[], map[]);
    TwoStatementsRefineOne(s, events);
    AtMostOneSend(LineariseRun(s, events), i, j);
  }

  /** And so does the next try: if every send of the month so far has failed on the record, and
      only then, the two statements of the next request make the claim. */
  lemma SqliteFailedSendIsTriedAgain(events: seq<TwoStepEvent>, key: Key, id: nat, event: LimitEvent)
    requires
      var s := TwoStepRun(TwoStepState(map[], map[], map[]), events);
      id !in s.requests && id !in s.between
    ensures
      var s := TwoStepRun(TwoStepState(map[], map[], map[]), events);
      var next := TwoStep(TwoStep(s, Insert(id, key, event, Answered)), Update(id, Answered));
      next.requests[id]
      == if forall i :: i in Claimants(Abstract(s), key) ==> s.requests[i] == Finished(key, false, true)
         then InProgress(key, event) else Refused(key)
  {
    var s := TwoStepState(map[], map[], map[]);
    TwoStatementsRefineOne(s, events);
    FailedSendIsTriedAgain(LineariseRun(s, events), key, id, event);
  }

  // ------------------------------------------------------------------ adapter

  class SqliteNotifications {
    var rows: map<Key, Row>

    method ExecInsertOrIgnore(key: Key, event: LimitEvent) returns (affected: nat)
      modifies this
      ensures rows == InsertOrIgnore(old(rows), key, event)
      ensures affected == if key in old(rows) then 0 else 1
    {
      if key in rows {
        return 0;
      }
      rows := rows[key := Row(event.count, event.limit, Sending, 1, "", event.occurredAt, None)];
      return 1;
    }

    method ExecUpdateFailed(key: Key, event: LimitEvent) returns (affected: nat)
      modifies this
      ensures rows == UpdateFailed(old(rows), key, event)
      ensures affected == if key in old(rows) && old(rows)[key].status == Failed then 1 else 0
    {
      if key !in rows || rows[key].status != Failed {
        return 0;
      }
      var row := rows[key];
      rows := rows[key := Row(event.count, event.limit, Sending, row.attempts + 1, "", row.occurredAt,
                              row.deliveredAt)];
      return 1;
    }

    /** Undisturbed, the two statements are the PostgreSQL claim. */
    method ClaimMonthlyLimitNotification(key: Key, event: LimitEvent) returns (claimed: bool)
      modifies this
      ensures claimed == old(Claimable(rows, key))
      ensures rows == ClaimRows(old(rows), key, event)
    {
      var affected := ExecInsertOrIgnore(key, event);
      if affected == 1 {
        return true;
      }
      affected := ExecUpdateFailed(key, event);
      return affected == 1;
    }
  }
}
