/** The cache of import previews.  PreviewImport stores the parsed rows for 30 minutes and
    drops expired entries; CommitImport takes an entry out under the lock and looks at the
    clock after it, so other calls may come in between.  Times are nanoseconds. */
module PreviewCache {
  import opened Wrappers

  const LIFETIME: int := 1_800_000_000_000

  datatype Cached = Cached(user: int, rows: seq<string>, expires: int)

  type Previews = map<string, Cached>

  datatype Event =
    | Preview(id: string, user: int, rows: seq<string>, purgeAt: int, createdAt: int)  // two clock readings
    | Take(call: nat, id: string, user: int)    // CommitImport under the lock
    | Check(call: nat, now: int)                // its clock reading, and the answer

  datatype State = State(
    previews: Previews,
    taken: map<nat, Option<Cached>>,            // calls between lock and clock
    answers: map<nat, Option<seq<string>>>)     // the rows handed to the import, or an error

  // ------------------------------------------------------------------ one step

  function Purge(previews: Previews, now: int): Previews {
    map id | id in previews && !(now > previews[id].expires) :: previews[id]
  }

  predicate Owned(previews: Previews, id: string, user: int) {
    id in previews && previews[id].user == user
  }

  function Judge(entry: Option<Cached>, now: int): Option<seq<string>> {
    if entry.None? || now > entry.value.expires then None else Some(entry.value.rows)
  }

  function Step(s: State, e: Event, purges: bool): State {
    match e
    case Preview(id, user, rows, purgeAt, createdAt) =>
      var kept := if purges then Purge(s.previews, purgeAt) else s.previews;
      s.(previews := kept[id := Cached(user, rows, createdAt + LIFETIME)])
    case Take(call, id, user) =>
      if call in s.taken || call in s.answers then s
      else if Owned(s.previews, id, user) then
        s.(previews := s.previews - {id}, taken := s.taken[call := Some(s.previews[id])])
      else s.(taken := s.taken[call := None])
    case Check(call, now) =>
      if call !in s.taken then s
      else s.(taken := s.taken - {call}, answers := s.answers[call := Judge(s.taken[call], now)])
  }

  function After(history: seq<Event>, purges: bool): State {
    if history == [] then State(map[], map[], map[])
    else Step(After(history[..|history| - 1], purges), history[|history| - 1], purges)
  }

  /** The clock does not go back: each reading is at least the one before, and `now` the last. */
  predicate Monotone(history: seq<Event>, now: int) {
    if history == [] then true
    else
      var e, before := history[|history| - 1], history[..|history| - 1];
      match e
      case Preview(_, _, _, purgeAt, createdAt) => purgeAt <= createdAt <= now && Monotone(before, purgeAt)
      case Take(_, _, _) => Monotone(before, now)
      case Check(_, at) => at <= now && Monotone(before, at)
  }

  // ------------------------------------------------------- purging is invisible

  ghost predicate SameOrExpired(a: Option<Cached>, b: Option<Cached>, now: int) {
    a == b || (a.None? && b.Some? && b.value.expires < now)
  }

  function Lookup(previews: Previews, id: string): Option<Cached> {
    if id in previews then Some(previews[id]) else None
  }

  /** The purging cache answers like the other one and lacks only what has expired. */
  ghost predicate Simulates(a: State, b: State, now: int) {
    && a.answers == b.answers && a.taken.Keys == b.taken.Keys
    && (forall id :: SameOrExpired(Lookup(a.previews, id), Lookup(b.previews, id), now))
    && (forall call :: call in a.taken ==> SameOrExpired(a.taken[call], b.taken[call], now))
  }

  lemma SimulatesLater(a: State, b: State, now: int, later: int)
    requires Simulates(a, b, now) && now <= later
    ensures Simulates(a, b, later)
  {
  }

  lemma SimulatesStep(a: State, b: State, e: Event, now: int, later: int)
    requires Simulates(a, b, now) && now <= later
    requires e.Preview? ==> now <= e.purgeAt <= later
    requires e.Check? ==> now <= e.now <= later
    ensures Simulates(Step(a, e, true), Step(b, e, false), later)
  {
    SimulatesLater(a, b, now, later);
    match e {
      case Preview(id, _, _, purgeAt, _) =>
        forall other
          ensures SameOrExpired(Lookup(Step(a, e, true).previews, other),
                                Lookup(Step(b, e, false).previews, other), later)
        {
          assert SameOrExpired(Lookup(a.previews, other), Lookup(b.previews, other), later);
        }
      case Take(call, id, user) =>
        TakeSimulates(a, b, e, later);
      case Check(call, at) =>
        if call in a.taken {
          SimulatesLater(a, b, now, at);
          assert SameOrExpired(a.taken[call], b.taken[call], at);
        }
    }
  }

  lemma TakeSimulates(a: State, b: State, e: Event, now: int)
    requires Simulates(a, b, now) && e.Take?
    ensures Simulates(Step(a, e, true), Step(b, e, false), now)
  {
    var x, y := Step(a, e, true), Step(b, e, false);
    assert SameOrExpired(Lookup(a.previews, e.id), Lookup(b.previews, e.id), now);
    forall other
      ensures SameOrExpired(Lookup(x.previews, other), Lookup(y.previews, other), now)
    {
      assert SameOrExpired(Lookup(a.previews, other), Lookup(b.previews, other), now);
    }
  }

  lemma {:induction false} RunsSimulate(history: seq<Event>, now: int)
    requires Monotone(history, now)
    ensures Simulates(After(history, true), After(history, false), now)
    decreases |history|
  {
    if history != [] {
      var n := |history| - 1;
      var e := history[n];
      var earlier := match e
                     case Preview(_, _, _, purgeAt, _) => purgeAt
                     case Take(_, _, _) => now
                     case Check(_, at) => at;
      RunsSimulate(history[..n], earlier);
      SimulatesStep(After(history[..n], true), After(history[..n], false), e, earlier, now);
    }
  }

  /** Under a clock that never goes back, the cache that purges gives every commit the answer
      of one that never does. */
  lemma PurgingIsInvisible(history: seq<Event>, now: int)
    requires Monotone(history, now)
    ensures After(history, true).answers == After(history, false).answers
  {
    RunsSimulate(history, now);
  }

  // --------------------------------------------------- what a commit depends on

  /** The preview at k is still there after the history: its id was not previewed again, and
      its owner did not take it. */
  predicate Untaken(history: seq<Event>, k: nat) {
    && k < |history| && history[k].Preview?
    && forall m :: k < m < |history| ==> !Displaces(history[m], history[k])
  }

  predicate Displaces(e: Event, preview: Event)
    requires preview.Preview?
  {
    || (e.Preview? && e.id == preview.id)
    || (e.Take? && e.id == preview.id && e.user == preview.user)
  }

  /** Every call takes once and checks once, and takes first. */
  ghost predicate OneShot(history: seq<Event>) {
    && (forall i, j :: 0 <= i < j < |history| && history[i].Take? && history[j].Take? ==>
          history[i].call != history[j].call)
    && (forall i, j :: 0 <= i < j < |history| && history[i].Check? && history[j].Check? ==>
          history[i].call != history[j].call)
    && (forall i, j :: 0 <= i < j < |history| && history[i].Check? && history[j].Take? ==>
          history[i].call != history[j].call)
  }

  function EntryOf(e: Event): Cached
    requires e.Preview?
  {
    Cached(e.user, e.rows, e.createdAt + LIFETIME)
  }

  ghost predicate CacheIsHistory(history: seq<Event>, previews: Previews) {
    && (forall k: nat :: Untaken(history, k) ==> Lookup(previews, history[k].id) == Some(EntryOf(history[k])))
    && (forall id :: id in previews ==> exists k: nat :: Untaken(history, k) && history[k].id == id)
  }

  ghost predicate WasTaken(history: seq<Event>, call: nat) {
    exists j :: 0 <= j < |history| && history[j].Take? && history[j].call == call
  }

  /** Calls under way or answered have taken something. */
  ghost predicate CallsTook(history: seq<Event>, s: State) {
    forall call :: call in s.taken || call in s.answers ==> WasTaken(history, call)
  }

  lemma UntakenStep(history: seq<Event>, k: nat)
    requires history != [] && k < |history| - 1
    ensures
      var n := |history| - 1;
      Untaken(history, k) <==> Untaken(history[..n], k) && !Displaces(history[n], history[k])
  {
    var n := |history| - 1;
    assert forall m :: 0 <= m < n ==> history[..n][m] == history[m];
  }

  lemma {:induction false} CacheFollowsHistory(history: seq<Event>)
    requires OneShot(history)
    ensures CacheIsHistory(history, After(history, false).previews)
    ensures CallsTook(history, After(history, false))
    decreases |history|
  {
    if history != [] {
      var n := |history| - 1;
      CacheFollowsHistory(history[..n]);
      CallsTookStep(history, After(history[..n], false));
      CacheStep(history, After(history[..n], false));
    }
  }

  lemma CallsTookStep(history: seq<Event>, before: State)
    requires history != [] && CallsTook(history[..|history| - 1], before)
    ensures CallsTook(history, Step(before, history[|history| - 1], false))
  {
    var n := |history| - 1;
    var after := Step(before, history[n], false);
    forall call | call in after.taken || call in after.answers
      ensures WasTaken(history, call)
    {
      if call in before.taken || call in before.answers {
        assert WasTaken(history[..n], call);
        var j :| 0 <= j < |history[..n]| && history[..n][j].Take? && history[..n][j].call == call;
        assert history[j].Take? && history[j].call == call;
      } else {
        assert history[n].Take? && history[n].call == call;
      }
    }
  }

  /** A new take is never a repeated call. */
  lemma NewCall(history: seq<Event>, before: State)
    requires history != [] && OneShot(history) && CallsTook(history[..|history| - 1], before)
    requires history[|history| - 1].Take?
    ensures history[|history| - 1].call !in before.taken && history[|history| - 1].call !in before.answers
  {
    var n := |history| - 1;
    assert !WasTaken(history[..n], history[n].call) by {
      assert forall j :: 0 <= j < n ==> history[..n][j] == history[j];
    }
  }

  lemma CacheStep(history: seq<Event>, before: State)
    requires history != [] && OneShot(history)
    requires CacheIsHistory(history[..|history| - 1], before.previews) && CallsTook(history[..|history| - 1], before)
    ensures CacheIsHistory(history, Step(before, history[|history| - 1], false).previews)
  {
    var n := |history| - 1;
    if history[n].Take? { NewCall(history, before); }
    var previews := Step(before, history[n], false).previews;
    forall k: nat | Untaken(history, k)
      ensures Lookup(previews, history[k].id) == Some(EntryOf(history[k]))
    {
      if k < n { UntakenStep(history, k); }
    }
    forall id | id in previews
      ensures exists k: nat :: Untaken(history, k) && history[k].id == id
    {
      if history[n].Preview? && history[n].id == id {
        assert Untaken(history, n);
      } else {
        StillThere(history, before, id);
      }
    }
  }

  lemma StillThere(history: seq<Event>, before: State, id: string)
    requires history != [] && CacheIsHistory(history[..|history| - 1], before.previews)
    requires id in before.previews && id in Step(before, history[|history| - 1], false).previews
    requires history[|history| - 1].Preview? ==> history[|history| - 1].id != id
    requires history[|history| - 1].Take? ==>
               history[|history| - 1].call !in before.taken && history[|history| - 1].call !in before.answers
    ensures exists k: nat :: Untaken(history, k) && history[k].id == id
  {
    var n := |history| - 1;
    var k: nat :| Untaken(history[..n], k) && history[..n][k].id == id;
    assert Lookup(before.previews, history[..n][k].id) == Some(EntryOf(history[..n][k]));
    UntakenStep(history, k);
  }

  /** The commit whose take is event j succeeds with the preview of event k: the same id and
      owner, not taken or replaced before. */
  predicate TakesPreview(history: seq<Event>, k: nat, j: nat) {
    && j < |history| && history[j].Take? && Untaken(history[..j], k)
    && history[k].id == history[j].id && history[k].user == history[j].user
  }

  /** What the take at event j finds in the cache that never purges. */
  function Found(history: seq<Event>, j: nat): Option<Cached>
    requires j < |history| && history[j].Take?
  {
    var entry := Lookup(After(history[..j], false).previews, history[j].id);
    if entry.Some? && entry.value.user == history[j].user then entry else None
  }

  lemma FoundIsHistory(history: seq<Event>, j: nat)
    requires OneShot(history) && j < |history| && history[j].Take?
    ensures forall k: nat :: TakesPreview(history, k, j) ==> Found(history, j) == Some(EntryOf(history[k]))
    ensures Found(history, j).Some? ==> exists k: nat :: TakesPreview(history, k, j)
  {
    var before := history[..j];
    CacheFollowsHistory(before);
    assert forall k :: 0 <= k < j ==> before[k] == history[k];
    if Found(history, j).Some? {
      var k: nat :| Untaken(before, k) && before[k].id == history[j].id;
      assert Lookup(After(before, false).previews, before[k].id) == Some(EntryOf(before[k]));
      assert TakesPreview(history, k, j);
    }
  }

  /** What a call has taken stays as it is until its own check. */
  lemma {:induction false} TakenUntilChecked(history: seq<Event>, j: nat)
    requires OneShot(history) && j < |history| && history[j].Take?
    requires forall i :: 0 <= i < |history| && history[i].Check? ==> history[i].call != history[j].call
    ensures
      var s := After(history, false);
      history[j].call in s.taken && history[j].call !in s.answers && s.taken[history[j].call] == Found(history, j)
    decreases |history|
  {
    var n := |history| - 1;
    if j == n {
      CacheFollowsHistory(history[..n]);
      NewCall(history, After(history[..n], false));
    } else {
      assert history[..n][..j] == history[..j] && history[..n][j] == history[j];
      TakenUntilChecked(history[..n], j);
    }
  }

  lemma AnswerJudgesFound(history: seq<Event>, j: nat)
    requires OneShot(history) && history != [] && j < |history| - 1 && history[j].Take?
    requires history[|history| - 1].Check? && history[j].call == history[|history| - 1].call
    ensures
      var call, answers := history[j].call, After(history, false).answers;
      call in answers && answers[call] == Judge(Found(history, j), history[|history| - 1].now)
  {
    var n := |history| - 1;
    assert history[..n][..j] == history[..j] && history[..n][j] == history[j];
    TakenUntilChecked(history[..n], j);
  }

  /** A commit succeeds exactly when its id was previewed by the same user, nobody previewed
      the id again and the owner did not take it in between, and the clock shows at most 30
      minutes, inclusive, since the preview; and then it imports that preview's rows. */
  lemma CommitFollowsHistory(history: seq<Event>, j: nat, rows: seq<string>)
    requires OneShot(history) && j < |history| - 1 && history[j].Take? && history[|history| - 1].Check?
    requires history[j].call == history[|history| - 1].call && Monotone(history, history[|history| - 1].now)
    ensures
      var call, now := history[j].call, history[|history| - 1].now;
      var answers := After(history, true).answers;
      && call in answers
      && (answers[call] == Some(rows) <==>
            exists k: nat ::
              TakesPreview(history, k, j) && now <= history[k].createdAt + 1_800_000_000_000 && history[k].rows == rows)
  {
    PurgingIsInvisible(history, history[|history| - 1].now);
    AnswerJudgesFound(history, j);
    FoundIsHistory(history, j);
  }

  /** No two calls take the same preview. */
  lemma OneTakePerPreview(history: seq<Event>, k: nat, j1: nat, j2: nat)
    requires TakesPreview(history, k, j1) && TakesPreview(history, k, j2)
    ensures j1 == j2
  {
  }

  /** A call that is answered with rows has found a preview. */
  lemma {:induction false} AnsweredFound(history: seq<Event>, j: nat)
    requires OneShot(history) && j < |history| && history[j].Take?
    requires
      var call, answers := history[j].call, After(history, false).answers;
      call in answers && answers[call].Some?
    ensures Found(history, j).Some?
    decreases |history|
  {
    var n := |history| - 1;
    if history[n].Check? && history[n].call == history[j].call {
      AnswerJudgesFound(history, j);
    } else if j == n {
      CacheFollowsHistory(history[..n]);
      NewCall(history, After(history[..n], false));
    } else {
      assert history[..n][..j] == history[..j] && history[..n][j] == history[j];
      AnsweredFound(history[..n], j);
    }
  }

  /** Every preview has an id of its own. */
  ghost predicate FreshIds(history: seq<Event>) {
    forall i, j :: 0 <= i < j < |history| && history[i].Preview? && history[j].Preview? ==>
      history[i].id != history[j].id
  }

  /** With fresh ids each id is committed at most once, over all calls and users: two calls
      that the purging cache has answered with rows for one id are the same call. */
  lemma EachPreviewCommitsOnce(history: seq<Event>, now: int, j1: nat, j2: nat)
    requires OneShot(history) && FreshIds(history) && Monotone(history, now)
    requires j1 < |history| && j2 < |history| && history[j1].Take? && history[j2].Take?
    requires history[j1].id == history[j2].id
    requires
      var answers := After(history, true).answers;
      && history[j1].call in answers && answers[history[j1].call].Some?
      && history[j2].call in answers && answers[history[j2].call].Some?
    ensures history[j1].call == history[j2].call
  {
    PurgingIsInvisible(history, now);
    AnsweredFound(history, j1);
    AnsweredFound(history, j2);
    FoundIsHistory(history, j1);
    FoundIsHistory(history, j2);
    var k1: nat :| TakesPreview(history, k1, j1);
    var k2: nat :| TakesPreview(history, k2, j2);
    assert k1 == k2 by {
      assert history[k1].Preview? && history[k2].Preview? && history[k1].id == history[k2].id;
    }
    OneTakePerPreview(history, k1, j1, j2);
  }

  /** Another user's attempt changes nothing in the cache. */
  lemma ForeignTakeChangesNothing(s: State, call: nat, id: string, user: int, now: int, purges: bool)
    requires id in s.previews && s.previews[id].user != user && call !in s.taken && call !in s.answers
    ensures
      var next := Step(Step(s, Take(call, id, user), purges), Check(call, now), purges);
      next.previews == s.previews && next.taken == s.taken && next.answers == s.answers[call := None]
  {
  }

  // ------------------------------------------------------------------ the cache

  class Application {
    var previews: Previews

    constructor ()
      ensures previews == map[]
    {
      previews := map[];
    }

    method CleanupPreviews(now: int)
      modifies this
      ensures previews == Purge(old(previews), now)
    {
      var rest := previews.Keys;
      while rest != {}
        invariant rest <= old(previews).Keys
        invariant forall id :: id in previews <==>
                    id in old(previews) && (id in rest || !(now > old(previews)[id].expires))
        invariant forall id :: id in previews ==> previews[id] == old(previews)[id]
        decreases rest
      {
        var id :| id in rest;
        rest := rest - {id};
        if now > previews[id].expires {
          previews := previews - {id};
        }
      }
    }

    /** The cached part of PreviewImport, under the lock. */
    method StorePreview(id: string, user: int, rows: seq<string>, purgeAt: int, createdAt: int)
      modifies this
      ensures forall taken, answers :: State(previews, taken, answers)
                == Step(State(old(previews), taken, answers), Preview(id, user, rows, purgeAt, createdAt), true)
    {
      CleanupPreviews(purgeAt);
      previews := previews[id := Cached(user, rows, createdAt + LIFETIME)];
    }

    /** CommitImport, undisturbed between lock and clock. */
    method CommitImport(id: string, user: int, now: int) returns (rows: Option<seq<string>>)
      modifies this
      ensures
        var s := Step(Step(State(old(previews), map[], map[]), Take(0, id, user), true), Check(0, now), true);
        previews == s.previews && rows == s.answers[0]
    {
      var ok := id in previews;
      var cached := Cached(0, [], 0);
      if ok {
        cached := previews[id];
        ok := cached.user == user;
      }
      if ok {
        previews := previews - {id};
      }
      if !ok || now > cached.expires {
        return None;
      }
      return Some(cached.rows);
    }
  }
}
