/** The server's session table.  A session row keeps a snapshot of the password hash it was
    created under; creating a session also deletes the expired rows of everyone. */
module SessionTable {
  import opened Wrappers

  datatype User = User(password: string, active: bool)

  datatype Row = Row(user: int, password: string, expires: int)

  datatype State = State(users: map<int, User>, sessions: map<string, Row>)

  datatype Event =
    | SetUser(id: int, user: User, time: int)        // register, change password, disable, enable
    | Create(hash: string, id: int, password: string, expires: int, time: int)
    | Delete(hash: string, time: int)
    | RevokeAll(id: int, time: int)                  // the operator removes a user's sessions

  // ------------------------------------------------------------------ one step

  /** The condition of the INSERT ... SELECT: the credential snapshot is still current. */
  predicate Current(users: map<int, User>, id: int, password: string) {
    id in users && users[id] == User(password, true)
  }

  function Purge(sessions: map<string, Row>, now: int): map<string, Row> {
    map hash | hash in sessions && sessions[hash].expires > now :: sessions[hash]
  }

  /** `purges` tells whether creating a session deletes expired rows, as the server does. */
  function Step(s: State, e: Event, purges: bool): State {
    match e
    case SetUser(id, user, _) => s.(users := s.users[id := user])
    case Create(hash, id, password, expires, time) =>
      var kept := if purges then Purge(s.sessions, time) else s.sessions;
      if !Current(s.users, id, password) || hash in kept then s    // rolled back
      else s.(sessions := kept[hash := Row(id, password, expires)])
    case Delete(hash, _) => s.(sessions := s.sessions - {hash})
    case RevokeAll(id, _) =>
      s.(sessions := map hash | hash in s.sessions && s.sessions[hash].user != id :: s.sessions[hash])
  }

  function Resolve(s: State, hash: string, now: int): Option<int> {
    if hash in s.sessions && s.sessions[hash].expires > now
       && Current(s.users, s.sessions[hash].user, s.sessions[hash].password)
    then Some(s.sessions[hash].user) else None
  }

  function After(history: seq<Event>, purges: bool): State {
    if history == [] then State(map[], map[])
    else Step(After(history[..|history| - 1], purges), history[|history| - 1], purges)
  }

  // ------------------------------------------------ the specification: history

  /** The user as the last SetUser left it. */
  function UserAfter(history: seq<Event>, id: int): Option<User> {
    if history == [] then None
    else
      var e := history[|history| - 1];
      if e.SetUser? && e.id == id then Some(e.user) else UserAfter(history[..|history| - 1], id)
  }

  /** Event i created the session: the user was active and had that password. */
  predicate Created(history: seq<Event>, i: nat, hash: string) {
    && i < |history| && history[i].Create? && history[i].hash == hash
    && UserAfter(history[..i], history[i].id) == Some(User(history[i].password, true))
  }

  predicate Removes(e: Event, hash: string, user: int) {
    (e.Delete? && e.hash == hash) || (e.RevokeAll? && e.id == user)
  }

  /** Event i created the session and no later event removed it. */
  predicate Lives(history: seq<Event>, i: nat, hash: string) {
    && Created(history, i, hash)
    && forall j :: i < j < |history| ==> !Removes(history[j], hash, history[i].id)
  }

  /** Event i grants access at `now`: created, not removed, unexpired, user active, and the
      password snapshot still current. */
  predicate Grants(history: seq<Event>, i: nat, hash: string, now: int) {
    && Lives(history, i, hash) && history[i].expires > now
    && UserAfter(history, history[i].id) == Some(User(history[i].password, true))
  }

  /** Time does not go back, and every session has a token of its own. */
  ghost predicate WellFormed(history: seq<Event>) {
    && (forall i, j :: 0 <= i < j < |history| ==> history[i].time <= history[j].time)
    && (forall i, j :: 0 <= i < j < |history| && history[i].Create? && history[j].Create?
                       ==> history[i].hash != history[j].hash)
  }

  // --------------------------------------------------------------------- proof

  lemma {:induction false} UsersFollowHistory(history: seq<Event>, purges: bool, id: int)
    ensures
      var users := After(history, purges).users;
      UserAfter(history, id) == if id in users then Some(users[id]) else None
  {
    if history != [] {
      UsersFollowHistory(history[..|history| - 1], purges, id);
    }
  }

  function RowOf(e: Event): Row
    requires e.Create?
  {
    Row(e.id, e.password, e.expires)
  }

  /** Without purging, the table holds exactly the sessions that live. */
  ghost predicate Exact(history: seq<Event>, hash: string) {
    var sessions := After(history, false).sessions;
    && (forall i: nat :: Lives(history, i, hash) ==> hash in sessions && sessions[hash] == RowOf(history[i]))
    && (hash in sessions ==> exists i: nat :: Lives(history, i, hash))
  }

  lemma LivesStep(history: seq<Event>, i: nat, hash: string)
    requires history != [] && i < |history| - 1
    ensures
      var n := |history| - 1;
      Lives(history, i, hash) <==>
        Lives(history[..n], i, hash) && !Removes(history[n], hash, history[i].id)
  {
    var n := |history| - 1;
    assert history[..n][..i] == history[..i];
    if Lives(history, i, hash) {
      assert forall j :: i < j < n ==> history[..n][j] == history[j];
    }
    if Lives(history[..n], i, hash) && !Removes(history[n], hash, history[i].id) {
      forall j | i < j < |history| ensures !Removes(history[j], hash, history[i].id) {
        if j < n { assert history[..n][j] == history[j]; }
      }
    }
  }

  /** The newest event is the only one whose session may have just begun. */
  lemma LivesNow(history: seq<Event>, hash: string)
    requires history != []
    ensures
      var n := |history| - 1;
      Lives(history, n, hash) <==> history[n].Create? && history[n].hash == hash
                                   && Current(After(history[..n], false).users, history[n].id, history[n].password)
  {
    var n := |history| - 1;
    if history[n].Create? {
      UsersFollowHistory(history[..n], false, history[n].id);
    }
  }

  lemma {:induction false} TableIsExact(history: seq<Event>, hash: string)
    requires WellFormed(history)
    ensures Exact(history, hash)
  {
    if history != [] {
      var n := |history| - 1;
      TableIsExact(history[..n], hash);
      ExactStep(history, hash);
    }
  }

  lemma ExactStep(history: seq<Event>, hash: string)
    requires WellFormed(history) && history != [] && Exact(history[..|history| - 1], hash)
    ensures Exact(history, hash)
  {
    var n := |history| - 1;
    var before, e := After(history[..n], false), history[n];
    var sessions := Step(before, e, false).sessions;
    LivesNow(history, hash);
    if e.Create? && e.hash == hash {
      NoEarlierCreate(history, hash);
    }
    forall i: nat | Lives(history, i, hash)
      ensures hash in sessions && sessions[hash] == RowOf(history[i])
    {
      if i < n { LivesStep(history, i, hash); }
    }
    if hash in sessions {
      if e.Create? && e.hash == hash {
        assert Lives(history, n, hash);
      } else {
        var i: nat :| Lives(history[..n], i, hash);
        LivesStep(history, i, hash);
      }
    }
  }

  lemma NoEarlierCreate(history: seq<Event>, hash: string)
    requires WellFormed(history) && history != []
    requires Exact(history[..|history| - 1], hash)
    requires history[|history| - 1].Create? && history[|history| - 1].hash == hash
    ensures hash !in After(history[..|history| - 1], false).sessions
    ensures forall i: nat :: i < |history| - 1 ==> !Lives(history, i, hash)
  {
    var n := |history| - 1;
    forall i: nat | i < n
      ensures !Lives(history, i, hash) && !Lives(history[..n], i, hash)
    {
      assert history[i].Create? ==> history[i].hash != hash;
      assert history[..n][i] == history[i];
    }
  }

  /** The purging table is the other one with some expired rows missing. */
  ghost predicate OnlyExpiredMissing(a: State, b: State, now: int) {
    && a.users == b.users
    && (forall hash :: hash in a.sessions ==> hash in b.sessions && b.sessions[hash] == a.sessions[hash])
    && (forall hash :: hash in b.sessions && hash !in a.sessions ==> b.sessions[hash].expires <= now)
  }

  lemma {:induction false} PurgeDropsExpiredOnly(history: seq<Event>, now: int)
    requires WellFormed(history) && (history != [] ==> history[|history| - 1].time <= now)
    ensures OnlyExpiredMissing(After(history, true), After(history, false), now)
  {
    if history != [] {
      var n := |history| - 1;
      PurgeDropsExpiredOnly(history[..n], history[n].time);
      if history[n].Create? {
        forall hash | hash == history[n].hash ensures hash !in After(history[..n], false).sessions {
          TableIsExact(history[..n], hash);
          NoEarlierCreate(history, hash);
        }
      }
    }
  }

  // -------------------------------------------------------------- main results

  /** Deleting expired rows is invisible: every lookup answers as if no row were purged. */
  lemma PurgeIsInvisible(history: seq<Event>, hash: string, now: int)
    requires WellFormed(history) && (history != [] ==> history[|history| - 1].time <= now)
    ensures Resolve(After(history, true), hash, now) == Resolve(After(history, false), hash, now)
  {
    PurgeDropsExpiredOnly(history, now);
  }

  /** A token resolves to a user exactly when some event of the history grants it. */
  lemma ResolveFollowsHistory(history: seq<Event>, hash: string, now: int, user: int)
    requires WellFormed(history) && (history != [] ==> history[|history| - 1].time <= now)
    ensures Resolve(After(history, true), hash, now) == Some(user)
        <==> exists i: nat :: Grants(history, i, hash, now) && history[i].id == user
  {
    PurgeIsInvisible(history, hash, now);
    TableIsExact(history, hash);
    var s := After(history, false);
    if Resolve(s, hash, now) == Some(user) {
      var i: nat :| Lives(history, i, hash);
      UsersFollowHistory(history, false, user);
      assert Grants(history, i, hash, now);
    }
    if i: nat :| Grants(history, i, hash, now) && history[i].id == user {
      UsersFollowHistory(history, false, user);
    }
  }

  /** A user who is disabled, or whose password is not the one the session was created
      under, is refused under that token, whatever the rest of the history. */
  lemma ChangedPasswordEndsSession(history: seq<Event>, hash: string, now: int, i: nat)
    requires WellFormed(history) && (history != [] ==> history[|history| - 1].time <= now)
    requires Created(history, i, hash)
    requires UserAfter(history, history[i].id) != Some(User(history[i].password, true))
    ensures Resolve(After(history, true), hash, now) == None
  {
    forall user
      ensures Resolve(After(history, true), hash, now) != Some(user)
    {
      ResolveFollowsHistory(history, hash, now, user);
      forall j: nat ensures !Grants(history, j, hash, now) {
        assert j != i && j < |history| && history[j].Create? ==> history[j].hash != hash;
      }
    }
  }

  // ------------------------------------------------------------------- adapter

  class AuthStore {
    var users: map<int, User>
    var sessions: map<string, Row>

    ghost function View(): State
      reads this
    {
      State(users, sessions)
    }

    method CreateSession(hash: string, id: int, password: string, expires: int, now: int)
      returns (r: Result<(), string>)
      modifies this
      ensures View() == Step(old(View()), Create(hash, id, password, expires, now), true)
      ensures r.Ok? ==> hash in sessions && sessions[hash] == Row(id, password, expires)
      ensures r.Ok? ==> forall other :: other != hash ==>
                (other in sessions <==> other in old(sessions) && old(sessions)[other].expires > now)
      ensures r.Err? ==> View() == old(View())
    {
      var kept := map key | key in sessions && sessions[key].expires > now :: sessions[key];
      if hash in kept {
        return Err("duplicate token");
      }
      if id !in users || users[id].password != password || !users[id].active {
        return Err("invalid credentials or session");
      }
      sessions := kept[hash := Row(id, password, expires)];
      return Ok(());
    }

    method ResolveSession(hash: string, now: int) returns (r: Result<int, string>)
      ensures r == match Resolve(View(), hash, now)
                   case Some(user) => Ok(user)
                   case None => Err("invalid credentials or session")
    {
      if hash in sessions {
        var s := sessions[hash];
        if s.expires > now && s.user in users && users[s.user].active && s.password == users[s.user].password {
          return Ok(s.user);
        }
      }
      return Err("invalid credentials or session");
    }

    method DeleteSession(hash: string, now: int)
      modifies this
      ensures View() == Step(old(View()), Delete(hash, now), true)
    {
      sessions := sessions - {hash};
    }
  }
}
