/** AllowLogin: a fixed-window limiter over the table `auth_attempts`, one row for each IP
    and each username.  Times are microseconds. */
module LoginLimiter {
  import opened Wrappers

  const MINUTE: int := 60_000_000
  const IP_LIMIT := 20
  const USER_LIMIT := 5

  datatype Window = Window(attempts: nat, end: int)

  type Table = map<string, Window>

  datatype Attempt = Attempt(ip: string, user: string, time: int)

  // -------------------------------------------------------------- one attempt

  function Purge(table: Table, now: int): Table {
    map key | key in table && table[key].end > now :: table[key]
  }

  function Touch(table: Table, key: string, now: int): (r: Table)
    ensures key in r
  {
    if key in table then table[key := table[key].(attempts := table[key].attempts + 1)]
    else table[key := Window(1, now + MINUTE)]
  }

  function TableAfter(table: Table, a: Attempt): Table {
    Touch(Touch(Purge(table, a.time), a.ip, a.time), a.user, a.time)
  }

  predicate Allows(table: Table, a: Attempt) {
    && Touch(Purge(table, a.time), a.ip, a.time)[a.ip].attempts <= IP_LIMIT
    && TableAfter(table, a)[a.user].attempts <= USER_LIMIT
  }

  class LoginLimiter {
    var table: Table

    constructor ()
      ensures table == map[]
    {
      table := map[];
    }

    /** One transaction: delete the expired rows, then count the attempt under both keys; or,
        on an error of a statement or of the commit, nothing. */
    method AllowLogin(ip: string, username: string, now: int) returns (r: Result<bool, string>)
      modifies this
      ensures r.Err? ==> table == old(table)
      ensures r.Ok? ==> table == TableAfter(old(table), Attempt(ip, username, now))
      ensures r.Ok? ==> r.value == Allows(old(table), Attempt(ip, username, now))
    {
      var rows := map key | key in table && table[key].end > now :: table[key];
      var allowed := true;
      var keys := [ip, username];
      ghost var start := rows;
      for i := 0 to 2
        invariant i == 0 ==> rows == start && allowed
        invariant i == 1 ==> rows == Touch(start, ip, now) && allowed == (rows[ip].attempts <= IP_LIMIT)
        invariant i == 2 ==> rows == Touch(Touch(start, ip, now), username, now)
        invariant i == 2 ==> allowed == (Touch(start, ip, now)[ip].attempts <= IP_LIMIT
                                         && rows[username].attempts <= USER_LIMIT)
      {
        if * {
          return Err("database");
        }
        var key, count := keys[i], 1;
        if key in rows {
          count := rows[key].attempts + 1;
          rows := rows[key := Window(count, rows[key].end)];
        } else {
          rows := rows[key := Window(count, now + MINUTE)];
        }
        var limit := if i == 1 then 5 else 20;
        allowed := allowed && count <= limit;
      }
      if * {
        return Err("commit");
      }
      table := rows;
      return Ok(allowed);
    }
  }

  // --------------------------------------------------------------- histories

  function After(attempts: seq<Attempt>): Table {
    if attempts == [] then map[]
    else TableAfter(After(attempts[..|attempts| - 1]), attempts[|attempts| - 1])
  }

  /** The answer given to the last attempt. */
  predicate LastAllowed(attempts: seq<Attempt>)
    requires attempts != []
  {
    Allows(After(attempts[..|attempts| - 1]), attempts[|attempts| - 1])
  }

  /** Times do not go back, and no IP key is also a username key. */
  ghost predicate WellFormed(attempts: seq<Attempt>) {
    && (forall i, j :: 0 <= i < j < |attempts| ==> attempts[i].time <= attempts[j].time)
    && (forall i, j :: 0 <= i < |attempts| && 0 <= j < |attempts| ==> attempts[i].ip != attempts[j].user)
  }

  predicate Uses(a: Attempt, key: string) {
    a.ip == key || a.user == key
  }

  predicate Within(time: int, from: int) {
    from <= time < from + 60_000_000
  }

  /** How many attempts that use `key` fall in the minute beginning at `from`. */
  function Made(attempts: seq<Attempt>, key: string, from: int): nat {
    if attempts == [] then 0
    else
      var a := attempts[|attempts| - 1];
      Made(attempts[..|attempts| - 1], key, from) + if Uses(a, key) && Within(a.time, from) then 1 else 0
  }

  /** How many of them were allowed. */
  function Admitted(attempts: seq<Attempt>, key: string, from: int): nat {
    if attempts == [] then 0
    else
      var a := attempts[|attempts| - 1];
      Admitted(attempts[..|attempts| - 1], key, from)
      + if Uses(a, key) && Within(a.time, from) && LastAllowed(attempts) then 1 else 0
  }

  // ----------------------------------------------------- one key on its own

  /** The times at which a key is used. */
  function Times(attempts: seq<Attempt>, key: string): seq<int> {
    if attempts == [] then []
    else
      var a, before := attempts[|attempts| - 1], Times(attempts[..|attempts| - 1], key);
      if Uses(a, key) then before + [a.time] else before
  }

  predicate Sorted(times: seq<int>) {
    forall i, j :: 0 <= i < j < |times| ==> times[i] <= times[j]
  }

  /** The window that a key's uses lead to, with no table and no purge. */
  function WindowOf(times: seq<int>): (w: Window)
    requires times != []
    ensures w.attempts >= 1
  {
    var n := |times| - 1;
    if n == 0 then Window(1, times[0] + MINUTE)
    else
      var before := WindowOf(times[..n]);
      if before.end > times[n] then Window(before.attempts + 1, before.end) else Window(1, times[n] + MINUTE)
  }

  lemma {:induction false} TimesSorted(attempts: seq<Attempt>, key: string)
    requires WellFormed(attempts)
    ensures Sorted(Times(attempts, key))
    ensures forall i :: 0 <= i < |Times(attempts, key)| ==>
              attempts != [] && Times(attempts, key)[i] <= attempts[|attempts| - 1].time
  {
    if attempts != [] {
      TimesSorted(attempts[..|attempts| - 1], key);
    }
  }

  /** The row of a key is its own window, or missing because that has expired. */
  predicate RowFits(table: Table, key: string, times: seq<int>, now: int) {
    if times == [] then key !in table
    else if key in table then table[key] == WindowOf(times)
    else WindowOf(times).end <= now
  }

  /** A row before and after one attempt. */
  lemma RowAfter(table: Table, a: Attempt, key: string)
    requires a.ip != a.user
    ensures
      var live, after := key in table && table[key].end > a.time, TableAfter(table, a);
      if Uses(a, key) then
        key in after && after[key] == if live then Window(table[key].attempts + 1, table[key].end)
                                      else Window(1, a.time + MINUTE)
      else if live then key in after && after[key] == table[key]
      else key !in after
    ensures Touch(Purge(table, a.time), a.ip, a.time)[a.ip] == TableAfter(table, a)[a.ip]
  {
  }

  lemma RowStep(table: Table, a: Attempt, key: string, prior: seq<int>, before: int)
    requires a.ip != a.user && before <= a.time && RowFits(table, key, prior, before)
    ensures
      var times := if Uses(a, key) then prior + [a.time] else prior;
      RowFits(TableAfter(table, a), key, times, a.time)
  {
    RowAfter(table, a, key);
    if Uses(a, key) {
      assert (prior + [a.time])[..|prior|] == prior;
    }
  }

  /** In every history each row is its key's window: purges and other keys are invisible. */
  lemma {:induction false} RowsAreWindows(attempts: seq<Attempt>, key: string, now: int)
    requires WellFormed(attempts) && (attempts != [] ==> attempts[|attempts| - 1].time <= now)
    ensures RowFits(After(attempts), key, Times(attempts, key), now)
  {
    if attempts != [] {
      var n := |attempts| - 1;
      RowsAreWindows(attempts[..n], key, attempts[n].time);
      RowStep(After(attempts[..n]), attempts[n], key, Times(attempts[..n], key), attempts[n].time);
    }
  }

  /** The count that an attempt is given under one of its keys is that key's window. */
  lemma CountsAreWindows(attempts: seq<Attempt>)
    requires WellFormed(attempts) && attempts != []
    ensures
      var a := attempts[|attempts| - 1];
      && Times(attempts, a.ip) != [] && Times(attempts, a.user) != []
      && (LastAllowed(attempts) <==>
            && WindowOf(Times(attempts, a.ip)).attempts <= IP_LIMIT
            && WindowOf(Times(attempts, a.user)).attempts <= USER_LIMIT)
  {
    var n := |attempts| - 1;
    var a := attempts[n];
    RowsAreWindows(attempts, a.ip, a.time);
    RowsAreWindows(attempts, a.user, a.time);
    RowAfter(After(attempts[..n]), a, a.ip);
  }

  // ------------------------------------------------------------ window sums

  /** Uses in the minute from `from` that got a count of at most `limit`. */
  function Small(times: seq<int>, from: int, limit: nat): nat {
    if times == [] then 0
    else
      Small(times[..|times| - 1], from, limit)
      + if Within(times[|times| - 1], from) && WindowOf(times).attempts <= limit then 1 else 0
  }

  lemma {:induction false} NoneBefore(times: seq<int>, from: int, limit: nat)
    requires Sorted(times) && (times != [] ==> times[|times| - 1] < from)
    ensures Small(times, from, limit) == 0
  {
    if times != [] {
      NoneBefore(times[..|times| - 1], from, limit);
    }
  }

  function Min(a: nat, b: nat): nat {
    if a <= b then a else b
  }

  /** A window that began before the minute has its first use outside of it. */
  lemma {:induction false} EarlyWindow(times: seq<int>, from: int, limit: nat)
    requires Sorted(times) && times != [] && WindowOf(times).end < from + MINUTE && limit >= 1
    ensures Small(times, from, limit) <= Min(WindowOf(times).attempts, limit) - 1
  {
    var n := |times| - 1;
    if n == 0 {
      assert times[..0] == [];
    } else if WindowOf(times[..n]).end > times[n] {
      EarlyWindow(times[..n], from, limit);
    } else {
      NoneBefore(times[..n], from, limit);
    }
  }

  /** Two windows at most reach into a minute, and the earlier one gives away one use less. */
  lemma {:induction false} TwoWindows(times: seq<int>, from: int, limit: nat)
    requires Sorted(times) && limit >= 1
    ensures Small(times, from, limit) <= 2 * limit - 1
    ensures times != [] && WindowOf(times).end < from + 2 * MINUTE
            ==> Small(times, from, limit) <= limit - 1 + Min(WindowOf(times).attempts, limit)
  {
    if times != [] {
      var n := |times| - 1;
      TwoWindows(times[..n], from, limit);
      WindowStart(times);
      if n == 0 {
        assert times[..0] == [];
      } else if WindowOf(times[..n]).end <= times[n] < from + MINUTE {
        EarlyWindow(times[..n], from, limit);
      }
    }
  }

  /** Uses in the minute from `from`. */
  function Count(times: seq<int>, from: int): nat {
    if times == [] then 0
    else
      var n := |times| - 1;
      Count(times[..n], from) + if Within(times[n], from) then 1 else 0
  }

  lemma {:induction false} MadeIsCount(attempts: seq<Attempt>, key: string, from: int)
    ensures Made(attempts, key, from) == Count(Times(attempts, key), from)
  {
    if attempts != [] {
      var n := |attempts| - 1;
      MadeIsCount(attempts[..n], key, from);
      var prior := Times(attempts[..n], key);
      assert (prior + [attempts[n].time])[..|prior|] == prior;
    }
  }

  /** A window's uses all lie in the minute that begins with its first. */
  lemma {:induction false} WindowWithinMinute(times: seq<int>)
    requires Sorted(times) && times != []
    ensures WindowOf(times).attempts <= Count(times, WindowOf(times).end - MINUTE)
  {
    var n := |times| - 1;
    WindowStart(times);
    if n > 0 && WindowOf(times[..n]).end > times[n] {
      WindowWithinMinute(times[..n]);
    }
  }

  lemma {:induction false} WindowStart(times: seq<int>)
    requires Sorted(times) && times != []
    ensures WindowOf(times).end - MINUTE <= times[|times| - 1] < WindowOf(times).end
  {
    var n := |times| - 1;
    if n > 0 {
      WindowStart(times[..n]);
    }
  }

  /** Every attempt that uses the key is judged by `limit` or less. */
  ghost predicate Limited(attempts: seq<Attempt>, key: string, limit: nat) {
    forall i :: 0 <= i < |attempts| ==>
      && (attempts[i].ip == key ==> IP_LIMIT <= limit)
      && (attempts[i].user == key ==> USER_LIMIT <= limit)
  }

  lemma SmallLast(prior: seq<int>, time: int, from: int, limit: nat)
    ensures
      var times := prior + [time];
      Small(times, from, limit)
      == Small(prior, from, limit) + if Within(time, from) && WindowOf(times).attempts <= limit then 1 else 0
  {
    assert (prior + [time])[..|prior|] == prior;
  }

  /** The window of an allowed attempt's key is within what judges it. */
  lemma AllowedWindow(attempts: seq<Attempt>, key: string, limit: nat)
    requires WellFormed(attempts) && attempts != [] && LastAllowed(attempts)
    requires
      var a := attempts[|attempts| - 1];
      (a.ip == key && IP_LIMIT <= limit) || (a.user == key && USER_LIMIT <= limit)
    ensures Times(attempts, key) != [] && WindowOf(Times(attempts, key)).attempts <= limit
  {
    CountsAreWindows(attempts);
  }

  lemma LastIsSmall(attempts: seq<Attempt>, key: string, from: int, limit: nat)
    requires WellFormed(attempts) && Limited(attempts, key, limit) && attempts != []
    ensures
      var before := attempts[..|attempts| - 1];
      Admitted(attempts, key, from) - Admitted(before, key, from)
      <= Small(Times(attempts, key), from, limit) - Small(Times(before, key), from, limit)
  {
    var n := |attempts| - 1;
    var a := attempts[n];
    if Uses(a, key) {
      SmallLast(Times(attempts[..n], key), a.time, from, limit);
      if LastAllowed(attempts) {
        AllowedWindow(attempts, key, limit);
      }
    }
  }

  /** An allowed attempt got a small count. */
  lemma {:induction false} AdmittedAreSmall(attempts: seq<Attempt>, key: string, from: int, limit: nat)
    requires WellFormed(attempts) && Limited(attempts, key, limit)
    ensures Admitted(attempts, key, from) <= Small(Times(attempts, key), from, limit)
    decreases |attempts|
  {
    if attempts != [] {
      AdmittedAreSmall(attempts[..|attempts| - 1], key, from, limit);
      LastIsSmall(attempts, key, from, limit);
    }
  }

  // ------------------------------------------------------------- main results

  /** Any minute, wherever it begins, admits fewer than twice the limit: at most 9 logins of
      a username. */
  lemma UserAdmissionsPerMinute(attempts: seq<Attempt>, user: string, from: int)
    requires WellFormed(attempts)
    requires forall i :: 0 <= i < |attempts| ==> attempts[i].ip != user
    ensures Admitted(attempts, user, from) <= 9
  {
    AdmittedAreSmall(attempts, user, from, USER_LIMIT);
    TimesSorted(attempts, user);
    TwoWindows(Times(attempts, user), from, USER_LIMIT);
  }

  /** At most 39 logins from an IP. */
  lemma IpAdmissionsPerMinute(attempts: seq<Attempt>, ip: string, from: int)
    requires WellFormed(attempts)
    requires forall i :: 0 <= i < |attempts| ==> attempts[i].user != ip
    ensures Admitted(attempts, ip, from) <= 39
  {
    AdmittedAreSmall(attempts, ip, from, IP_LIMIT);
    TimesSorted(attempts, ip);
    TwoWindows(Times(attempts, ip), from, IP_LIMIT);
  }

  /** A caller who never makes more than 5 attempts for the username and 20 from the IP in
      any minute is not refused. */
  lemma ModestCallerIsNeverRefused(attempts: seq<Attempt>)
    requires WellFormed(attempts) && attempts != []
    requires
      var a := attempts[|attempts| - 1];
      forall from :: Made(attempts, a.user, from) <= 5 && Made(attempts, a.ip, from) <= 20
    ensures LastAllowed(attempts)
  {
    var a := attempts[|attempts| - 1];
    CountsAreWindows(attempts);
    WindowIsMade(attempts, a.ip);
    WindowIsMade(attempts, a.user);
    assert Made(attempts, a.user, WindowOf(Times(attempts, a.user)).end - MINUTE) <= USER_LIMIT;
    assert Made(attempts, a.ip, WindowOf(Times(attempts, a.ip)).end - MINUTE) <= IP_LIMIT;
  }

  lemma WindowIsMade(attempts: seq<Attempt>, key: string)
    requires WellFormed(attempts) && Times(attempts, key) != []
    ensures
      var w := WindowOf(Times(attempts, key));
      w.attempts <= Made(attempts, key, w.end - MINUTE)
  {
    var times := Times(attempts, key);
    TimesSorted(attempts, key);
    WindowWithinMinute(times);
    MadeIsCount(attempts, key, WindowOf(times).end - MINUTE);
  }

  // -------------------------------------------------------- the bound is met

  predicate InWindow(table: Table, a: Attempt, ip: Window, user: Window) {
    && a.ip != a.user && ip.end > a.time && user.end > a.time
    && a.ip in table && table[a.ip] == ip && a.user in table && table[a.user] == user
  }

  /** One more attempt within a window that has room is allowed. */
  lemma OneMoreIsAdmitted(prior: seq<Attempt>, a: Attempt, ip: Window, user: Window, from: int)
    requires InWindow(After(prior), a, ip, user)
    requires ip.attempts < IP_LIMIT && user.attempts < USER_LIMIT && Within(a.time, from)
    ensures Admitted(prior + [a], a.user, from) == Admitted(prior, a.user, from) + 1
    ensures InWindow(After(prior + [a]), a, Window(ip.attempts + 1, ip.end), Window(user.attempts + 1, user.end))
  {
    assert (prior + [a])[..|prior|] == prior;
    RowAfter(After(prior), a, a.ip);
    RowAfter(After(prior), a, a.user);
    assert After(prior + [a]) == TableAfter(After(prior), a);
  }

  /** In a window that has one use, four more are allowed. */
  lemma FourMoreAreAdmitted(history: seq<Attempt>, a: Attempt, end: int, from: int)
    requires InWindow(After(history), a, Window(1, end), Window(1, end)) && Within(a.time, from)
    ensures Admitted(history + [a] + [a] + [a] + [a], a.user, from) == Admitted(history, a.user, from) + 4
    ensures InWindow(After(history + [a] + [a] + [a] + [a]), a, Window(5, end), Window(5, end))
  {
    OneMoreIsAdmitted(history, a, Window(1, end), Window(1, end), from);
    OneMoreIsAdmitted(history + [a], a, Window(2, end), Window(2, end), from);
    OneMoreIsAdmitted(history + [a] + [a], a, Window(3, end), Window(3, end), from);
    OneMoreIsAdmitted(history + [a] + [a] + [a], a, Window(4, end), Window(4, end), from);
  }

  /** An attempt that finds no live row is allowed and opens new windows. */
  lemma FirstIsAdmitted(history: seq<Attempt>, a: Attempt, from: int)
    requires a.ip != a.user
    requires forall key :: key in After(history) && Uses(a, key) ==> After(history)[key].end <= a.time
    ensures Admitted(history + [a], a.user, from)
         == Admitted(history, a.user, from) + if Within(a.time, from) then 1 else 0
    ensures InWindow(After(history + [a]), a, Window(1, a.time + MINUTE), Window(1, a.time + MINUTE))
  {
    assert (history + [a])[..|history|] == history;
    RowAfter(After(history), a, a.ip);
    RowAfter(After(history), a, a.user);
  }

  /** One login, four more at the end of its minute, five at the start of the next. */
  function NineAndOne(ip: string, user: string): seq<Attempt> {
    var first, late, next := Attempt(ip, user, 0), Attempt(ip, user, MINUTE - 1), Attempt(ip, user, MINUTE);
    [first] + [late] + [late] + [late] + [late] + [next] + [next] + [next] + [next] + [next]
  }

  lemma NineAreOrdered(ip: string, user: string)
    requires ip != user
    ensures WellFormed(NineAndOne(ip, user))
  {
    var all := NineAndOne(ip, user);
    assert forall i :: 0 <= i < |all| ==> all[i].ip == ip && all[i].user == user;
    assert forall i :: 0 <= i < |all| ==> all[i].time == if i == 0 then 0 else if i < 5 then MINUTE - 1 else MINUTE;
  }

  lemma NineAreAdmitted(ip: string, user: string)
    requires ip != user
    ensures Admitted(NineAndOne(ip, user), user, MINUTE - 1) == 9
  {
    var first, late, next := Attempt(ip, user, 0), Attempt(ip, user, MINUTE - 1), Attempt(ip, user, MINUTE);
    FirstIsAdmitted([], first, MINUTE - 1);
    assert [] + [first] == [first];
    FourMoreAreAdmitted([first], late, MINUTE, MINUTE - 1);
    var early := [first] + [late] + [late] + [late] + [late];
    FirstIsAdmitted(early, next, MINUTE - 1);
    FourMoreAreAdmitted(early + [next], next, 2 * MINUTE, MINUTE - 1);
  }

  /** Nine logins do fit into a minute: the bound cannot be lowered. */
  lemma NineLoginsInAMinute(ip: string, user: string)
    requires ip != user
    ensures exists attempts, from :: WellFormed(attempts) && Admitted(attempts, user, from) == 9
  {
    NineAreOrdered(ip, user);
    NineAreAdmitted(ip, user);
  }

  /** A username of its own for each attempt. */
  function Name(ip: string, k: nat): (r: string)
    ensures |r| == |ip| + 1 + k
  {
    ip + seq(k + 1, _ => 'a')
  }

  /** From one IP and under as many names: one login, 19 more at the end of its minute, and 20 at
      the start of the next. */
  function Member(ip: string, k: nat): Attempt {
    Attempt(ip, Name(ip, k), if k == 0 then 0 else if k < IP_LIMIT then MINUTE - 1 else MINUTE)
  }

  /** The table after n of them: the row of the IP, and no name that is still to come. */
  predicate CrowdTable(table: Table, ip: string, n: nat) {
    && (if n == 0 then ip !in table
        else ip in table
             && table[ip] == if n <= IP_LIMIT then Window(n, MINUTE) else Window(n - IP_LIMIT, 2 * MINUTE))
    && forall key :: key in table ==> |key| <= |ip| + n
  }

  lemma CrowdStep(table: Table, after: Table, ip: string, k: nat)
    requires CrowdTable(table, ip, k) && k < 2 * IP_LIMIT && after == TableAfter(table, Member(ip, k))
    ensures CrowdTable(after, ip, k + 1) && Allows(table, Member(ip, k))
  {
    RowAfter(table, Member(ip, k), ip);
    RowAfter(table, Member(ip, k), Name(ip, k));
  }

  /** One more attempt after a history. */
  lemma OneMore(history: seq<Attempt>, a: Attempt, key: string, from: int)
    ensures After(history + [a]) == TableAfter(After(history), a)
    ensures Admitted(history + [a], key, from)
         == Admitted(history, key, from)
            + if Uses(a, key) && Within(a.time, from) && Allows(After(history), a) then 1 else 0
  {
    assert (history + [a])[..|history|] == history;
  }

  /** The first of the crowd, all of them admitted; the very first lies before the minute. */
  ghost predicate CrowdCame(attempts: seq<Attempt>, ip: string) {
    && (forall i :: 0 <= i < |attempts| ==> attempts[i] == Member(ip, i))
    && CrowdTable(After(attempts), ip, |attempts|)
    && Admitted(attempts, ip, MINUTE - 1) == if attempts == [] then 0 else |attempts| - 1
  }

  lemma NextOneCame(attempts: seq<Attempt>, all: seq<Attempt>, ip: string)
    requires CrowdCame(attempts, ip) && |attempts| < 2 * IP_LIMIT
    requires all == attempts + [Member(ip, |attempts|)]
    ensures CrowdCame(all, ip)
  {
    OneMore(attempts, Member(ip, |attempts|), ip, MINUTE - 1);
    CrowdStep(After(attempts), After(all), ip, |attempts|);
  }

  lemma CrowdIsOrdered(attempts: seq<Attempt>, ip: string)
    requires forall i :: 0 <= i < |attempts| ==> attempts[i] == Member(ip, i)
    ensures WellFormed(attempts)
    ensures forall i :: 0 <= i < |attempts| ==> attempts[i].user != ip
  {
    assert forall k: nat :: |Member(ip, k).user| > |ip|;
  }

  /** Thirty-nine logins from one IP do fit into a minute: nor can that bound be lowered. */
  lemma ThirtyNineLoginsInAMinute(ip: string)
    ensures exists attempts: seq<Attempt>, from ::
              && WellFormed(attempts) && (forall i :: 0 <= i < |attempts| ==> attempts[i].user != ip)
              && Admitted(attempts, ip, from) == 39
  {
    var attempts: seq<Attempt> := [];
    for k := 0 to 2 * IP_LIMIT
      invariant |attempts| == k && CrowdCame(attempts, ip)
    {
      NextOneCame(attempts, attempts + [Member(ip, k)], ip);
      attempts := attempts + [Member(ip, k)];
    }
    CrowdIsOrdered(attempts, ip);
  }
}
