/** Admin login lockout: the attempt map of `AdminAuth` (internal/admin/auth.go) and the
    gate / authenticate / record order of `HandleLogin` (internal/admin/login.go).

    Time is an integer number of nanoseconds that every method receives as `now`; the code
    reads the clock while it holds the map's mutex, so along a run it never decreases. */
module LoginLockout {
  import opened Prelude

  const MAX_LOGIN_ATTEMPTS := 5
  const LOCKOUT := 15 * 60 * 1_000_000_000
  const MAX_ATTEMPTS_MAP := 2048

  /** `lockedUntil` is `None` while the source's field is still the zero time, which is
      before every clock reading. */
  datatype Attempt = Attempt(count: nat, lockedUntil: Option<int>, lastSeen: int)

  type Attempts = map<string, Attempt>

  // ---------------------------------------------------------------- specification functions

  /** Locked out at `now`: enough failures and a lock that has not expired. */
  predicate Locked(m: Attempts, user: string, now: int) {
    && user != "" && user in m && m[user].count >= MAX_LOGIN_ATTEMPTS
    && m[user].lockedUntil.Some? && now < m[user].lockedUntil.value
  }

  /** The gate forgets an entry whose lock has expired. */
  function AfterGate(m: Attempts, user: string, now: int): Attempts {
    if user != "" && user in m && m[user].count >= MAX_LOGIN_ATTEMPTS && !Locked(m, user, now)
    then m - {user} else m
  }

  function Bumped(m: Attempts, user: string, now: int): Attempt {
    var count := 1 + if user in m then m[user].count else 0;
    var before := if user in m then m[user].lockedUntil else None;
    Attempt(count, if count >= MAX_LOGIN_ATTEMPTS then Some(now + LOCKOUT) else before, now)
  }

  /** Garbage: silent for longer than the lockout and with an expired lock. */
  predicate Stale(a: Attempt, now: int) {
    a.lastSeen < now - LOCKOUT && (a.lockedUntil.None? || a.lockedUntil.value < now)
  }

  function Pruned(m: Attempts, now: int): Attempts {
    if |m| < MAX_ATTEMPTS_MAP then m else map u | u in m && !Stale(m[u], now) :: m[u]
  }

  function AfterFailure(m: Attempts, user: string, now: int): Attempts {
    if user == "" then m else Pruned(m[user := Bumped(m, user, now)], now)
  }

  function AfterSuccess(m: Attempts, user: string): Attempts {
    if user == "" then m else m - {user}
  }

  // ---------------------------------------------------------------- the imperative form

  datatype Status = Ok | Unauthorized | TooManyRequests

  class AdminAuth {
    var loginAttempts: Attempts

    constructor ()
      ensures loginAttempts == map[]
    {
      loginAttempts := map[];
    }

    method IsLockedOut(user: string, now: int) returns (locked: bool, remaining: int)
      modifies this
      ensures locked == Locked(old(loginAttempts), user, now)
      ensures locked ==> remaining == old(loginAttempts)[user].lockedUntil.value - now > 0
      ensures !locked ==> remaining == 0
      ensures loginAttempts == AfterGate(old(loginAttempts), user, now)
    {
      if user == "" {
        return false, 0;
      }
      if user !in loginAttempts || loginAttempts[user].count < MAX_LOGIN_ATTEMPTS {
        return false, 0;
      }
      var until := loginAttempts[user].lockedUntil;
      if until.None? || until.value - now <= 0 {
        loginAttempts := loginAttempts - {user};
        return false, 0;
      }
      return true, until.value - now;
    }

    method RecordLoginFailure(user: string, now: int)
      modifies this
      ensures loginAttempts == AfterFailure(old(loginAttempts), user, now)
    {
      if user == "" {
        return;
      }
      var att := if user in loginAttempts then loginAttempts[user] else Attempt(0, None, 0);
      att := att.(count := att.count + 1);
      att := att.(lastSeen := now);
      if att.count >= MAX_LOGIN_ATTEMPTS {
        att := att.(lockedUntil := Some(now + LOCKOUT));
      }
      loginAttempts := loginAttempts[user := att];
      PruneLoginAttempts(now);
    }

    /** The sweep visits the entries in an arbitrary order and deletes in place. */
    method PruneLoginAttempts(now: int)
      modifies this
      ensures loginAttempts == Pruned(old(loginAttempts), now)
    {
      if |loginAttempts| < MAX_ATTEMPTS_MAP {
        return;
      }
      var cutoff := now - LOCKOUT;
      var todo := loginAttempts.Keys;
      ghost var before := loginAttempts;
      while todo != {}
        invariant todo <= before.Keys
        invariant forall u :: u in loginAttempts <==> u in before && (u in todo || !Stale(before[u], now))
        invariant forall u :: u in loginAttempts ==> loginAttempts[u] == before[u]
        decreases todo
      {
        var u :| u in todo;
        todo := todo - {u};
        var att := loginAttempts[u];
        if att.lastSeen < cutoff && (att.lockedUntil.None? || att.lockedUntil.value < now) {
          loginAttempts := loginAttempts - {u};
        }
      }
      assert loginAttempts == map u | u in before && !Stale(before[u], now) :: before[u];
    }

    method RecordLoginSuccess(user: string)
      modifies this
      ensures loginAttempts == AfterSuccess(old(loginAttempts), user)
    {
      if user == "" {
        return;
      }
      loginAttempts := loginAttempts - {user};
    }

    /** One login with nobody else in between; `valid` is the outcome of the password
        check, which runs only behind the gate. */
    method HandleLogin(user: string, valid: bool, gateTime: int, recordTime: int) returns (status: Status)
      modifies this
      ensures status == if Locked(old(loginAttempts), user, gateTime) then TooManyRequests
                        else if valid then Ok else Unauthorized
      ensures loginAttempts ==
              var m := AfterGate(old(loginAttempts), user, gateTime);
              match status
              case TooManyRequests => m
              case Unauthorized => AfterFailure(m, user, recordTime)
              case Ok => AfterSuccess(m, user)
    {
      var locked, remaining := IsLockedOut(user, gateTime);
      if locked {
        return TooManyRequests;
      }
      if !valid {
        RecordLoginFailure(user, recordTime);
        return Unauthorized;
      }
      RecordLoginSuccess(user);
      return Ok;
    }
  }

  // ---------------------------------------------------------------- concurrent logins

  /** Concurrent logins: the attempt map, the usernames of the requests that passed the
      gate and have not recorded an outcome yet, and the clock. */
  datatype State = State(attempts: Attempts, pending: map<string, nat>, clock: int) {
    /** How many requests for the user are between gate and record. */
    function InFlight(user: string): nat { if user in pending then pending[user] else 0 }
  }

  datatype Step = Gate(user: string, at: int) | Failure(user: string, at: int) | Success(user: string, at: int)

  predicate Enabled(s: State, e: Step) {
    s.clock <= e.at && (e.Gate? || s.InFlight(e.user) > 0)
  }

  function Next(s: State, e: Step): State
    requires Enabled(s, e)
  {
    match e
    case Gate(u, at) =>
      State(AfterGate(s.attempts, u, at),
            if Locked(s.attempts, u, at) then s.pending else s.pending[u := s.InFlight(u) + 1], at)
    case Failure(u, at) => State(AfterFailure(s.attempts, u, at), s.pending[u := s.InFlight(u) - 1], at)
    case Success(u, at) => State(AfterSuccess(s.attempts, u), s.pending[u := s.InFlight(u) - 1], at)
  }

  predicate CanRun(s: State, run: seq<Step>)
    decreases |run|
  {
    run == [] || (Enabled(s, run[0]) && CanRun(Next(s, run[0]), run[1..]))
  }

  function Run(s: State, run: seq<Step>): State
    requires CanRun(s, run)
    decreases |run|
  {
    if run == [] then s else Run(Next(s, run[0]), run[1..])
  }

  /** At every point of the run at most `p` requests for the user are between gate and record. */
  predicate AtMostInFlight(s: State, run: seq<Step>, user: string, p: nat)
    decreases |run|
  {
    && s.InFlight(user) <= p
    && (run == [] || (Enabled(s, run[0]) && AtMostInFlight(Next(s, run[0]), run[1..], user, p)))
  }

  predicate NoSuccess(run: seq<Step>, user: string) {
    forall k :: 0 <= k < |run| ==> run[k] != Success(user, run[k].at)
  }

  /** The number of failures the run records for the user. */
  function Failures(run: seq<Step>, user: string): nat {
    if run == [] then 0
    else (if run[0].Failure? && run[0].user == user then 1 else 0) + Failures(run[1..], user)
  }

  /** What a window of less than `LOCKOUT` starting at `w0` keeps, after `f` failures in it:
      the entry was not swept, below the threshold every failure of the window is counted,
      and past it the lock outlasts the window, so only requests already in flight can fail. */
  predicate WindowInv(s: State, user: string, w0: int, p: nat, f: nat) {
    f == 0 ||
    (&& user in s.attempts
     && var a := s.attempts[user];
        && w0 <= a.lastSeen
        && (a.count < MAX_LOGIN_ATTEMPTS ==> f <= a.count)
        && (a.count >= MAX_LOGIN_ATTEMPTS ==>
              && a.lockedUntil.Some? && w0 + LOCKOUT <= a.lockedUntil.value
              && f + s.InFlight(user) <= MAX_LOGIN_ATTEMPTS - 1 + p))
  }

  lemma WindowStep(s: State, e: Step, user: string, w0: int, p: nat, f: nat)
    requires user != "" && Enabled(s, e) && e != Success(user, e.at)
    requires w0 <= e.at < w0 + LOCKOUT && s.InFlight(user) <= p
    requires WindowInv(s, user, w0, p, f)
    ensures WindowInv(Next(s, e), user, w0, p, if e == Failure(user, e.at) then f + 1 else f)
  {
    if e.Failure? && e.user != "" {
      var bumped := s.attempts[e.user := Bumped(s.attempts, e.user, e.at)];
      if user in bumped && w0 <= bumped[user].lastSeen {
        assert !Stale(bumped[user], e.at);
        assert user in Pruned(bumped, e.at) && Pruned(bumped, e.at)[user] == bumped[user];
      }
    }
  }

  lemma {:induction false} WindowBound(s: State, run: seq<Step>, user: string, w0: int, p: nat, f: nat)
    requires user != "" && CanRun(s, run) && AtMostInFlight(s, run, user, p) && NoSuccess(run, user)
    requires forall k :: 0 <= k < |run| ==> w0 <= run[k].at < w0 + LOCKOUT
    requires WindowInv(s, user, w0, p, f)
    ensures f + Failures(run, user) <= MAX_LOGIN_ATTEMPTS - 1 + p
    decreases |run|
  {
    if run != [] {
      var e := run[0];
      assert NoSuccess(run[1..], user);
      WindowStep(s, e, user, w0, p, f);
      WindowBound(Next(s, e), run[1..], user, w0, p, if e == Failure(user, e.at) then f + 1 else f);
    }
  }

  /** The rate bound. From any state, any stretch of a concurrent run that is shorter than
      15 minutes, has no success for the user and never has more than `p` of the user's
      requests between gate and record, records at most 4 + p failures for the user.
      Expiry at the gate and sweeping by anybody's failure are included. */
  lemma RateBound(s: State, run: seq<Step>, user: string, w0: int, p: nat)
    requires user != "" && CanRun(s, run) && AtMostInFlight(s, run, user, p) && NoSuccess(run, user)
    requires forall k :: 0 <= k < |run| ==> w0 <= run[k].at < w0 + LOCKOUT
    ensures Failures(run, user) <= 4 + p
  {
    WindowBound(s, run, user, w0, p, 0);
  }

  lemma {:induction false} TimesIncrease(s: State, run: seq<Step>)
    requires CanRun(s, run)
    ensures forall k :: 0 <= k < |run| ==> s.clock <= run[k].at <= run[|run| - 1].at
    decreases |run|
  {
    if run != [] {
      TimesIncrease(Next(s, run[0]), run[1..]);
      forall k | 0 <= k < |run| ensures s.clock <= run[k].at <= run[|run| - 1].at {
        if k > 0 { assert run[k] == run[1..][k - 1]; }
        if |run| > 1 { assert run[|run| - 1] == run[1..][|run| - 2]; }
      }
    }
  }

  /** The rest of a run, from the state in which it begins. */
  lemma {:induction false} RunFrom(s: State, run: seq<Step>, user: string, p: nat, a: nat) returns (t: State)
    requires CanRun(s, run) && AtMostInFlight(s, run, user, p) && a <= |run|
    ensures CanRun(t, run[a..]) && AtMostInFlight(t, run[a..], user, p)
    decreases a
  {
    if a == 0 {
      t := s;
      assert run[0..] == run;
    } else {
      t := RunFrom(Next(s, run[0]), run[1..], user, p, a - 1);
      assert run[1..][a - 1..] == run[a..];
    }
  }

  lemma {:induction false} RunUpTo(s: State, run: seq<Step>, user: string, p: nat, b: nat)
    requires CanRun(s, run) && AtMostInFlight(s, run, user, p) && b <= |run|
    ensures CanRun(s, run[..b]) && AtMostInFlight(s, run[..b], user, p)
    decreases b
  {
    if b > 0 {
      assert run[..b][1..] == run[1..][..b - 1];
      RunUpTo(Next(s, run[0]), run[1..], user, p, b - 1);
    }
  }

  /** The time between two failures. With at most `p` requests of the user between gate and
      record, two failures of the user are at least 15 minutes apart if more than 4 + `p`
      failures, these two included, lie between them without a success. */
  lemma FailuresSpanTheLockout(s: State, run: seq<Step>, user: string, p: nat, first: nat, last: nat)
    requires user != "" && CanRun(s, run) && AtMostInFlight(s, run, user, p)
    requires first <= last < |run| && run[first].Failure? && run[first].user == user
    requires run[last].Failure? && run[last].user == user
    requires NoSuccess(run[first..last + 1], user) && Failures(run[first..last + 1], user) > 4 + p
    ensures run[last].at - run[first].at >= 900_000_000_000
  {
    var t := RunFrom(s, run, user, p, first);
    var part := run[first..];
    RunUpTo(t, part, user, p, last + 1 - first);
    var stretch := part[..last + 1 - first];
    assert stretch == run[first..last + 1];
    assert stretch[0] == run[first] && stretch[|stretch| - 1] == run[last];
    if run[last].at < run[first].at + LOCKOUT {
      TimesFromFirst(t, stretch);
      RateBound(t, stretch, user, run[first].at, p);
    }
  }

  lemma TimesFromFirst(s: State, run: seq<Step>)
    requires run != [] && CanRun(s, run)
    ensures forall k :: 0 <= k < |run| ==> run[0].at <= run[k].at <= run[|run| - 1].at
  {
    TimesIncrease(s, run);
    TimesIncrease(Next(s, run[0]), run[1..]);
    assert forall k :: 1 <= k < |run| ==> run[k] == run[1..][k - 1];
  }

  /** With one request at a time, the first and the sixth of six failures without a success
      are at least 15 minutes apart. */
  lemma SixFailuresSpanTheLockout(s: State, run: seq<Step>, user: string, first: nat, sixth: nat)
    requires user != "" && CanRun(s, run) && AtMostInFlight(s, run, user, 1)
    requires first <= sixth < |run| && run[first].Failure? && run[first].user == user
    requires run[sixth].Failure? && run[sixth].user == user
    requires NoSuccess(run[first..sixth + 1], user) && Failures(run[first..sixth + 1], user) == 6
    ensures run[sixth].at - run[first].at >= 900_000_000_000
  {
    FailuresSpanTheLockout(s, run, user, 1, first, sixth);
  }

  /** A lock at least until `until`, which is at most 15 minutes ahead. */
  predicate LockedThrough(s: State, user: string, until: int) {
    && user in s.attempts && s.attempts[user].count >= MAX_LOGIN_ATTEMPTS
    && s.attempts[user].lockedUntil.Some?
    && until <= s.attempts[user].lockedUntil.value && until <= s.clock + LOCKOUT
  }

  lemma LockStep(s: State, e: Step, user: string, until: int)
    requires user != "" && Enabled(s, e) && e != Success(user, e.at) && e.at < until
    requires LockedThrough(s, user, until)
    ensures LockedThrough(Next(s, e), user, until)
    ensures Next(s, e).InFlight(user) == s.InFlight(user) - if e == Failure(user, e.at) then 1 else 0
  {
    if e.Failure? && e.user != "" {
      var bumped := s.attempts[e.user := Bumped(s.attempts, e.user, e.at)];
      assert !Stale(bumped[user], e.at);
      assert user in Pruned(bumped, e.at) && Pruned(bumped, e.at)[user] == bumped[user];
    }
  }

  lemma {:induction false} LockedThroughRun(s: State, run: seq<Step>, user: string, until: int)
    requires user != "" && CanRun(s, run) && NoSuccess(run, user) && LockedThrough(s, user, until)
    requires forall k :: 0 <= k < |run| ==> run[k].at < until
    ensures LockedThrough(Run(s, run), user, until)
    ensures Run(s, run).InFlight(user) + Failures(run, user) == s.InFlight(user)
    decreases |run|
  {
    if run != [] {
      assert NoSuccess(run[1..], user);
      LockStep(s, run[0], user, until);
      LockedThroughRun(Next(s, run[0]), run[1..], user, until);
    }
  }

  /** Once a failure arms the lock at time `t`, every gate before `t` + 15 minutes refuses
      the user, in every run without a success for that user; nobody enters, so the
      requests in flight only drain through further failures. */
  lemma ArmedLockHolds(s: State, user: string, t: int, run: seq<Step>)
    requires user != "" && Enabled(s, Failure(user, t))
    requires user in s.attempts && s.attempts[user].count >= MAX_LOGIN_ATTEMPTS - 1
    requires CanRun(Next(s, Failure(user, t)), run) && NoSuccess(run, user)
    requires forall k :: 0 <= k < |run| ==> run[k].at < t + LOCKOUT
    ensures var s' := Run(Next(s, Failure(user, t)), run);
            && (forall now :: now < t + LOCKOUT ==> Locked(s'.attempts, user, now))
            && s'.InFlight(user) + Failures(run, user) == s.InFlight(user) - 1
  {
    var bumped := s.attempts[user := Bumped(s.attempts, user, t)];
    assert !Stale(bumped[user], t);
    assert user in Pruned(bumped, t) && Pruned(bumped, t)[user] == bumped[user];
    LockedThroughRun(Next(s, Failure(user, t)), run, user, t + LOCKOUT);
  }

  // ---------------------------------------------------------------- the bound is attained

  type Stepper = (State, Step) -> Option<State>

  /** The step function as a value, undefined where a step is not enabled. */
  function TheStepper(): Stepper { (s, e) => if Enabled(s, e) then Some(Next(s, e)) else None }

  /** A run at instant zero from `s` to `t` that stays within `p` requests of the user in
      flight, has no success for the user and records `f` failures for the user. */
  predicate Burst(step: Stepper, s: State, run: seq<Step>, user: string, p: nat, f: int, t: State)
    decreases |run|
  {
    && s.InFlight(user) <= p
    && if run == [] then f == 0 && s == t
       else
         && run[0].at == 0 && run[0] != Success(user, 0) && step(s, run[0]).Some?
         && Burst(step, step(s, run[0]).value, run[1..], user, p, if run[0] == Failure(user, 0) then f - 1 else f, t)
  }

  lemma {:induction false} BurstMeans(s: State, run: seq<Step>, user: string, p: nat, f: int, t: State)
    requires Burst(TheStepper(), s, run, user, p, f, t)
    ensures CanRun(s, run) && AtMostInFlight(s, run, user, p) && NoSuccess(run, user)
    ensures forall j :: 0 <= j < |run| ==> run[j].at == 0
    ensures Failures(run, user) == f
    decreases |run|
  {
    if run != [] {
      BurstMeans(Next(s, run[0]), run[1..], user, p, if run[0] == Failure(user, 0) then f - 1 else f, t);
    }
  }

  lemma {:induction false} BurstAppend(step: Stepper, s: State, a: seq<Step>, t: State, b: seq<Step>, u: State,
                                       user: string, p: nat, f: int, g: int)
    requires Burst(step, s, a, user, p, f, t) && Burst(step, t, b, user, p, g, u)
    ensures Burst(step, s, a + b, user, p, f + g, u)
    decreases |a|
  {
    if a == [] {
      assert a + b == b;
    } else {
      var s1, f1 := step(s, a[0]).value, if a[0] == Failure(user, 0) then f - 1 else f;
      BurstAppend(step, s1, a[1..], t, b, u, user, p, f1, g);
      BurstCons(step, s, a[0], a[1..] + b, user, p, f1 + g, u);
      assert [a[0]] + (a[1..] + b) == a + b;
    }
  }

  lemma BurstCons(step: Stepper, s: State, e: Step, run: seq<Step>, user: string, p: nat, f: int, t: State)
    requires e.at == 0 && e != Success(user, 0) && s.InFlight(user) <= p
    requires step(s, e).Some? && Burst(step, step(s, e).value, run, user, p, f, t)
    ensures Burst(step, s, [e] + run, user, p, if e == Failure(user, 0) then f + 1 else f, t)
  {
    var whole := [e] + run;
    assert whole[0] == e && whole[1..] == run;
  }

  /** `k` requests pass the gate while the user is below the threshold. */
  lemma {:induction false} GatesPass(s: State, user: string, k: nat, p: nat) returns (run: seq<Step>, t: State)
    requires user in s.attempts && s.attempts[user].count < MAX_LOGIN_ATTEMPTS
    requires s.InFlight(user) + k <= p && s.clock == 0
    ensures Burst(TheStepper(), s, run, user, p, 0, t)
    ensures t.attempts == s.attempts && t.clock == 0 && t.InFlight(user) == s.InFlight(user) + k
    decreases k
  {
    if k == 0 {
      run, t := [], s;
    } else {
      run, t := GatesPass(Next(s, Gate(user, 0)), user, k - 1, p);
      BurstCons(TheStepper(), s, Gate(user, 0), run, user, p, 0, t);
      run := [Gate(user, 0)] + run;
    }
  }

  /** A failure of the only username in the map sweeps nothing. */
  lemma FailureOfOnlyUser(s: State, user: string)
    requires user != "" && s.attempts.Keys <= {user} && s.InFlight(user) > 0 && s.clock == 0
    ensures Enabled(s, Failure(user, 0))
    ensures Next(s, Failure(user, 0)).attempts == map[user := Bumped(s.attempts, user, 0)]
  {
    var m := s.attempts[user := Bumped(s.attempts, user, 0)];
    assert m.Keys == {user};
    assert |m| == |m.Keys| == 1;
    assert m == map[user := Bumped(s.attempts, user, 0)];
  }

  /** `k` requests in flight all fail. */
  lemma {:induction false} AllFail(s: State, user: string, k: nat, p: nat) returns (run: seq<Step>, t: State)
    requires user != "" && s.attempts.Keys <= {user} && k <= s.InFlight(user) <= p && s.clock == 0
    ensures Burst(TheStepper(), s, run, user, p, k, t)
    decreases k
  {
    if k == 0 {
      run, t := [], s;
    } else {
      FailureOfOnlyUser(s, user);
      run, t := AllFail(Next(s, Failure(user, 0)), user, k - 1, p);
      BurstCons(TheStepper(), s, Failure(user, 0), run, user, p, k - 1, t);
      run := [Failure(user, 0)] + run;
    }
  }

  /** After `k` failures of one user, below the threshold, and nobody in flight. */
  function Failed(user: string, k: nat): State {
    if k == 0 then State(map[], map[], 0)
    else State(map[user := Attempt(k, None, 0)], map[user := 0], 0)
  }

  /** One more login that passes the gate and fails. */
  lemma OneFailedLogin(user: string, k: nat, p: nat)
    requires user != "" && k + 1 < MAX_LOGIN_ATTEMPTS && 1 <= p
    ensures Burst(TheStepper(), Failed(user, k), Login(user), user, p, 1, Failed(user, k + 1))
  {
    var t, g, f := Failed(user, k), Waiting(user, k), Failed(user, k + 1);
    GateThenFailure(user, k);
    BurstCons(TheStepper(), g, Failure(user, 0), [], user, p, 0, f);
    BurstCons(TheStepper(), t, Gate(user, 0), [Failure(user, 0)] + [], user, p, 1, f);
  }

  function Login(user: string): seq<Step> { [Gate(user, 0)] + ([Failure(user, 0)] + []) }

  /** After `k` failures, with one request behind the gate. */
  function Waiting(user: string, k: nat): State { State(Failed(user, k).attempts, map[user := 1], 0) }

  lemma GateThenFailure(user: string, k: nat)
    requires user != "" && k + 1 < MAX_LOGIN_ATTEMPTS
    ensures Enabled(Failed(user, k), Gate(user, 0)) && Next(Failed(user, k), Gate(user, 0)) == Waiting(user, k)
    ensures Enabled(Waiting(user, k), Failure(user, 0)) && Next(Waiting(user, k), Failure(user, 0)) == Failed(user, k + 1)
  {
    var g := Waiting(user, k);
    FailureOfOnlyUser(g, user);
    assert Next(g, Failure(user, 0)).pending == map[user := 0];
  }

  /** One login after the other, `k` times, from an empty map. */
  lemma SequentialFailures(user: string, k: nat, p: nat) returns (run: seq<Step>)
    requires user != "" && k < MAX_LOGIN_ATTEMPTS && 1 <= p
    ensures Burst(TheStepper(), Failed(user, 0), run, user, p, k, Failed(user, k))
  {
    forall j: nat | j < k ensures Burst(TheStepper(), Failed(user, j), Login(user), user, p, 1, Failed(user, j + 1)) {
      OneFailedLogin(user, j, p);
    }
    run := Repeated(TheStepper(), (j: nat) => Failed(user, j), Login(user), user, p, k);
  }

  /** The same steps `k` times, through the states `at(0)` to `at(k)`. */
  lemma {:induction false} Repeated(step: Stepper, at: nat -> State, once: seq<Step>, user: string, p: nat, k: nat)
    returns (run: seq<Step>)
    requires at(0).InFlight(user) <= p
    requires forall j: nat :: j < k ==> Burst(step, at(j), once, user, p, 1, at(j + 1))
    ensures Burst(step, at(0), run, user, p, k, at(k))
    decreases k
  {
    if k == 0 {
      run := [];
    } else {
      var before := Repeated(step, at, once, user, p, k - 1);
      run := JoinTwo(step, at(0), before, at(k - 1), once, at(k), user, p, k - 1, 1);
    }
  }

  /** Four failed logins, and then `p` requests at once behind the gate. */
  lemma FourAndGates(user: string, p: nat) returns (run: seq<Step>, u: State)
    requires user != "" && 1 <= p
    ensures Burst(TheStepper(), Failed(user, 0), run, user, p, 4, u)
    ensures u.attempts.Keys <= {user} && u.InFlight(user) == p && u.clock == 0
  {
    var four := SequentialFailures(user, 4, p);
    var gates;
    gates, u := GatesPass(Failed(user, 4), user, p, p);
    run := JoinTwo(TheStepper(), Failed(user, 0), four, Failed(user, 4), gates, u, user, p, 4, 0);
  }

  lemma LongestBurst(user: string, p: nat) returns (run: seq<Step>, v: State)
    requires user != "" && 1 <= p
    ensures Burst(TheStepper(), Failed(user, 0), run, user, p, 4 + p, v)
  {
    var front, u := FourAndGates(user, p);
    var fails;
    fails, v := AllFail(u, user, p, p);
    run := JoinTwo(TheStepper(), Failed(user, 0), front, u, fails, v, user, p, 4, p);
  }

  lemma JoinTwo(step: Stepper, s: State, a: seq<Step>, t: State, b: seq<Step>, u: State,
                user: string, p: nat, f: int, g: int) returns (run: seq<Step>)
    requires Burst(step, s, a, user, p, f, t) && Burst(step, t, b, user, p, g, u)
    ensures Burst(step, s, run, user, p, f + g, u)
  {
    BurstAppend(step, s, a, t, b, u, user, p, f, g);
    run := a + b;
  }

  /** The bound is exact: for every positive `p` there is a run from the empty map, at a single
      instant and with at most `p` requests in flight, that records 4 + p failures. */
  lemma RateBoundAttained(user: string, p: nat) returns (run: seq<Step>)
    requires user != "" && 1 <= p
    ensures var s := State(map[], map[], 0);
            && CanRun(s, run) && AtMostInFlight(s, run, user, p) && NoSuccess(run, user)
            && (forall j :: 0 <= j < |run| ==> run[j].at == 0)
            && Failures(run, user) == 4 + p
  {
    var v;
    run, v := LongestBurst(user, p);
    BurstMeans(Failed(user, 0), run, user, p, 4 + p, v);
  }

  // ---------------------------------------------------------------- what a lock stands for

  const EMPTY: State := State(map[], map[], 0)

  lemma {:induction false} RunSnoc(s: State, run: seq<Step>, e: Step)
    requires CanRun(s, run + [e])
    ensures CanRun(s, run) && Enabled(Run(s, run), e) && Run(s, run + [e]) == Next(Run(s, run), e)
    decreases |run|
  {
    if run == [] {
      assert [] + [e] == [e] && [e][1..] == [];
    } else {
      assert (run + [e])[0] == run[0] && (run + [e])[1..] == run[1..] + [e];
      RunSnoc(Next(s, run[0]), run[1..], e);
    }
  }

  lemma {:induction false} FailuresSnoc(run: seq<Step>, e: Step, user: string)
    ensures Failures(run + [e], user) == Failures(run, user) + if e.Failure? && e.user == user then 1 else 0
  {
    if run == [] {
      assert [] + [e] == [e] && [e][1..] == [];
    } else {
      assert (run + [e])[0] == run[0] && (run + [e])[1..] == run[1..] + [e];
      FailuresSnoc(run[1..], e, user);
    }
  }

  /** The user's gate at `e` finds a lock that has expired. */
  predicate FindsExpired(s: State, e: Step, user: string) {
    && e.Gate? && e.user == user && user in s.attempts
    && s.attempts[user].count >= MAX_LOGIN_ATTEMPTS
    && (s.attempts[user].lockedUntil.None? || s.attempts[user].lockedUntil.value <= e.at)
  }

  /** From step `k` on, the run has no success of the user and no gate of the user that finds an
      expired lock. */
  ghost predicate Unbroken(run: seq<Step>, user: string, k: nat)
    requires CanRun(EMPTY, run)
  {
    && k <= |run|
    && forall j :: k <= j < |run| ==>
         run[j] != Success(user, run[j].at) &&
         CanRun(EMPTY, run[..j]) && !FindsExpired(Run(EMPTY, run[..j]), run[j], user)
  }

  /** The entry of the user counts its failures from step `k` on, where it was absent. */
  ghost predicate CountsFrom(run: seq<Step>, user: string, k: nat)
    requires CanRun(EMPTY, run)
  {
    && Unbroken(run, user, k) && CanRun(EMPTY, run[..k]) && user !in Run(EMPTY, run[..k]).attempts
    && user in Run(EMPTY, run).attempts && Run(EMPTY, run).attempts[user].count == Failures(run[k..], user)
  }

  lemma UnbrokenSnoc(run: seq<Step>, e: Step, user: string, k: nat)
    requires CanRun(EMPTY, run) && CanRun(EMPTY, run + [e]) && Unbroken(run, user, k)
    requires e != Success(user, e.at) && !FindsExpired(Run(EMPTY, run), e, user)
    ensures Unbroken(run + [e], user, k)
  {
    var all := run + [e];
    forall j | k <= j < |all|
      ensures all[j] != Success(user, all[j].at) && CanRun(EMPTY, all[..j]) && !FindsExpired(Run(EMPTY, all[..j]), all[j], user)
    {
      if j < |run| {
        assert all[..j] == run[..j] && all[j] == run[j];
      } else {
        assert all[..j] == run;
      }
    }
  }

  /** What one step does to the entry of a user, if it is still there afterwards. */
  lemma EntryStep(s: State, e: Step, user: string)
    requires Enabled(s, e) && user != "" && user in Next(s, e).attempts
    ensures e != Success(user, e.at) && !FindsExpired(s, e, user)
    ensures if e.Failure? && e.user == user
            then Next(s, e).attempts[user].count == 1 + if user in s.attempts then s.attempts[user].count else 0
            else user in s.attempts && Next(s, e).attempts[user] == s.attempts[user]
  {
  }

  /** An entry counts the failures of its user since a point at which it had none, with no
      success of the user and no expired lock found by a gate of the user in between: a success
      and an expiry forget everything. */
  lemma {:induction false} EntryCountsFailures(run: seq<Step>, user: string) returns (k: nat)
    requires CanRun(EMPTY, run) && user != "" && user in Run(EMPTY, run).attempts
    ensures CountsFrom(run, user, k)
    decreases |run|
  {
    assert run != [];
    var before, e := run[..|run| - 1], run[|run| - 1];
    SnocSplit(run);
    RunSnoc(EMPTY, before, e);
    if user in Run(EMPTY, before).attempts {
      k := EntryCountsFailures(before, user);
      CountGoesOn(before, e, user, k);
    } else {
      k := |before|;
      CountBegins(before, e, user);
    }
  }

  lemma CountGoesOn(run: seq<Step>, e: Step, user: string, k: nat)
    requires CanRun(EMPTY, run) && CanRun(EMPTY, run + [e]) && user != "" && user in Run(EMPTY, run + [e]).attempts
    requires CountsFrom(run, user, k)
    ensures CountsFrom(run + [e], user, k)
  {
    RunSnoc(EMPTY, run, e);
    EntryStep(Run(EMPTY, run), e, user);
    UnbrokenSnoc(run, e, user, k);
    assert (run + [e])[..k] == run[..k] && (run + [e])[k..] == run[k..] + [e];
    FailuresSnoc(run[k..], e, user);
  }

  lemma CountBegins(run: seq<Step>, e: Step, user: string)
    requires CanRun(EMPTY, run) && CanRun(EMPTY, run + [e]) && user != "" && user in Run(EMPTY, run + [e]).attempts
    requires user !in Run(EMPTY, run).attempts
    ensures CountsFrom(run + [e], user, |run|)
  {
    RunSnoc(EMPTY, run, e);
    EntryStep(Run(EMPTY, run), e, user);
    UnbrokenSnoc(run, e, user, |run|);
    assert (run + [e])[..|run|] == run && (run + [e])[|run|..] == [] + [e];
    FailuresSnoc([], e, user);
  }

  /** A locked user has failed five times since its last success and since the last gate that
      found an expired lock of it. */
  lemma LockedMeansFiveFailures(run: seq<Step>, user: string, now: int) returns (k: nat)
    requires CanRun(EMPTY, run) && Locked(Run(EMPTY, run).attempts, user, now)
    ensures Unbroken(run, user, k) && Failures(run[k..], user) >= 5
  {
    k := EntryCountsFailures(run, user);
  }

  /** A success gives the user four free failures: if fewer than five of its failures follow a
      success of the user, nobody finds it locked. */
  lemma SuccessForgets(run: seq<Step>, user: string, i: nat, now: int)
    requires CanRun(EMPTY, run) && i < |run| && run[i] == Success(user, run[i].at)
    requires Failures(run[i + 1..], user) < 5
    ensures !Locked(Run(EMPTY, run).attempts, user, now)
  {
    if Locked(Run(EMPTY, run).attempts, user, now) {
      var k := LockedMeansFiveFailures(run, user, now);
      assert k > i;
      assert run[i + 1..][k - i - 1..] == run[k..];
      FewerLater(run[i + 1..], user, k - i - 1);
    }
  }

  lemma {:induction false} FewerLater(run: seq<Step>, user: string, k: nat)
    requires k <= |run|
    ensures Failures(run[k..], user) <= Failures(run, user)
  {
    if k > 0 {
      assert run[1..][k - 1..] == run[k..];
      FewerLater(run[1..], user, k - 1);
    } else {
      assert run[0..] == run;
    }
  }

  // ---------------------------------------------------------------- the size of the map

  /** The entries that a sweep at `now` keeps. */
  function Recent(m: Attempts, now: int): set<string> { set u | u in m && !Stale(m[u], now) }

  /** The sweep does not cap the map: below its threshold it removes nothing, and above it
      keeps every recent entry. */
  lemma SizeAfterFailure(m: Attempts, user: string, now: int)
    requires user != ""
    ensures var b := m[user := Bumped(m, user, now)];
            |AfterFailure(m, user, now)| == if |b| < MAX_ATTEMPTS_MAP then |b| else |Recent(b, now)|
  {
    var b := m[user := Bumped(m, user, now)];
    if |b| >= MAX_ATTEMPTS_MAP {
      var p := Pruned(b, now);
      assert p.Keys == Recent(b, now);
      assert |p| == |p.Keys|;
    }
  }

  /** Every entry stands for a failure of its user in the history, not later than `clock`, and
      its lock does not outlast that failure by more than the lockout. */
  ghost predicate Recorded(hist: seq<Step>, m: Attempts, clock: int) {
    forall u :: u in m ==>
      && Failure(u, m[u].lastSeen) in hist && m[u].lastSeen <= clock
      && (m[u].lockedUntil.Some? ==> m[u].lockedUntil.value <= m[u].lastSeen + LOCKOUT)
  }

  lemma BumpedRecorded(m: Attempts, e: Step, hist: seq<Step>, clock: int)
    requires Recorded(hist, m, clock) && clock <= e.at && e.Failure?
    ensures Recorded(hist + [e], m[e.user := Bumped(m, e.user, e.at)], e.at)
  {
    assert e in hist + [e] && e == Failure(e.user, e.at);
    assert forall f :: f in hist ==> f in hist + [e];
  }

  lemma RecordedStep(s: State, e: Step, hist: seq<Step>)
    requires Enabled(s, e) && Recorded(hist, s.attempts, s.clock)
    ensures Recorded(hist + [e], Next(s, e).attempts, Next(s, e).clock)
  {
    assert forall f :: f in hist ==> f in hist + [e];
    if e.Failure? && e.user != "" { BumpedRecorded(s.attempts, e, hist, s.clock); }
  }

  lemma {:induction false} RunRecorded(s: State, run: seq<Step>, hist: seq<Step>)
    requires CanRun(s, run) && Recorded(hist, s.attempts, s.clock)
    ensures Recorded(hist + run, Run(s, run).attempts, Run(s, run).clock)
    decreases |run|
  {
    if run == [] {
      Units(hist);
    } else {
      RecordedStep(s, run[0], hist);
      RunRecorded(Next(s, run[0]), run[1..], hist + [run[0]]);
      assert hist + [run[0]] + run[1..] == hist + run;
    }
  }

  /** The users of the failures of a run within the lockout before `now`. */
  function RecentFailures(run: seq<Step>, now: int): set<string> {
    set k | 0 <= k < |run| && run[k].Failure? && run[k].at >= now - LOCKOUT :: run[k].user
  }

  lemma SubsetSize(a: set<string>, b: set<string>)
    requires a <= b
    ensures |a| <= |b|
  {
    assert b == a + (b - a);
  }

  lemma RecentAreFailures(hist: seq<Step>, m: Attempts, now: int)
    requires Recorded(hist, m, now)
    ensures |Recent(m, now)| <= |RecentFailures(hist, now)|
  {
    forall u | u in Recent(m, now) ensures u in RecentFailures(hist, now) {
      assert Failure(u, m[u].lastSeen) in hist;
      var k :| 0 <= k < |hist| && hist[k] == Failure(u, m[u].lastSeen);
      assert hist[k].user == u && hist[k].at >= now - LOCKOUT;
    }
    SubsetSize(Recent(m, now), RecentFailures(hist, now));
  }

  /** How large the map gets: after any run from the empty map that ends with a failure, it
      holds at most the larger of 2047 entries and the number of users that failed within the
      15 minutes before. */
  lemma MapSizeBound(run: seq<Step>, last: Step)
    requires CanRun(State(map[], map[], 0), run) && Enabled(Run(State(map[], map[], 0), run), last)
    requires last.Failure? && last.user != ""
    ensures var m := Next(Run(State(map[], map[], 0), run), last).attempts;
            |m| < 2048 || |m| <= |RecentFailures(run + [last], last.at)|
  {
    var s := Run(State(map[], map[], 0), run);
    RunRecorded(State(map[], map[], 0), run, []);
    Units(run);
    BumpedRecorded(s.attempts, last, run, s.clock);
    SizeAfterFailure(s.attempts, last.user, last.at);
    RecentAreFailures(run + [last], s.attempts[last.user := Bumped(s.attempts, last.user, last.at)], last.at);
  }

  /** `k` users have failed once, all at instant zero, with names of at most `k` letters. */
  ghost predicate Crowd(s: State, k: nat) {
    && |s.attempts| == k && s.clock == 0
    && forall u :: u in s.attempts ==> |u| <= k && s.attempts[u].lastSeen == 0
  }

  lemma NothingStale(m: Attempts)
    requires forall u :: u in m ==> m[u].lastSeen == 0
    ensures Pruned(m, 0) == m
  {
    var kept := map u | u in m && !Stale(m[u], 0) :: m[u];
    assert forall u :: u in m ==> u in kept && kept[u] == m[u];
    assert kept == m;
  }

  lemma SizeOfInsert(m: Attempts, user: string, a: Attempt)
    requires user !in m
    ensures |m[user := a]| == |m| + 1
  {
    assert m[user := a].Keys == m.Keys + {user};
    assert |m[user := a]| == |m[user := a].Keys| && |m| == |m.Keys|;
  }

  lemma NewUserFails(m: Attempts, user: string)
    requires user != "" && user !in m && forall u :: u in m ==> m[u].lastSeen == 0
    ensures AfterGate(m, user, 0) == m && AfterFailure(m, user, 0) == m[user := Attempt(1, None, 0)]
    ensures |AfterFailure(m, user, 0)| == |m| + 1
  {
    NothingStale(m[user := Attempt(1, None, 0)]);
    SizeOfInsert(m, user, Attempt(1, None, 0));
  }

  lemma OneMoreUser(s: State, k: nat) returns (user: string)
    requires Crowd(s, k)
    ensures Enabled(s, Gate(user, 0)) && Enabled(Next(s, Gate(user, 0)), Failure(user, 0))
    ensures Crowd(Next(Next(s, Gate(user, 0)), Failure(user, 0)), k + 1)
  {
    user := seq(k + 1, _ => 'u');
    NewUserFails(s.attempts, user);
  }

  lemma {:induction false} CrowdGrows(s: State, k: nat, n: nat) returns (run: seq<Step>)
    requires Crowd(s, k) && k <= n
    ensures CanRun(s, run) && |Run(s, run).attempts| == n
    decreases n - k
  {
    run := [];
    if k < n {
      var user := OneMoreUser(s, k);
      var s1 := Next(s, Gate(user, 0));
      var rest := CrowdGrows(Next(s1, Failure(user, 0)), k + 1, n);
      var tail := [Failure(user, 0)] + rest;
      run := [Gate(user, 0)] + tail;
      assert run[1..] == tail && tail[1..] == rest;
    }
  }

  /** The map has no cap: for every number there is a run after which it has that many
      entries. */
  lemma MapHasNoCap(n: nat) returns (run: seq<Step>)
    ensures CanRun(State(map[], map[], 0), run) && |Run(State(map[], map[], 0), run).attempts| == n
  {
    run := CrowdGrows(State(map[], map[], 0), 0, n);
  }
}
