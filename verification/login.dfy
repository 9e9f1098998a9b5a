/** Counting failed logins in memory: a fixed window that opens with the first failure. */
module Login {
  import opened Prelude

  const LOGIN_MAX_FAILS := 5
  const LOCK_TTL_MS := 15 * 60 * 1000

  datatype Entry = Entry(count: nat, expiresAt: int)

  type Cache = map<string, Entry>

  datatype Outcome = Locked | Failure | Success

  /**
   One login for one identifier. The clock is read twice: when the counter is looked up and when the failure is
   recorded or the counter cleared.
  */
  datatype Attempt = Attempt(key: string, checkAt: int, recordAt: int, correct: bool)

  /** What is known of a finished attempt; a locked one ends at its check. */
  datatype Logged = Logged(key: string, at: int, outcome: Outcome)

  // ---------------------------------------------------------------- the counter as a function

  function Purged(c: Cache, key: string, now: int): Cache {
    if key in c && c[key].expiresAt < now then c - {key} else c
  }

  function FailCount(c: Cache, key: string, now: int): nat {
    if key in c && c[key].expiresAt >= now then c[key].count else 0
  }

  function Recorded(c: Cache, key: string, now: int): Cache {
    if key in c && c[key].expiresAt >= now then c[key := Entry(c[key].count + 1, c[key].expiresAt)]
    else c[key := Entry(1, now + LOCK_TTL_MS)]
  }

  function Verdict(c: Cache, a: Attempt): Logged {
    if FailCount(c, a.key, a.checkAt) >= LOGIN_MAX_FAILS then Logged(a.key, a.checkAt, Locked)
    else Logged(a.key, a.recordAt, if a.correct then Success else Failure)
  }

  function After(c: Cache, a: Attempt): Cache {
    var checked := Purged(c, a.key, a.checkAt);
    match Verdict(c, a).outcome
    case Locked => checked
    case Failure => Recorded(checked, a.key, a.recordAt)
    case Success => checked - {a.key}
  }

  // ---------------------------------------------------------------- runs

  function CacheAfter(run: seq<Attempt>): Cache {
    if run == [] then map[] else After(CacheAfter(run[..|run| - 1]), run[|run| - 1])
  }

  function Log(run: seq<Attempt>): (log: seq<Logged>)
    ensures |log| == |run|
  {
    if run == [] then []
    else Log(run[..|run| - 1]) + [Verdict(CacheAfter(run[..|run| - 1]), run[|run| - 1])]
  }

  /** Logins run one after the other under a clock that never steps back. */
  predicate Monotone(run: seq<Attempt>) {
    && (forall k :: 0 <= k < |run| ==> run[k].checkAt <= run[k].recordAt)
    && forall k :: 0 < k < |run| ==> run[k - 1].recordAt <= run[k].checkAt
  }

  predicate Within(l: Logged, key: string, from: int, to: int) {
    l.key == key && from <= l.at <= to
  }

  /** Failed password checks for one identifier in a closed interval. */
  function Failures(log: seq<Logged>, key: string, from: int, to: int): nat {
    if log == [] then 0
    else
      var l := log[|log| - 1];
      Failures(log[..|log| - 1], key, from, to) + if Within(l, key, from, to) && l.outcome == Failure then 1 else 0
  }

  ghost predicate NoSuccess(log: seq<Logged>, key: string, from: int, to: int) {
    forall k :: 0 <= k < |log| && Within(log[k], key, from, to) ==> log[k].outcome != Success
  }

  function Opened(e: Entry): int { e.expiresAt - LOCK_TTL_MS }

  /** How a counter relates to the `n` failures counted since `from`, when the clock shows at most `now`. */
  predicate Explains(e: Option<Entry>, n: nat, from: int, now: int) {
    && n <= 9
    && (now <= from + LOCK_TTL_MS ==>
          match e
          case None => n == 0
          case Some(w) =>
            && 1 <= w.count <= LOGIN_MAX_FAILS && Opened(w) <= now
            && (now < from ==> n == 0)
            && (if Opened(w) < from then n < w.count else n <= 4 + w.count))
  }

  function Get(c: Cache, key: string): Option<Entry> {
    if key in c then Some(c[key]) else None
  }

  /** Counting further preserves the relation. */
  lemma AttemptExplains(c: Cache, a: Attempt, key: string, n: nat, from: int, now: int)
    requires Explains(Get(c, key), n, from, now) && now <= a.checkAt <= a.recordAt
    requires var l := Verdict(c, a); Within(l, key, from, from + LOCK_TTL_MS) ==> l.outcome != Success
    ensures var l := Verdict(c, a);
            var m := if Within(l, key, from, from + LOCK_TTL_MS) && l.outcome == Failure then n + 1 else n;
            Explains(Get(After(c, a), key), m, from, a.recordAt)
  {
    if a.key != key {
      assert Get(After(c, a), key) == Get(c, key);
    }
  }

  lemma {:induction false} RunExplains(run: seq<Attempt>, key: string, from: int)
    requires run != [] && Monotone(run) && NoSuccess(Log(run), key, from, from + LOCK_TTL_MS)
    ensures Explains(Get(CacheAfter(run), key), Failures(Log(run), key, from, from + LOCK_TTL_MS), from,
                     run[|run| - 1].recordAt)
  {
    var n := |run| - 1;
    var before := run[..n];
    if n > 0 {
      forall k | 0 <= k < n && Within(Log(before)[k], key, from, from + LOCK_TTL_MS)
        ensures Log(before)[k].outcome != Success
      {
        assert Log(run)[k] == Log(before)[k];
      }
      RunExplains(before, key, from);
      AttemptExplains(CacheAfter(before), run[n], key, Failures(Log(before), key, from, from + LOCK_TTL_MS), from,
                      before[n - 1].recordAt);
    } else {
      assert Log(run)[..0] == [];
      AttemptExplains(map[], run[0], key, 0, from, run[0].checkAt);
    }
  }

  /**
   Any closed fifteen-minute interval without a successful login holds at most nine failed checks of one identifier.
  */
  lemma AtMostNineFailures(run: seq<Attempt>, key: string, from: int)
    requires Monotone(run) && NoSuccess(Log(run), key, from, from + 900000)
    ensures Failures(Log(run), key, from, from + 900000) <= 9
  {
    if run != [] {
      RunExplains(run, key, from);
    }
  }

  // ---------------------------------------------------------------- one window, and how sharp the bound is

  lemma FailuresSplit(log: seq<Logged>, l: Logged, key: string, from: int, to: int)
    ensures Failures(log + [l], key, from, to) ==
            Failures(log, key, from, to) + if Within(l, key, from, to) && l.outcome == Failure then 1 else 0
  {
    assert (log + [l])[..|log|] == log;
  }

  /**
   Attempt `k` failed when no counter was live, and so opened a window; its own check may still have seen one that
   expired before the failure was recorded.
  */
  predicate OpensWindow(run: seq<Attempt>, k: nat)
    requires k < |run|
  {
    var c := CacheAfter(run[..k]);
    !run[k].correct && FailCount(c, run[k].key, run[k].checkAt) < LOGIN_MAX_FAILS
    && (run[k].key in c ==> c[run[k].key].expiresAt < run[k].recordAt)
  }

  predicate InWindow(e: Option<Entry>, n: nat, since: int, now: int) {
    && n <= LOGIN_MAX_FAILS
    && (now <= since + LOCK_TTL_MS ==> e.Some? && Opened(e.value) == since && e.value.count == n)
    && (e.Some? ==> Opened(e.value) == since || since + LOCK_TTL_MS < Opened(e.value))
    && (e.Some? && Opened(e.value) == since ==> e.value.count == n)
  }

  lemma WindowStep(log: seq<Logged>, c: Cache, a: Attempt, key: string, since: int, now: int)
    requires InWindow(Get(c, key), Failures(log, key, since, since + LOCK_TTL_MS), since, now)
    requires since <= now <= a.checkAt <= a.recordAt
    requires Within(Verdict(c, a), key, since, since + LOCK_TTL_MS) ==> Verdict(c, a).outcome != Success
    ensures InWindow(Get(After(c, a), key), Failures(log + [Verdict(c, a)], key, since, since + LOCK_TTL_MS), since,
                     a.recordAt)
  {
    FailuresSplit(log, Verdict(c, a), key, since, since + LOCK_TTL_MS);
  }

  lemma OpeningInWindow(c: Cache, a: Attempt)
    requires !a.correct && FailCount(c, a.key, a.checkAt) < LOGIN_MAX_FAILS
    requires a.key in c ==> c[a.key].expiresAt < a.recordAt
    ensures InWindow(Get(After(c, a), a.key), Failures([Verdict(c, a)], a.key, a.recordAt, a.recordAt + LOCK_TTL_MS),
                     a.recordAt, a.recordAt)
  {
    FailuresSplit([], Verdict(c, a), a.key, a.recordAt, a.recordAt + LOCK_TTL_MS);
    assert [] + [Verdict(c, a)] == [Verdict(c, a)];
  }

  /** The log of a run from attempt `k` on. */
  function LogFrom(run: seq<Attempt>, k: nat): seq<Logged>
    requires k <= |run|
  {
    Log(run)[k..]
  }

  lemma LogFromPush(run: seq<Attempt>, k: nat)
    requires k < |run|
    ensures LogFrom(run, k) == LogFrom(run[..|run| - 1], k) + [Verdict(CacheAfter(run[..|run| - 1]), run[|run| - 1])]
  {
  }

  lemma NoSuccessPrefix(log: seq<Logged>, l: Logged, key: string, from: int, to: int)
    requires NoSuccess(log + [l], key, from, to)
    ensures NoSuccess(log, key, from, to) && (Within(l, key, from, to) ==> l.outcome != Success)
  {
    assert (log + [l])[|log|] == l;
    forall k | 0 <= k < |log| && Within(log[k], key, from, to) ensures log[k].outcome != Success {
      assert (log + [l])[k] == log[k];
    }
  }

  predicate WindowHolds(run: seq<Attempt>, k: nat, key: string, since: int)
    requires k <= |run| && run != []
  {
    && since <= run[|run| - 1].recordAt
    && InWindow(Get(CacheAfter(run), key), Failures(LogFrom(run, k), key, since, since + LOCK_TTL_MS), since,
                run[|run| - 1].recordAt)
  }

  lemma WindowStarts(run: seq<Attempt>)
    requires run != [] && OpensWindow(run, |run| - 1)
    ensures WindowHolds(run, |run| - 1, run[|run| - 1].key, run[|run| - 1].recordAt)
  {
    LogFromPush(run, |run| - 1);
    assert LogFrom(run[..|run| - 1], |run| - 1) == [];
    OpeningInWindow(CacheAfter(run[..|run| - 1]), run[|run| - 1]);
  }

  lemma WindowContinues(run: seq<Attempt>, k: nat, key: string, since: int)
    requires k < |run| - 1 && Monotone(run) && WindowHolds(run[..|run| - 1], k, key, since)
    requires NoSuccess(LogFrom(run, k), key, since, since + LOCK_TTL_MS)
    ensures WindowHolds(run, k, key, since)
  {
    var n := |run| - 1;
    var before, c := run[..n], CacheAfter(run[..n]);
    LogFromPush(run, k);
    NoSuccessPrefix(LogFrom(before, k), Verdict(c, run[n]), key, since, since + LOCK_TTL_MS);
    WindowStep(LogFrom(before, k), c, run[n], key, since, before[n - 1].recordAt);
  }

  lemma {:induction false} RunInWindow(run: seq<Attempt>, k: nat, key: string, since: int)
    requires k < |run| && Monotone(run) && OpensWindow(run, k) && key == run[k].key && since == run[k].recordAt
    requires NoSuccess(LogFrom(run, k), key, since, since + LOCK_TTL_MS)
    ensures WindowHolds(run, k, key, since)
  {
    if k == |run| - 1 {
      WindowStarts(run);
    } else {
      var before := run[..|run| - 1];
      assert before[..k] == run[..k];
      LogFromPush(run, k);
      NoSuccessPrefix(LogFrom(before, k), Verdict(CacheAfter(before), run[|run| - 1]), key, since, since + LOCK_TTL_MS);
      RunInWindow(before, k, key, since);
      WindowContinues(run, k, key, since);
    }
  }

  /** From the failure that opens a window, at most five fall into it while no login succeeds. */
  lemma AtMostFivePerWindow(run: seq<Attempt>, k: nat)
    requires k < |run| && Monotone(run) && OpensWindow(run, k)
    requires NoSuccess(LogFrom(run, k), run[k].key, run[k].recordAt, run[k].recordAt + 900000)
    ensures Failures(LogFrom(run, k), run[k].key, run[k].recordAt, run[k].recordAt + 900000) <= 5
  {
    RunInWindow(run, k, run[k].key, run[k].recordAt);
  }

  lemma Push(run: seq<Attempt>, a: Attempt)
    ensures CacheAfter(run + [a]) == After(CacheAfter(run), a)
    ensures Log(run + [a]) == Log(run) + [Verdict(CacheAfter(run), a)]
  {
    assert (run + [a])[..|run|] == run;
  }

  /** `m` more failures at one moment, while the counter is live and below its limit. */
  lemma {:induction false} FailTimes(run: seq<Attempt>, key: string, at: int, m: nat, from: int, to: int)
    returns (longer: seq<Attempt>)
    requires Monotone(run) && run != [] && run[|run| - 1].recordAt <= at
    requires key in CacheAfter(run) && CacheAfter(run)[key].expiresAt >= at
             && CacheAfter(run)[key].count + m <= LOGIN_MAX_FAILS
    requires from <= at <= to && NoSuccess(Log(run), key, from, to)
    ensures Monotone(longer) && |longer| == |run| + m && longer[|longer| - 1].recordAt <= at
    ensures key in CacheAfter(longer)
    ensures CacheAfter(longer)[key] == Entry(CacheAfter(run)[key].count + m, CacheAfter(run)[key].expiresAt)
    ensures NoSuccess(Log(longer), key, from, to)
    ensures Failures(Log(longer), key, from, to) == Failures(Log(run), key, from, to) + m
    decreases m
  {
    hide CacheAfter, Log, Failures;
    longer := run;
    if m > 0 {
      var a := Attempt(key, at, at, false);
      Push(run, a);
      FailuresSplit(Log(run), Verdict(CacheAfter(run), a), key, from, to);
      longer := FailTimes(run + [a], key, at, m - 1, from, to);
    }
  }

  /** The bound of nine is reached: one failure before the interval, four at the end of its window, five right after. */
  lemma NineIsReached(key: string, from: int) returns (run: seq<Attempt>)
    ensures Monotone(run) && NoSuccess(Log(run), key, from, from + 900000)
    ensures Failures(Log(run), key, from, from + 900000) == 9
  {
    var to := from + LOCK_TTL_MS;
    var four := FailTimes([Attempt(key, from - 1, from - 1, false)], key, to - 1, 4, from, to);
    var next := Attempt(key, to, to, false);
    Push(four, next);
    run := FailTimes(four + [next], key, to, 4, from, to);
  }

  // ---------------------------------------------------------------- the service

  datatype LoginError = MissingCredentials | AccountLocked | InvalidCredentials

  datatype Reason = LockedOut | UnknownAccount | WrongPassword | LoggedIn

  /** An absent or empty phone number falls back to the e-mail address. */
  function Identifier(phone: Option<string>, email: Option<string>): (r: Option<string>)
    ensures r.Some? ==> r.value != "" && (r == phone || r == email)
    ensures phone.Some? && phone.value != "" ==> r == phone
    ensures r.None? <==> (phone.None? || phone.value == "") && (email.None? || email.value == "")
  {
    if phone.Some? && phone.value != "" then phone
    else if email.Some? && email.value != "" then email
    else None
  }

  function LockKey(identifier: string): string { "login:fail:" + identifier }

  /** A counter that has not expired; its last millisecond still counts. */
  ghost predicate Live(c: Cache, key: string, now: int) { key in c && now <= c[key].expiresAt }

  /** Five counted failures lock; otherwise the password decides. */
  ghost predicate LoginAnswer(c: Cache, key: string, checkAt: int, correct: bool, r: Result<(), LoginError>) {
    var locked := Live(c, key, checkAt) && c[key].count >= 5;
    r == if locked then Err(AccountLocked) else if correct then Ok(()) else Err(InvalidCredentials)
  }

  /**
   What a login does to the counters: success clears the identifier's own, a failure counts in a live window or opens
   one of fifteen minutes, a locked login changes nothing. Other counters are left alone.
  */
  ghost predicate CountersAfter(c: Cache, key: string, checkAt: int, recordAt: int, r: Result<(), LoginError>,
                                c': Cache)
  {
    && (forall k :: k != key ==> (k in c' <==> k in c) && (k in c ==> c'[k] == c[k]))
    && (r == Ok(()) ==> key !in c')
    && (r == Err(AccountLocked) ==> c' == c)
    && (r == Err(InvalidCredentials) ==>
          key in c'
          && c'[key] == if Live(c, key, checkAt) && Live(c, key, recordAt)
                        then Entry(c[key].count + 1, c[key].expiresAt) else Entry(1, recordAt + 900000))
  }

  class AuthService {
    var memoryFailCache: Cache
    var loginLogs: seq<Reason>

    constructor ()
      ensures memoryFailCache == map[] && loginLogs == []
    {
      memoryFailCache := map[];
      loginLogs := [];
    }

    method GetFailCount(key: string, now: int) returns (count: nat)
      modifies this`memoryFailCache
      ensures memoryFailCache == Purged(old(memoryFailCache), key, now)
      ensures count == FailCount(old(memoryFailCache), key, now)
      ensures count == if Live(old(memoryFailCache), key, now) then old(memoryFailCache)[key].count else 0
    {
      if key !in memoryFailCache {
        return 0;
      }
      if memoryFailCache[key].expiresAt < now {
        memoryFailCache := memoryFailCache - {key};
        return 0;
      }
      count := memoryFailCache[key].count;
    }

    method RecordFailure(key: string, now: int)
      modifies this`memoryFailCache
      ensures memoryFailCache == Recorded(old(memoryFailCache), key, now)
      ensures key in memoryFailCache
              && memoryFailCache[key] ==
                 if Live(old(memoryFailCache), key, now)
                 then Entry(old(memoryFailCache)[key].count + 1, old(memoryFailCache)[key].expiresAt)
                 else Entry(1, now + 900000)
    {
      if key !in memoryFailCache || memoryFailCache[key].expiresAt < now {
        memoryFailCache := memoryFailCache[key := Entry(1, now + LOCK_TTL_MS)];
      } else {
        var entry := memoryFailCache[key];
        memoryFailCache := memoryFailCache[key := Entry(entry.count + 1, entry.expiresAt)];
      }
    }

    method ClearFailCount(key: string)
      modifies this`memoryFailCache
      ensures memoryFailCache == old(memoryFailCache) - {key}
    {
      memoryFailCache := memoryFailCache - {key};
    }

    /** `account` is what the credential lookup and the password comparison yield. */
    method LogIn(phone: Option<string>, email: Option<string>, account: Option<bool>, checkAt: int, recordAt: int)
      returns (r: Result<(), LoginError>)
      modifies this`memoryFailCache, this`loginLogs
      ensures r == Err(MissingCredentials) <==> Identifier(phone, email).None?
      ensures r == Err(MissingCredentials) ==> memoryFailCache == old(memoryFailCache) && loginLogs == old(loginLogs)
      ensures Identifier(phone, email).Some? ==>
                (var a := Attempt(LockKey(Identifier(phone, email).value), checkAt, recordAt, account == Some(true));
                 && memoryFailCache == After(old(memoryFailCache), a)
                 && |loginLogs| == |old(loginLogs)| + 1 && loginLogs[..|old(loginLogs)|] == old(loginLogs)
                 && match Verdict(old(memoryFailCache), a).outcome
                    case Locked => r == Err(AccountLocked) && loginLogs[|old(loginLogs)|] == LockedOut
                    case Failure =>
                      && r == Err(InvalidCredentials)
                      && loginLogs[|old(loginLogs)|] == if account.None? then UnknownAccount else WrongPassword
                    case Success => r == Ok(()) && loginLogs[|old(loginLogs)|] == LoggedIn)
      ensures Identifier(phone, email).Some? ==>
                (var key := "login:fail:" + Identifier(phone, email).value;
                 && LoginAnswer(old(memoryFailCache), key, checkAt, account == Some(true), r)
                 && CountersAfter(old(memoryFailCache), key, checkAt, recordAt, r, memoryFailCache))
    {
      var identifier := Identifier(phone, email);
      if identifier.None? {
        return Err(MissingCredentials);
      }
      var lockKey := LockKey(identifier.value);
      var failCount := GetFailCount(lockKey, checkAt);
      if failCount >= LOGIN_MAX_FAILS {
        loginLogs := loginLogs + [LockedOut];
        return Err(AccountLocked);
      }
      if account.None? {
        RecordFailure(lockKey, recordAt);
        loginLogs := loginLogs + [UnknownAccount];
        return Err(InvalidCredentials);
      }
      if !account.value {
        RecordFailure(lockKey, recordAt);
        loginLogs := loginLogs + [WrongPassword];
        return Err(InvalidCredentials);
      }
      ClearFailCount(lockKey);
      loginLogs := loginLogs + [LoggedIn];
      return Ok(());
    }
  }
}
