/** Account lockout around password verification. */
module Lockout {
  import opened TrackIds
  import opened Text

  datatype Settings = Settings(maxFailedAttempts: int, lockoutDuration: real)

  datatype User = User(failedAttempts: int, lockedUntil: Option<real>, lastLogin: Option<real>)

  /** One login attempt on an existing account: when, whether the password matches, and whether the
      account is active at that time. */
  datatype Attempt = Attempt(now: real, matches: bool, active: bool)

  predicate Locked(u: User, now: real) { u.lockedUntil.Some? && u.lockedUntil.value > now }

  predicate Succeeds(u: User, a: Attempt) { !Locked(u, a.now) && a.matches && a.active }

  function Step(cfg: Settings, u: User, a: Attempt): User {
    if Locked(u, a.now) then u
    else if a.matches && a.active then User(0, None, Some(a.now))
    else
      var failed := u.failedAttempts + 1;
      u.(failedAttempts := failed,
         lockedUntil := if failed >= cfg.maxFailedAttempts then Some(a.now + cfg.lockoutDuration) else None)
  }

  /** What the caller sees: a user on success; one and the same error otherwise. */
  datatype LoginResult = LoggedIn | InvalidCredentials

  /** A user with the two names it can log in by, both stored in normal form. */
  datatype Account = Account(username: string, email: string, user: User)

  function Normalized(identifier: string): string { Lower(Strip(identifier)) }

  /** The accounts an identifier finds, by user name or by e-mail address. */
  function Matching(accounts: map<Id, Account>, identifier: string): set<Id> {
    var name := Normalized(identifier);
    set id | id in accounts && (accounts[id].username == name || accounts[id].email == name)
  }

  /** No name of an account is a name of another. */
  ghost predicate NamesApart(accounts: map<Id, Account>) {
    forall a, b | a in accounts && b in accounts && a != b ::
      {accounts[a].username, accounts[a].email} * {accounts[b].username, accounts[b].email} == {}
  }

  /** Whichever of its names is used, in whatever case and with whatever white space around it, an attempt
      goes to the one account that has it, and so to one counter and one lock. */
  lemma EitherName(accounts: map<Id, Account>, id: Id, x: string, y: string)
    requires NamesApart(accounts) && id in accounts
    requires Normalized(x) == accounts[id].username && Normalized(y) == accounts[id].email
    ensures Matching(accounts, x) == Matching(accounts, y) == {id}
  {
    hide Normalized;
    forall other | other in accounts && other != id
      ensures other !in Matching(accounts, x) && other !in Matching(accounts, y)
    {
      var mine, theirs := {accounts[id].username, accounts[id].email},
          {accounts[other].username, accounts[other].email};
      assert mine * theirs == {};
      assert accounts[id].username !in mine * theirs && accounts[id].email !in mine * theirs;
    }
  }

  class AuthService {
    const cfg: Settings
    var accounts: map<Id, Account>

    constructor (cfg: Settings, accounts: map<Id, Account>)
      ensures this.cfg == cfg && this.accounts == accounts
    {
      this.cfg := cfg;
      this.accounts := accounts;
    }

    /** The database may return any of the matching accounts. */
    method FindUser(identifier: string) returns (found: Option<Id>)
      ensures found == None <==> Matching(accounts, identifier) == {}
      ensures found.Some? ==> found.value in Matching(accounts, identifier)
    {
      var ids := Matching(accounts, identifier);
      if ids == {} {
        return None;
      }
      var id :| id in ids;
      found := Some(id);
    }

    /** An unknown name, a locked account, a wrong password and an inactive account all give the same
        answer; only the account found changes, as `Step` says; `checked` tells whether the password
        was looked at. */
    method VerifyCredentials(identifier: string, a: Attempt)
        returns (found: Option<Id>, result: LoginResult, checked: bool)
      modifies this
      ensures found == None <==> Matching(old(accounts), identifier) == {}
      ensures found == None ==> accounts == old(accounts) && result == InvalidCredentials && !checked
      ensures found.Some? ==>
                && found.value in Matching(old(accounts), identifier)
                && var account := old(accounts)[found.value];
                && accounts == old(accounts)[found.value := account.(user := Step(cfg, account.user, a))]
                && (result == LoggedIn <==> Succeeds(account.user, a))
                && checked == !Locked(account.user, a.now)
    {
      found := FindUser(identifier);
      if found == None {
        return None, InvalidCredentials, false;
      }
      var account := accounts[found.value];
      var user := account.user;
      if user.lockedUntil.Some? {
        if user.lockedUntil.value > a.now {
          assert accounts == accounts[found.value := account];
          return found, InvalidCredentials, false;
        }
        user := user.(lockedUntil := None);
      }
      var valid := a.matches;
      if !valid || !a.active {
        user := user.(failedAttempts := user.failedAttempts + 1);
        if user.failedAttempts >= cfg.maxFailedAttempts {
          user := user.(lockedUntil := Some(a.now + cfg.lockoutDuration));
        }
        accounts := accounts[found.value := account.(user := user)];
        return found, InvalidCredentials, true;
      }
      user := user.(failedAttempts := 0, lockedUntil := None, lastLogin := Some(a.now));
      accounts := accounts[found.value := account.(user := user)];
      return found, LoggedIn, true;
    }
  }

  // ----- Runs against one account -----

  /** The account after the attempts, and the times at which the password was really checked. */
  datatype History = History(user: User, checks: seq<real>, successes: nat)

  function Run(cfg: Settings, u: User, attempts: seq<Attempt>): History {
    if attempts == [] then History(u, [], 0)
    else
      var h, a := Run(cfg, u, attempts[..|attempts| - 1]), attempts[|attempts| - 1];
      History(Step(cfg, h.user, a),
              h.checks + (if Locked(h.user, a.now) then [] else [a.now]),
              h.successes + if Succeeds(h.user, a) then 1 else 0)
  }

  ghost predicate Ordered(attempts: seq<Attempt>) {
    forall i, j | 0 <= i < j < |attempts| :: attempts[i].now <= attempts[j].now
  }

  ghost predicate Good(cfg: Settings) { cfg.maxFailedAttempts >= 1 && cfg.lockoutDuration > 0.0 }

  /** While nobody gets in, every check raises the counter, and once `maxFailedAttempts` checks have
      been made the account is locked for the full duration after the latest one. */
  ghost predicate Guarded(cfg: Settings, h: History) {
    && h.user.failedAttempts >= |h.checks|
    && (h.checks != [] && |h.checks| >= cfg.maxFailedAttempts ==>
          h.user.lockedUntil == Some(h.checks[|h.checks| - 1] + cfg.lockoutDuration))
  }

  lemma {:induction false} RunGuarded(cfg: Settings, u: User, attempts: seq<Attempt>)
    requires Good(cfg) && u.failedAttempts >= 0 && Run(cfg, u, attempts).successes == 0
    ensures Guarded(cfg, Run(cfg, u, attempts))
    decreases |attempts|
  {
    if attempts != [] {
      RunGuarded(cfg, u, attempts[..|attempts| - 1]);
    }
  }

  /** From the `maxFailedAttempts`-th on, consecutive checks are a full lockout apart. */
  lemma {:induction false} ChecksSpaced(cfg: Settings, u: User, attempts: seq<Attempt>)
    requires Good(cfg) && Ordered(attempts) && u.failedAttempts >= 0 && Run(cfg, u, attempts).successes == 0
    ensures var c := Run(cfg, u, attempts).checks;
            && (forall i | 0 <= i < |c| :: exists j :: 0 <= j < |attempts| && attempts[j].now == c[i])
            && (forall i, j | 0 <= i < j < |c| :: c[i] <= c[j])
            && (forall i | cfg.maxFailedAttempts <= i < |c| :: c[i] >= c[i - 1] + cfg.lockoutDuration)
    decreases |attempts|
  {
    if attempts != [] {
      var prefix, a := attempts[..|attempts| - 1], attempts[|attempts| - 1];
      ChecksSpaced(cfg, u, prefix);
      RunGuarded(cfg, u, prefix);
      var h, c := Run(cfg, u, prefix), Run(cfg, u, attempts).checks;
      forall i | 0 <= i < |c| ensures exists j :: 0 <= j < |attempts| && attempts[j].now == c[i] {
        if i < |h.checks| {
          var j :| 0 <= j < |prefix| && prefix[j].now == h.checks[i];
          assert attempts[j].now == c[i];
        } else {
          assert attempts[|attempts| - 1].now == c[i];
        }
      }
      forall i | 0 <= i < |h.checks| ensures h.checks[i] <= a.now {
        var j :| 0 <= j < |prefix| && prefix[j].now == h.checks[i];
        assert attempts[j].now <= attempts[|attempts| - 1].now;
      }
    }
  }

  /** The length of k lockout periods. */
  function Span(k: int, d: real): real { k as real * d }

  lemma SpanStep(k: int, d: real)
    ensures Span(k + 1, d) == Span(k, d) + d
    ensures Span(0, d) == 0.0
  {
  }

  lemma {:induction false} SpacedSpan(c: seq<real>, m: int, d: real)
    requires 1 <= m <= |c| && d > 0.0
    requires forall i, j | 0 <= i < j < |c| :: c[i] <= c[j]
    requires forall i | m <= i < |c| :: c[i] >= c[i - 1] + d
    ensures Span(|c| - m, d) <= c[|c| - 1] - c[0]
    decreases |c|
  {
    hide Span;
    SpanStep(|c| - 1 - m, d);
    if |c| == m {
      SpanStep(0, d);
      if m > 1 { assert c[0] <= c[m - 1]; }
    } else {
      SpacedSpan(c[..|c| - 1], m, d);
    }
  }

  /** In any span of length T without a successful login, the account's password is checked at most
      maxFailedAttempts + floor(T / lockoutDuration) times, whatever state the span started in. */
  lemma ChecksBound(cfg: Settings, u: User, attempts: seq<Attempt>, start: real, span: real)
    requires Good(cfg) && Ordered(attempts) && u.failedAttempts >= 0 && Run(cfg, u, attempts).successes == 0
    requires forall i | 0 <= i < |attempts| :: start <= attempts[i].now <= start + span
    ensures |Run(cfg, u, attempts).checks| <= cfg.maxFailedAttempts + Periods(span, cfg.lockoutDuration)
  {
    hide Run, Periods, Span;
    var c, m, d := Run(cfg, u, attempts).checks, cfg.maxFailedAttempts, cfg.lockoutDuration;
    ChecksSpaced(cfg, u, attempts);
    SpanStep(0, d);
    if |c| > m {
      SpacedSpan(c, m, d);
      assert c[0] >= start && c[|c| - 1] <= start + span;
      PeriodsAtLeast(|c| - m, d, span);
    } else {
      PeriodsNatural(span, d);
    }
  }

  lemma PeriodsNatural(span: real, d: real)
    requires d > 0.0
    ensures Periods(span, d) >= 0
  {
    if span >= 0.0 {
      PeriodsAtLeast(0, d, span);
    }
  }

  /** floor(span / d), and 0 for a negative span. */
  function Periods(span: real, d: real): int
    requires d > 0.0
  {
    if span < 0.0 then 0 else (span / d).Floor
  }

  lemma PeriodsAtLeast(k: int, d: real, span: real)
    requires d > 0.0 && k >= 0 && Span(k, d) <= span
    ensures k <= Periods(span, d)
  {
    assert k as real * d >= 0.0;
    var q := span / d;
    assert q * d == span;
    ScaledCompare(k as real, q, d);
  }

  lemma ScaledCompare(a: real, b: real, d: real)
    requires d > 0.0 && a * d <= b * d
    ensures a <= b
  {
  }

  /** An expired lock does not reset the counter, so each check after that re-locks at once: a guesser
      keeps getting one check per lockout period. */
  lemma {:induction false} OneCheckPerPeriod(cfg: Settings, u: User, k: nat, t0: real) returns (attempts: seq<Attempt>)
    requires Good(cfg) && u.failedAttempts >= cfg.maxFailedAttempts && !Locked(u, t0)
    ensures |attempts| == k && |Run(cfg, u, attempts).checks| == k && Run(cfg, u, attempts).successes == 0
    ensures forall i | 0 <= i < k :: attempts[i].now == t0 + Span(i, cfg.lockoutDuration)
    ensures Run(cfg, u, attempts).user.failedAttempts >= cfg.maxFailedAttempts
    ensures !Locked(Run(cfg, u, attempts).user, t0 + Span(k, cfg.lockoutDuration))
  {
    hide Span;
    if k == 0 {
      SpanStep(0, cfg.lockoutDuration);
      attempts := [];
    } else {
      var before := OneCheckPerPeriod(cfg, u, k - 1, t0);
      SpanStep(k - 1, cfg.lockoutDuration);
      var now := t0 + Span(k - 1, cfg.lockoutDuration);
      attempts := before + [Attempt(now, false, true)];
      assert attempts[..k - 1] == before;
    }
  }

  /** The first `n` wrong passwords in one moment, up to the limit, are all checked. */
  lemma {:induction false} FirstChecks(cfg: Settings, u: User, n: nat, t0: real) returns (attempts: seq<Attempt>)
    requires Good(cfg) && u.failedAttempts == 0 && !Locked(u, t0) && n <= cfg.maxFailedAttempts
    ensures |attempts| == n && (forall i | 0 <= i < n :: attempts[i].now == t0)
    ensures var h := Run(cfg, u, attempts);
            && |h.checks| == n && h.successes == 0 && h.user.failedAttempts == n
            && (n < cfg.maxFailedAttempts ==> !Locked(h.user, t0))
            && (n == cfg.maxFailedAttempts ==> h.user.lockedUntil == Some(t0 + cfg.lockoutDuration))
  {
    attempts := [];
    if n > 0 {
      var before := FirstChecks(cfg, u, n - 1, t0);
      attempts := before + [Attempt(t0, false, true)];
      assert attempts[..n - 1] == before;
    }
  }

  /** The bound of `ChecksBound` is reached, for every limit and every number of periods: after the first
      burst one check per period goes on for ever. */
  lemma {:induction false} BoundIsReached(cfg: Settings, u: User, k: nat, t0: real) returns (attempts: seq<Attempt>)
    requires Good(cfg) && u.failedAttempts == 0 && !Locked(u, t0)
    ensures Ordered(attempts)
    ensures forall i | 0 <= i < |attempts| :: t0 <= attempts[i].now <= t0 + Span(k, cfg.lockoutDuration)
    ensures var h := Run(cfg, u, attempts);
            && h.successes == 0 && |h.checks| == cfg.maxFailedAttempts + k
            && h.user.failedAttempts >= cfg.maxFailedAttempts
            && h.user.lockedUntil == Some(t0 + Span(k, cfg.lockoutDuration) + cfg.lockoutDuration)
    ensures Periods(Span(k, cfg.lockoutDuration), cfg.lockoutDuration) == k
  {
    hide Span;
    var d := cfg.lockoutDuration;
    SpanPeriods(k, d);
    if k == 0 {
      SpanStep(0, d);
      attempts := FirstChecks(cfg, u, cfg.maxFailedAttempts, t0);
    } else {
      SpanStep(k - 1, d);
      var before := BoundIsReached(cfg, u, k - 1, t0);
      attempts := before + [Attempt(t0 + Span(k, d), false, true)];
      assert attempts[..|before|] == before;
    }
  }

  lemma SpanPeriods(k: nat, d: real)
    requires d > 0.0
    ensures Periods(Span(k, d), d) == k
  {
    assert Span(k, d) >= 0.0;
    assert Span(k, d) / d == k as real;
  }

  // ----- Runs with successes -----

  /** The times of the failed checks since the last success, or since the start. */
  function SinceSuccess(cfg: Settings, u: User, attempts: seq<Attempt>): seq<real> {
    if attempts == [] then []
    else
      var prefix, a := attempts[..|attempts| - 1], attempts[|attempts| - 1];
      var before, failed := Run(cfg, u, prefix).user, SinceSuccess(cfg, u, prefix);
      if before.lockedUntil.Some? && before.lockedUntil.value > a.now then failed
      else if a.matches && a.active then []
      else failed + [a.now]
  }

  /** In every run, successes included, the counter is the number of failed checks since the last success,
      and the account is locked exactly while that number is at the limit and the latest of them is less
      than the lockout duration ago. */
  lemma {:induction false} LockIs(cfg: Settings, u: User, attempts: seq<Attempt>, now: real)
    requires Good(cfg) && u.failedAttempts == 0 && u.lockedUntil == None
    ensures var failed, user := SinceSuccess(cfg, u, attempts), Run(cfg, u, attempts).user;
            && user.failedAttempts == |failed|
            && (Locked(user, now) <==>
                  |failed| >= cfg.maxFailedAttempts && now < failed[|failed| - 1] + cfg.lockoutDuration)
            && (user.lockedUntil.Some? ==>
                  failed != [] && user.lockedUntil.value == failed[|failed| - 1] + cfg.lockoutDuration)
            && (|failed| >= cfg.maxFailedAttempts ==> user.lockedUntil.Some?)
    decreases |attempts|
  {
    if attempts != [] {
      LockIs(cfg, u, attempts[..|attempts| - 1], attempts[|attempts| - 1].now);
    }
  }

  /** The right password of an active account gets in if and only if the account is not locked; it clears
      the counter and the lock and is remembered, and after it nothing counts but what follows. */
  lemma SuccessClears(cfg: Settings, u: User, attempts: seq<Attempt>, now: real)
    ensures var h := Run(cfg, u, attempts);
            var r := Run(cfg, u, attempts + [Attempt(now, true, true)]);
            if Locked(h.user, now) then r.user == h.user && r.successes == h.successes && r.checks == h.checks
            else r.user == User(0, None, Some(now)) && r.successes == h.successes + 1 && r.checks == h.checks + [now]
                 && SinceSuccess(cfg, u, attempts + [Attempt(now, true, true)]) == []
  {
    var all := attempts + [Attempt(now, true, true)];
    assert all[..|all| - 1] == attempts;
  }
}
