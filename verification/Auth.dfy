/** Accounts: login lockout and the single-use tokens of sessions, e-mail verification and password resets. */
module Auth {
  import opened Wrappers

  datatype CompanyStatus = PendingVerification | Trial | Active | Inactive | Suspended | Cancelled

  datatype User = User(
    company: Option<nat>, password: string, isActive: bool, verified: bool, failed: nat, lockedUntil: Option<int>)

  datatype Kind = Verification | PasswordReset | RefreshToken

  /** A stored token; its position stands for the raw token, which its hash identifies. */
  datatype Token = Token(user: nat, kind: Kind, expires: int, created: int, used: Option<int>)

  datatype State = State(companies: seq<CompanyStatus>, users: seq<User>, tokens: seq<Token>)

  /** The settings; times are in seconds. */
  datatype Policy = Policy(maxFailed: nat, lockTime: nat, refreshLife: int, verificationLife: int, resetLife: int)

  const RESEND_PAUSE := 60

  datatype AuthError = Locked | WrongPassword | Disabled | NotVerified | CompanyClosed | BadToken | Taken | WeakPassword

  datatype Answer = Answer(state: State, error: Option<AuthError>)

  function WithUser(s: State, u: nat, user: User): State
    requires u < |s.users|
  {
    s.(users := s.users[u := user])
  }

  function Issue(s: State, token: Token): State {
    s.(tokens := s.tokens + [token])
  }

  function Spend(s: State, k: nat, at: int): State
    requires k < |s.tokens|
  {
    s.(tokens := s.tokens[k := s.tokens[k].(used := Some(at))])
  }

  predicate IsOpenFor(token: Token, u: nat, kind: Kind) {
    token.user == u && token.kind == kind && token.used.None?
  }

  /** `invalidate_unused_tokens`. */
  function Invalidated(tokens: seq<Token>, u: nat, kind: Kind, at: int): seq<Token> {
    seq(|tokens|, k requires 0 <= k < |tokens| =>
      if IsOpenFor(tokens[k], u, kind) then tokens[k].(used := Some(at)) else tokens[k])
  }

  /** The company does not keep the user out. */
  predicate CompanyAdmits(s: State, user: User) {
    user.company.Some? && user.company.value < |s.companies| ==>
      var status := s.companies[user.company.value]; status.Trial? || status.Active?
  }

  function Session(p: Policy, u: nat, at: int): Token {
    Token(u, RefreshToken, at + p.refreshLife, at, None)
  }

  /** A user beyond the table is an unknown e-mail address. */
  function Login(p: Policy, s: State, u: nat, password: string, at: int): Answer {
    if u >= |s.users| then Answer(s, Some(WrongPassword))
    else
      var user := s.users[u];
      if user.lockedUntil.Some? && user.lockedUntil.value > at then Answer(s, Some(Locked))
      else if password != user.password then
        var count := user.failed + 1;
        var until := if count >= p.maxFailed then Some(at + p.lockTime) else user.lockedUntil;
        Answer(WithUser(s, u, user.(failed := count, lockedUntil := until)), Some(WrongPassword))
      else if !user.isActive then Answer(s, Some(Disabled))
      else if !user.verified then Answer(s, Some(NotVerified))
      else if !CompanyAdmits(s, user) then Answer(s, Some(CompanyClosed))
      else Answer(Issue(WithUser(s, u, user.(failed := 0, lockedUntil := None)), Session(p, u, at)), None)
  }

  predicate Redeemable(s: State, k: nat, kind: Kind, at: int) {
    k < |s.tokens| && s.tokens[k].kind == kind && s.tokens[k].used.None? && s.tokens[k].expires > at
    && s.tokens[k].user < |s.users|
  }

  function Refresh(p: Policy, s: State, k: nat, at: int): Answer {
    if !Redeemable(s, k, RefreshToken, at) then Answer(s, Some(BadToken))
    else
      var u := s.tokens[k].user;
      var user := s.users[u];
      if !user.isActive || !user.verified then Answer(s, Some(Disabled))
      else if !CompanyAdmits(s, user) then Answer(s, Some(CompanyClosed))
      else Answer(Issue(Spend(s, k, at), Session(p, u, at)), None)
  }

  function Verify(p: Policy, s: State, k: nat, at: int): Answer {
    if !Redeemable(s, k, Verification, at) then Answer(s, Some(BadToken))
    else
      var u := s.tokens[k].user;
      var user := s.users[u];
      if user.company.None? || user.company.value >= |s.companies| then Answer(s, Some(BadToken))
      else
        var c := user.company.value;
        var spent := WithUser(Spend(s, k, at), u, user.(verified := true, isActive := true));
        var started := if s.companies[c].PendingVerification? then spent.(companies := s.companies[c := Trial]) else spent;
        Answer(Issue(started, Session(p, u, at)), None)
  }

  /** The latest token of a kind, the last one created. */
  function Latest(tokens: seq<Token>, u: nat, kind: Kind): Option<Token> {
    if tokens == [] then None
    else
      var last := tokens[|tokens| - 1];
      if last.user == u && last.kind == kind then Some(last) else Latest(tokens[..|tokens| - 1], u, kind)
  }

  /** Both mails are asked for without saying whether the address is known: there is no error. */
  function Resend(p: Policy, s: State, u: nat, at: int): Answer {
    if u >= |s.users| || s.users[u].verified then Answer(s, None)
    else
      var latest := Latest(s.tokens, u, Verification);
      if latest.Some? && latest.value.created > at - RESEND_PAUSE then Answer(s, None)
      else
        var cleared := s.(tokens := Invalidated(s.tokens, u, Verification, at));
        Answer(Issue(cleared, Token(u, Verification, at + p.verificationLife, at, None)), None)
  }

  function Forgot(p: Policy, s: State, u: nat, at: int): Answer {
    if u >= |s.users| || !s.users[u].isActive then Answer(s, None)
    else
      var cleared := s.(tokens := Invalidated(s.tokens, u, PasswordReset, at));
      Answer(Issue(cleared, Token(u, PasswordReset, at + p.resetLife, at, None)), None)
  }

  function Reset(s: State, k: nat, password: string, strong: bool, at: int): Answer {
    if !strong then Answer(s, Some(WeakPassword))
    else if !Redeemable(s, k, PasswordReset, at) then Answer(s, Some(BadToken))
    else
      var u := s.tokens[k].user;
      var changed := WithUser(Spend(s, k, at), u, s.users[u].(password := password, failed := 0, lockedUntil := None));
      Answer(changed.(tokens := Invalidated(changed.tokens, u, RefreshToken, at)), None)
  }

  function Signup(p: Policy, s: State, password: string, strong: bool, taken: bool, at: int): Answer {
    if !strong then Answer(s, Some(WeakPassword))
    else if taken then Answer(s, Some(Taken))
    else
      var u := |s.users|;
      var user := User(Some(|s.companies|), password, true, false, 0, None);
      Answer(Issue(s.(companies := s.companies + [PendingVerification], users := s.users + [user]),
                   Token(u, Verification, at + p.verificationLife, at, None)), None)
  }

  datatype Request =
    | LoginRequest(user: nat, password: string, at: int)
    | RefreshRequest(token: nat, at: int)
    | VerifyRequest(token: nat, at: int)
    | ResendRequest(user: nat, at: int)
    | ForgotRequest(user: nat, at: int)
    | ResetRequest(token: nat, password: string, strong: bool, at: int)
    | SignupRequest(password: string, strong: bool, taken: bool, at: int)
    | SetActive(user: nat, isActive: bool)             // by an administrator
    | SetCompany(company: nat, status: CompanyStatus)  // by an administrator

  function Serve(p: Policy, s: State, r: Request): Answer {
    match r
    case LoginRequest(u, password, at) => Login(p, s, u, password, at)
    case RefreshRequest(k, at) => Refresh(p, s, k, at)
    case VerifyRequest(k, at) => Verify(p, s, k, at)
    case ResendRequest(u, at) => Resend(p, s, u, at)
    case ForgotRequest(u, at) => Forgot(p, s, u, at)
    case ResetRequest(k, password, strong, at) => Reset(s, k, password, strong, at)
    case SignupRequest(password, strong, taken, at) => Signup(p, s, password, strong, taken, at)
    case SetActive(u, isActive) => Answer(if u < |s.users| then WithUser(s, u, s.users[u].(isActive := isActive)) else s, None)
    case SetCompany(c, status) => Answer(if c < |s.companies| then s.(companies := s.companies[c := status]) else s, None)
  }

  function Next(p: Policy, s: State, r: Request): State {
    Serve(p, s, r).state
  }

  function Play(p: Policy, s: State, requests: seq<Request>): State
    decreases requests
  {
    if requests == [] then s else Play(p, Next(p, s, requests[0]), requests[1..])
  }

  // ----- lockout

  predicate Fails(p: Policy, s: State, r: Request, u: nat) {
    r.LoginRequest? && r.user == u && u < |s.users| && Login(p, s, u, r.password, r.at).error == Some(WrongPassword)
  }

  /** A successful login of the user, or a reset of the password. */
  predicate Relieves(p: Policy, s: State, r: Request, u: nat) {
    && Serve(p, s, r).error.None?
    && ((r.LoginRequest? && r.user == u) || (r.ResetRequest? && r.token < |s.tokens| && s.tokens[r.token].user == u))
  }

  /** When the passwords of user `u` were checked and found wrong. */
  function Failures(p: Policy, s: State, requests: seq<Request>, u: nat): seq<int>
    decreases requests
  {
    if requests == [] then []
    else
      var rest := Failures(p, Next(p, s, requests[0]), requests[1..], u);
      if Fails(p, s, requests[0], u) then [requests[0].at] + rest else rest
  }

  ghost predicate Unrelieved(p: Policy, s: State, requests: seq<Request>, u: nat)
    decreases requests
  {
    requests == [] || (!Relieves(p, s, requests[0], u) && Unrelieved(p, Next(p, s, requests[0]), requests[1..], u))
  }

  lemma OthersKeepTheCount(p: Policy, s: State, r: Request, u: nat)
    requires u < |s.users| && !Relieves(p, s, r, u)
    ensures var t := Next(p, s, r);
            && u < |t.users|
            && (if Fails(p, s, r, u) then
                  && t.users[u].failed == s.users[u].failed + 1
                  && (s.users[u].lockedUntil.Some? ==> s.users[u].lockedUntil.value <= r.at)
                  && (s.users[u].failed + 1 >= p.maxFailed ==> t.users[u].lockedUntil == Some(r.at + p.lockTime))
                else t.users[u].failed == s.users[u].failed && t.users[u].lockedUntil == s.users[u].lockedUntil)
  {
    hide CompanyAdmits, Invalidated, Latest;
  }

  /** No password is checked during a lock, and from the max-th failure on each failure sets a new one. */
  lemma {:induction false} FailuresAreSpaced(p: Policy, s: State, requests: seq<Request>, u: nat, j: nat)
    requires u < |s.users| && Unrelieved(p, s, requests, u)
    requires j < |Failures(p, s, requests, u)|
    ensures var times := Failures(p, s, requests, u);
            && (s.users[u].lockedUntil.Some? ==> times[0] >= s.users[u].lockedUntil.value)
            && (j + 1 < |times| && s.users[u].failed + j + 1 >= p.maxFailed ==> times[j + 1] >= times[j] + p.lockTime)
    decreases requests
  {
    hide Next, Login, Relieves;
    if requests != [] {
      var r, rest := requests[0], requests[1..];
      var t := Next(p, s, r);
      OthersKeepTheCount(p, s, r, u);
      var later := Failures(p, t, rest, u);
      if Fails(p, s, r, u) {
        assert Failures(p, s, requests, u) == [r.at] + later;
        if j > 0 {
          FailuresAreSpaced(p, t, rest, u, j - 1);
        } else if later != [] {
          FailuresAreSpaced(p, t, rest, u, 0);
        }
      } else {
        FailuresAreSpaced(p, t, rest, u, j);
      }
    }
  }

  /** The number of the wrong password, in a run from `s`, that brings the counter to the limit. */
  function Limiting(p: Policy, s: State, u: nat): nat
    requires u < |s.users|
  {
    if s.users[u].failed >= p.maxFailed then 1 else p.maxFailed - s.users[u].failed
  }

  /**
    In a run without a successful login or a reset, the n-th wrong password is checked no earlier than (n - first) lock times
    after the one that brought the counter to the limit.
   */
  lemma {:induction false} LockoutBound(p: Policy, s: State, requests: seq<Request>, u: nat, n: nat)
    requires u < |s.users| && Unrelieved(p, s, requests, u)
    requires Limiting(p, s, u) <= n <= |Failures(p, s, requests, u)|
    ensures var times, first := Failures(p, s, requests, u), Limiting(p, s, u);
            first > 0 && times[n - 1] >= times[first - 1] + (n - first) * p.lockTime
    decreases n
  {
    hide Unrelieved, Failures;
    var first := Limiting(p, s, u);
    if n > first {
      LockoutBound(p, s, requests, u, n - 1);
      FailuresAreSpaced(p, s, requests, u, n - 2);
      assert (n - first) * p.lockTime == (n - 1 - first) * p.lockTime + p.lockTime;
    }
  }

  // ----- single use

  /** The request redeems token `k`. */
  predicate Redeems(p: Policy, s: State, r: Request, k: nat) {
    && (r.RefreshRequest? || r.VerifyRequest? || r.ResetRequest?)
    && r.token == k && Serve(p, s, r).error.None?
  }

  function Redemptions(p: Policy, s: State, requests: seq<Request>, k: nat): nat
    decreases requests
  {
    if requests == [] then 0
    else (if Redeems(p, s, requests[0], k) then 1 else 0) + Redemptions(p, Next(p, s, requests[0]), requests[1..], k)
  }

  predicate IsSpent(s: State, k: nat) {
    k < |s.tokens| && s.tokens[k].used.Some?
  }

  /** Tokens are never removed, never change hands, and once spent stay spent; redeeming one spends it. */
  lemma TokensOnlyAge(p: Policy, s: State, r: Request, k: nat)
    requires k < |s.tokens|
    ensures var t := Next(p, s, r);
            && k < |t.tokens| && t.tokens[k].user == s.tokens[k].user && t.tokens[k].kind == s.tokens[k].kind
            && (IsSpent(s, k) ==> IsSpent(t, k) && !Redeems(p, s, r, k))
            && (Redeems(p, s, r, k) ==> IsSpent(t, k))
  {
    hide CompanyAdmits, Latest;
  }

  /** The tokens of `t` continue those of `s`. */
  ghost predicate Ages(s: State, t: State) {
    && |s.tokens| <= |t.tokens|
    && forall k :: 0 <= k < |s.tokens| ==>
         t.tokens[k].user == s.tokens[k].user && t.tokens[k].kind == s.tokens[k].kind
         && (s.tokens[k].used.Some? ==> t.tokens[k].used.Some?)
  }

  lemma {:induction false} AgeOverRuns(p: Policy, s: State, requests: seq<Request>)
    ensures Ages(s, Play(p, s, requests))
    decreases requests
  {
    hide Next;
    if requests != [] {
      var t := Next(p, s, requests[0]);
      forall k: nat | k < |s.tokens|
        ensures k < |t.tokens| && t.tokens[k].user == s.tokens[k].user && t.tokens[k].kind == s.tokens[k].kind
                && (IsSpent(s, k) ==> IsSpent(t, k))
      {
        TokensOnlyAge(p, s, requests[0], k);
      }
      if s.tokens != [] {
        TokensOnlyAge(p, s, requests[0], |s.tokens| - 1);
      }
      assert Ages(s, t);
      AgeOverRuns(p, t, requests[1..]);
    }
  }

  lemma {:induction false} SpentIsNeverRedeemed(p: Policy, s: State, requests: seq<Request>, k: nat)
    requires IsSpent(s, k)
    ensures Redemptions(p, s, requests, k) == 0
    decreases requests
  {
    hide Next, Redeems;
    if requests != [] {
      TokensOnlyAge(p, s, requests[0], k);
      SpentIsNeverRedeemed(p, Next(p, s, requests[0]), requests[1..], k);
    }
  }

  /** Over any run, every token is redeemed at most once, whether it exists yet or not. */
  lemma {:induction false} TokensAreSingleUse(p: Policy, s: State, requests: seq<Request>, k: nat)
    ensures Redemptions(p, s, requests, k) <= 1
    decreases requests
  {
    hide Next;
    if requests != [] {
      var t := Next(p, s, requests[0]);
      if Redeems(p, s, requests[0], k) {
        RedeemedExists(p, s, requests[0], k);
        TokensOnlyAge(p, s, requests[0], k);
        SpentIsNeverRedeemed(p, t, requests[1..], k);
      } else {
        TokensAreSingleUse(p, t, requests[1..], k);
      }
    }
  }

  lemma RedeemedExists(p: Policy, s: State, r: Request, k: nat)
    requires Redeems(p, s, r, k)
    ensures k < |s.tokens|
  {
  }

  /** A password reset ends every session of the user: no refresh token issued before it is ever redeemed again. */
  lemma ResetEndsSessions(p: Policy, s: State, r: Request, later: seq<Request>, k: nat)
    requires r.ResetRequest? && Serve(p, s, r).error.None?
    requires k < |s.tokens| && s.tokens[k].kind.RefreshToken? && s.tokens[k].user == s.tokens[r.token].user
    ensures Redemptions(p, Next(p, s, r), later, k) == 0
  {
    hide Redemptions;
    assert IsSpent(Next(p, s, r), k);
    SpentIsNeverRedeemed(p, Next(p, s, r), later, k);
  }

  // ----- at most one open token

  /** No user has two unused tokens of the kind. */
  ghost predicate AtMostOne(s: State, kind: Kind) {
    && (forall k :: 0 <= k < |s.tokens| ==> s.tokens[k].user < |s.users|)
    && (forall j, k :: 0 <= j < k < |s.tokens| && s.tokens[j].kind == kind ==>
          !IsOpenFor(s.tokens[j], s.tokens[k].user, kind) || !IsOpenFor(s.tokens[k], s.tokens[k].user, kind))
  }

  /** Spending tokens and adding one that no open token of the kind stands beside. */
  lemma AtMostOneStays(s: State, t: State, kind: Kind)
    requires AtMostOne(s, kind) && |s.tokens| <= |t.tokens| <= |s.tokens| + 1 && |s.users| <= |t.users|
    requires forall k :: 0 <= k < |s.tokens| ==>
      t.tokens[k] == s.tokens[k] || (t.tokens[k].used.Some? && t.tokens[k] == s.tokens[k].(used := t.tokens[k].used))
    requires |t.tokens| > |s.tokens| ==>
      && t.tokens[|s.tokens|].user < |t.users|
      && (t.tokens[|s.tokens|].kind == kind ==>
            forall k :: 0 <= k < |s.tokens| ==> !IsOpenFor(t.tokens[k], t.tokens[|s.tokens|].user, kind))
    ensures AtMostOne(t, kind)
  {
  }

  lemma NextKeepsAtMostOne(p: Policy, s: State, r: Request, kind: Kind)
    requires AtMostOne(s, kind) && !kind.RefreshToken?
    ensures AtMostOne(Next(p, s, r), kind)
  {
    hide CompanyAdmits, Latest, AtMostOne;
    UsersExist(s, kind);
    AtMostOneStays(s, Next(p, s, r), kind);
  }

  lemma UsersExist(s: State, kind: Kind)
    requires AtMostOne(s, kind)
    ensures forall k :: 0 <= k < |s.tokens| ==> s.tokens[k].user < |s.users|
  {
  }

  /** In every reachable state each user has at most one unused verification token and at most one unused reset token. */
  lemma {:induction false} OneOpenTokenOverRuns(p: Policy, s: State, requests: seq<Request>, kind: Kind)
    requires AtMostOne(s, kind) && !kind.RefreshToken?
    ensures AtMostOne(Play(p, s, requests), kind)
    decreases requests
  {
    hide Next, AtMostOne;
    if requests != [] {
      NextKeepsAtMostOne(p, s, requests[0], kind);
      OneOpenTokenOverRuns(p, Next(p, s, requests[0]), requests[1..], kind);
    }
  }

  // ----- who gets a session

  predicate IsClosed(status: CompanyStatus) {
    status.Inactive? || status.Suspended? || status.Cancelled?
  }

  /** The step issues a session, to the user of the last token. */
  predicate IssuesSession(p: Policy, s: State, r: Request) {
    var t := Next(p, s, r).tokens;
    |t| > |s.tokens| && t[|t| - 1].kind.RefreshToken?
  }

  /**
    Every session goes to an active user with a verified address, whatever request issues it. The user's company admits its
    users, except exactly when the request verifies an address for a company that is closed.
   */
  lemma SessionsAreForVerifiedUsers(p: Policy, s: State, r: Request)
    requires IssuesSession(p, s, r)
    ensures var t := Next(p, s, r);
            var u := t.tokens[|t.tokens| - 1].user;
            && u < |t.users| && t.users[u].isActive && t.users[u].verified
            && (CompanyAdmits(t, t.users[u])
                <==> !(r.VerifyRequest? && t.users[u].company.Some? && t.users[u].company.value < |s.companies|
                       && IsClosed(s.companies[t.users[u].company.value])))
  {
    hide Latest;
  }

  /** One such input: the address is verified after the company has been suspended. */
  lemma ClosedCompanyGetsASession(p: Policy, password: string)
    ensures var s := State([Suspended], [User(Some(0), password, true, false, 0, None)], [Token(0, Verification, 10, 0, None)]);
            var t := Next(p, s, VerifyRequest(0, 5));
            IssuesSession(p, s, VerifyRequest(0, 5)) && !CompanyAdmits(t, t.users[0])
  {
  }

  function Sessions(tokens: seq<Token>, u: nat): nat {
    if tokens == [] then 0
    else (if tokens[0].user == u && tokens[0].kind.RefreshToken? then 1 else 0) + Sessions(tokens[1..], u)
  }

  /** The request makes a disabled user active again: an administrator does, or a verification token that can be redeemed. */
  predicate Enables(s: State, r: Request, u: nat) {
    || (r.SetActive? && r.user == u && r.isActive)
    || (r.VerifyRequest? && Redeemable(s, r.token, Verification, r.at) && s.tokens[r.token].user == u)
  }

  lemma {:induction false} SameOwnersSameSessions(a: seq<Token>, b: seq<Token>, u: nat)
    requires |a| == |b| && forall k :: 0 <= k < |a| ==> a[k].user == b[k].user && a[k].kind == b[k].kind
    ensures Sessions(a, u) == Sessions(b, u)
  {
    if a != [] {
      SameOwnersSameSessions(a[1..], b[1..], u);
    }
  }

  lemma {:induction false} OneMoreToken(a: seq<Token>, token: Token, u: nat)
    ensures Sessions(a + [token], u) == Sessions(a, u) + (if token.user == u && token.kind.RefreshToken? then 1 else 0)
  {
    if a == [] {
      assert [token][1..] == [] && a + [token] == [token];
    } else {
      OneMoreToken(a[1..], token, u);
      assert (a + [token])[1..] == a[1..] + [token];
    }
  }

  lemma DisabledStepIssuesNothing(p: Policy, s: State, r: Request, u: nat)
    requires u < |s.users| && !s.users[u].isActive && !Enables(s, r, u)
    ensures var t := Next(p, s, r);
            && u < |t.users| && !t.users[u].isActive && |s.tokens| <= |t.tokens| <= |s.tokens| + 1
            && (forall k :: 0 <= k < |s.tokens| ==> t.tokens[k].user == s.tokens[k].user && t.tokens[k].kind == s.tokens[k].kind)
            && (|t.tokens| > |s.tokens| ==> !(t.tokens[|s.tokens|].user == u && t.tokens[|s.tokens|].kind.RefreshToken?))
  {
    hide CompanyAdmits, Latest;
  }

  /** A disabled user gets no session until an administrator or a verification token enables the account. */
  lemma {:induction false} DisabledUsersGetNoSessions(p: Policy, s: State, requests: seq<Request>, u: nat)
    requires u < |s.users| && !s.users[u].isActive && NeverEnables(p, s, requests, u)
    ensures var t := Play(p, s, requests);
            u < |t.users| && !t.users[u].isActive && Sessions(t.tokens, u) == Sessions(s.tokens, u)
    decreases requests
  {
    hide Next, Sessions, Enables;
    if requests != [] {
      var t := Next(p, s, requests[0]);
      DisabledStepIssuesNothing(p, s, requests[0], u);
      var before := t.tokens[..|s.tokens|];
      SameOwnersSameSessions(s.tokens, before, u);
      if |t.tokens| > |s.tokens| {
        OneMoreToken(before, t.tokens[|s.tokens|], u);
        assert t.tokens == before + [t.tokens[|s.tokens|]];
      } else {
        assert t.tokens == before;
      }
      DisabledUsersGetNoSessions(p, t, requests[1..], u);
    }
  }

  ghost predicate NeverEnables(p: Policy, s: State, requests: seq<Request>, u: nat)
    decreases requests
  {
    requests == [] || (!Enables(s, requests[0], u) && NeverEnables(p, Next(p, s, requests[0]), requests[1..], u))
  }
}
