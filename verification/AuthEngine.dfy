/** The authentication service as it updates users and tokens, each operation proved against its specification. */
module AuthEngine {
  import opened Wrappers
  import opened Auth

  class Service {
    const policy: Policy
    var companies: seq<CompanyStatus>
    var users: seq<User>
    var tokens: seq<Token>

    ghost function Tables(): State
      reads this
    {
      State(companies, users, tokens)
    }

    constructor (policy: Policy)
      ensures this.policy == policy && Tables() == State([], [], [])
    {
      this.policy := policy;
      companies, users, tokens := [], [], [];
    }

    method AddToken(token: Token)
      modifies this`tokens
      ensures Tables() == Issue(old(Tables()), token)
    {
      tokens := tokens + [token];
    }

    /** One statement marks every unused token of the kind. */
    method InvalidateUnusedTokens(u: nat, kind: Kind, at: int)
      modifies this`tokens
      ensures tokens == Invalidated(old(tokens), u, kind, at)
    {
      var marked := tokens;
      for k := 0 to |tokens|
        invariant tokens == old(tokens) && |marked| == |tokens|
        invariant forall j :: 0 <= j < |tokens| ==>
          marked[j] == if j < k && IsOpenFor(tokens[j], u, kind) then tokens[j].(used := Some(at)) else tokens[j]
      {
        if marked[k].user == u && marked[k].kind == kind && marked[k].used.None? {
          marked := marked[k := marked[k].(used := Some(at))];
        }
      }
      tokens := marked;
    }

    method Admits(user: User) returns (admits: bool)
      ensures admits <==> CompanyAdmits(Tables(), user)
    {
      if user.company.Some? && user.company.value < |companies| {
        var status := companies[user.company.value];
        return status.Trial? || status.Active?;
      }
      return true;
    }

    /** `taken`: an account with this address exists. */
    method Signup(password: string, strong: bool, taken: bool, at: int) returns (error: Option<AuthError>)
      modifies this
      ensures Answer(Tables(), error) == Auth.Signup(policy, old(Tables()), password, strong, taken, at)
    {
      if !strong {
        return Some(WeakPassword);
      }
      if taken {
        return Some(Taken);
      }
      var company := |companies|;
      companies := companies + [PendingVerification];
      var user := |users|;
      users := users + [User(Some(company), password, true, false, 0, None)];
      AddToken(Token(user, Verification, at + policy.verificationLife, at, None));
      return None;
    }

    method Login(u: nat, password: string, at: int) returns (error: Option<AuthError>)
      modifies this
      ensures Answer(Tables(), error) == Auth.Login(policy, old(Tables()), u, password, at)
    {
      hide CompanyAdmits;
      if u < |users| && users[u].lockedUntil.Some? && users[u].lockedUntil.value > at {
        return Some(Locked);
      }
      if u >= |users| || password != users[u].password {
        if u < |users| {
          var failing := users[u].(failed := users[u].failed + 1);
          if failing.failed >= policy.maxFailed {
            failing := failing.(lockedUntil := Some(at + policy.lockTime));
          }
          users := users[u := failing];
        }
        return Some(WrongPassword);
      }
      var user := users[u];
      if !user.isActive {
        return Some(Disabled);
      }
      if !user.verified {
        return Some(NotVerified);
      }
      var admits := Admits(user);
      if !admits {
        return Some(CompanyClosed);
      }
      users := users[u := user.(failed := 0, lockedUntil := None)];
      AddToken(Session(policy, u, at));
      return None;
    }

    method Refresh(k: nat, at: int) returns (error: Option<AuthError>)
      modifies this
      ensures Answer(Tables(), error) == Auth.Refresh(policy, old(Tables()), k, at)
    {
      hide CompanyAdmits;
      if !Redeemable(State(companies, users, tokens), k, RefreshToken, at) {
        return Some(BadToken);
      }
      var u := tokens[k].user;
      if !users[u].isActive || !users[u].verified {
        return Some(Disabled);
      }
      var admits := Admits(users[u]);
      if !admits {
        return Some(CompanyClosed);
      }
      tokens := tokens[k := tokens[k].(used := Some(at))];
      AddToken(Session(policy, u, at));
      return None;
    }

    method VerifyEmail(k: nat, at: int) returns (error: Option<AuthError>)
      modifies this
      ensures Answer(Tables(), error) == Auth.Verify(policy, old(Tables()), k, at)
    {
      if !Redeemable(State(companies, users, tokens), k, Verification, at) {
        return Some(BadToken);
      }
      var u := tokens[k].user;
      var user := users[u];
      if user.company.None? || user.company.value >= |companies| {
        return Some(BadToken);
      }
      tokens := tokens[k := tokens[k].(used := Some(at))];
      users := users[u := user.(verified := true, isActive := true)];
      if companies[user.company.value].PendingVerification? {
        companies := companies[user.company.value := Trial];
      }
      AddToken(Session(policy, u, at));
      return None;
    }

    method ResendVerification(u: nat, at: int)
      modifies this
      ensures Answer(Tables(), None) == Resend(policy, old(Tables()), u, at)
    {
      hide Latest;
      if u >= |users| || users[u].verified {
        return;
      }
      var latest := Latest(tokens, u, Verification);
      if latest.Some? && latest.value.created > at - RESEND_PAUSE {
        return;
      }
      InvalidateUnusedTokens(u, Verification, at);
      AddToken(Token(u, Verification, at + policy.verificationLife, at, None));
    }

    method ForgotPassword(u: nat, at: int)
      modifies this
      ensures Answer(Tables(), None) == Forgot(policy, old(Tables()), u, at)
    {
      if u >= |users| || !users[u].isActive {
        return;
      }
      InvalidateUnusedTokens(u, PasswordReset, at);
      AddToken(Token(u, PasswordReset, at + policy.resetLife, at, None));
    }

    method ResetPassword(k: nat, password: string, strong: bool, at: int) returns (error: Option<AuthError>)
      modifies this
      ensures Answer(Tables(), error) == Auth.Reset(old(Tables()), k, password, strong, at)
    {
      if !strong {
        return Some(WeakPassword);
      }
      if !Redeemable(State(companies, users, tokens), k, PasswordReset, at) {
        return Some(BadToken);
      }
      var u := tokens[k].user;
      users := users[u := users[u].(password := password, failed := 0, lockedUntil := None)];
      tokens := tokens[k := tokens[k].(used := Some(at))];
      InvalidateUnusedTokens(u, RefreshToken, at);
      return None;
    }

    method SetUserActive(u: nat, isActive: bool)
      modifies this`users
      ensures Tables() == Next(policy, old(Tables()), SetActive(u, isActive))
    {
      if u < |users| {
        users := users[u := users[u].(isActive := isActive)];
      }
    }

    method SetCompanyStatus(c: nat, status: CompanyStatus)
      modifies this`companies
      ensures Tables() == Next(policy, old(Tables()), SetCompany(c, status))
    {
      if c < |companies| {
        companies := companies[c := status];
      }
    }

    method Handle(r: Request) returns (error: Option<AuthError>)
      modifies this
      ensures Answer(Tables(), error) == Serve(policy, old(Tables()), r)
    {
      hide Auth.Login, Auth.Refresh, Auth.Verify, Resend, Forgot, Auth.Reset, Auth.Signup;
      match r
      case LoginRequest(u, password, at) => error := Login(u, password, at);
      case RefreshRequest(k, at) => error := Refresh(k, at);
      case VerifyRequest(k, at) => error := VerifyEmail(k, at);
      case ResendRequest(u, at) =>
        ResendVerification(u, at);
        error := None;
      case ForgotRequest(u, at) =>
        ForgotPassword(u, at);
        error := None;
      case ResetRequest(k, password, strong, at) => error := ResetPassword(k, password, strong, at);
      case SignupRequest(password, strong, taken, at) => error := Signup(password, strong, taken, at);
      case SetActive(u, isActive) =>
        SetUserActive(u, isActive);
        error := None;
      case SetCompany(c, status) =>
        SetCompanyStatus(c, status);
        error := None;
    }

    /**
      Requests served one after the other. However they come, no token changes hands or becomes unused again, and nobody comes to
      hold two open verification tokens or two open reset tokens.
     */
    method HandleAll(requests: seq<Request>)
      modifies this
      ensures Tables() == Play(policy, old(Tables()), requests)
      ensures |tokens| >= |old(tokens)|
      ensures forall k :: 0 <= k < |old(tokens)| ==>
                tokens[k].user == old(tokens)[k].user && tokens[k].kind == old(tokens)[k].kind
                && (old(tokens)[k].used.Some? ==> tokens[k].used.Some?)
      ensures forall kind: Kind :: !kind.RefreshToken? && AtMostOne(old(Tables()), kind) ==> AtMostOne(Tables(), kind)
    {
      hide Serve, AtMostOne, IsSpent;
      assert requests[0..] == requests;
      for i := 0 to |requests|
        invariant Play(policy, Tables(), requests[i..]) == Play(policy, old(Tables()), requests)
      {
        assert requests[i..][1..] == requests[i + 1..];
        var error := Handle(requests[i]);
      }
      AgeOverRuns(policy, old(Tables()), requests);
      forall kind: Kind | !kind.RefreshToken? && AtMostOne(old(Tables()), kind)
        ensures AtMostOne(Tables(), kind)
      {
        OneOpenTokenOverRuns(policy, old(Tables()), requests, kind);
      }
    }
  }
}
