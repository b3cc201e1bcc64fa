/** When the account requests succeed, what they leave in the tables, and what later requests then find. */
module AuthOutcomes {
  import opened Wrappers
  import opened Auth

  /** The token exists, is of this kind, unused and not expired, and its user exists. */
  predicate IsGood(s: State, k: nat, kind: Kind, at: int) {
    && k < |s.tokens| && s.tokens[k].kind == kind && s.tokens[k].used == None && at < s.tokens[k].expires
    && s.tokens[k].user < |s.users|
  }

  /** The user's company is unknown, on trial or active. */
  predicate IsLetIn(s: State, user: User) {
    || user.company.None? || user.company.value >= |s.companies|
    || s.companies[user.company.value] == Trial || s.companies[user.company.value] == CompanyStatus.Active
  }

  /** The tables of `t` are those of `s` but for user `u` and tokens. */
  ghost predicate OnlyUser(s: State, t: State, u: nat) {
    && t.companies == s.companies && |t.users| == |s.users|
    && forall v :: 0 <= v < |s.users| && v != u ==> t.users[v] == s.users[v]
  }

  /** The request adds one token, which can be redeemed exactly until its life is over. */
  ghost predicate Issues(s: State, t: State, u: nat, kind: Kind, at: int, life: int) {
    && |t.tokens| == |s.tokens| + 1 && t.tokens[|s.tokens|].user == u && t.tokens[|s.tokens|].created == at
    && forall when: int :: Redeemable(t, |s.tokens|, kind, when) <==> when < at + life
  }

  // ----- login

  predicate IsLocked(s: State, u: nat, at: int) {
    u < |s.users| && s.users[u].lockedUntil.Some? && at < s.users[u].lockedUntil.value
  }

  /** The password is checked and found right. */
  predicate IsChecked(s: State, u: nat, password: string, at: int) {
    u < |s.users| && !IsLocked(s, u, at) && s.users[u].password == password
  }

  predicate MayLogIn(s: State, u: nat, password: string, at: int) {
    && IsChecked(s, u, password, at)
    && s.users[u].isActive && s.users[u].verified && IsLetIn(s, s.users[u])
  }

  /**
    A login succeeds exactly for the right password of an active, verified user who is not locked and whose company is open; it then
    issues a session and clears counter and lock. A wrong password, checked unless the user is locked, is counted, and locks from the
    limit on. Every other login changes nothing.
   */
  lemma LoginIsExact(p: Policy, s: State, u: nat, password: string, at: int)
    ensures var r := Login(p, s, u, password, at);
            && (r.error == None <==> MayLogIn(s, u, password, at))
            && (r.error == Some(Locked) <==> IsLocked(s, u, at))
            && (r.error == Some(WrongPassword) <==> !IsLocked(s, u, at) && (u < |s.users| ==> s.users[u].password != password))
            && (IsChecked(s, u, password, at) ==>
                  && (r.error == Some(Disabled) <==> !s.users[u].isActive)
                  && (r.error == Some(NotVerified) <==> s.users[u].isActive && !s.users[u].verified)
                  && (r.error == Some(CompanyClosed) <==> s.users[u].isActive && s.users[u].verified && !IsLetIn(s, s.users[u])))
            && (r.error == None ==>
                  && OnlyUser(s, r.state, u) && Issues(s, r.state, u, RefreshToken, at, p.refreshLife)
                  && r.state.users[u] == s.users[u].(failed := 0, lockedUntil := None) && r.state.tokens[..|s.tokens|] == s.tokens)
            && (r.error == Some(WrongPassword) && u < |s.users| ==>
                  && OnlyUser(s, r.state, u) && r.state.tokens == s.tokens
                  && var count := s.users[u].failed + 1;
                     r.state.users[u] == s.users[u].(
                       failed := count, lockedUntil := if count >= p.maxFailed then Some(at + p.lockTime) else s.users[u].lockedUntil))
            && (r.error != None && !(r.error == Some(WrongPassword) && u < |s.users|) ==> r.state == s)
  {
  }

  // ----- password resets

  /** After a reset the new password, and no other, opens the account: it is unlocked, counts afresh, and other accounts are as before. */
  lemma ResetStoresThePassword(p: Policy, s: State, k: nat, password: string, strong: bool, at: int, tried: string, later: int)
    ensures var r := Reset(s, k, password, strong, at);
            && (r.error == None <==> strong && IsGood(s, k, PasswordReset, at))
            && (r.error == Some(WeakPassword) <==> !strong) && (r.error in {None, Some(WeakPassword), Some(BadToken)})
            && (r.error != None ==> r.state == s)
            && (r.error == None ==>
                  var t, u := r.state, s.tokens[k].user;
                  && OnlyUser(s, t, u) && t.users[u] == s.users[u].(password := password, failed := 0, lockedUntil := None)
                  && (Login(p, t, u, tried, later).error == Some(WrongPassword) <==> tried != password)
                  && (Login(p, t, u, password, later).error == None
                      <==> s.users[u].isActive && s.users[u].verified && IsLetIn(s, s.users[u])))
  {
    hide Invalidated;
  }

  /** Of the tokens a reset spends its own and the user's open refresh tokens, and leaves the others as they were. */
  lemma ResetSpendsExactly(s: State, k: nat, password: string, strong: bool, at: int, j: nat)
    requires Reset(s, k, password, strong, at).error == None && j < |s.tokens|
    ensures var t := Reset(s, k, password, strong, at).state;
            && |t.tokens| == |s.tokens|
            && t.tokens[j] == (if j == k || (s.tokens[j].user == s.tokens[k].user && s.tokens[j].kind == RefreshToken && s.tokens[j].used == None)
                               then s.tokens[j].(used := Some(at)) else s.tokens[j])
  {
  }

  // ----- sessions and verification

  predicate MayRefresh(s: State, k: nat, at: int) {
    && IsGood(s, k, RefreshToken, at)
    && var user := s.users[s.tokens[k].user]; user.isActive && user.verified && IsLetIn(s, user)
  }

  /** A refresh succeeds exactly with a good token of a user who may still log in; the token is spent and another issued. */
  lemma RefreshIsExact(p: Policy, s: State, k: nat, at: int)
    ensures var r := Refresh(p, s, k, at);
            && (r.error == None <==> MayRefresh(s, k, at))
            && (r.error == Some(BadToken) <==> !IsGood(s, k, RefreshToken, at))
            && (r.error == Some(CompanyClosed) ==> !IsLetIn(s, s.users[s.tokens[k].user]))
            && r.error in {None, Some(BadToken), Some(Disabled), Some(CompanyClosed)}
            && (r.error == Some(Disabled) ==> !s.users[s.tokens[k].user].isActive || !s.users[s.tokens[k].user].verified)
            && (r.error != None ==> r.state == s)
            && (r.error == None ==>
                  && r.state.companies == s.companies && r.state.users == s.users
                  && Issues(s, r.state, s.tokens[k].user, RefreshToken, at, p.refreshLife)
                  && r.state.tokens[..|s.tokens|] == s.tokens[k := s.tokens[k].(used := Some(at))])
  {
  }

  /** A good verification token of a user with a company verifies and enables the user, and opens a company that was waiting for it. */
  lemma VerificationIsExact(p: Policy, s: State, k: nat, at: int)
    ensures var r := Verify(p, s, k, at);
            && (r.error == None <==>
                  && IsGood(s, k, Verification, at)
                  && var company := s.users[s.tokens[k].user].company; company.Some? && company.value < |s.companies|)
            && r.error in {None, Some(BadToken)}
            && (r.error != None ==> r.state == s)
            && (r.error == None ==>
                  var u := s.tokens[k].user;
                  var c := s.users[u].company.value;
                  && |r.state.users| == |s.users| && (forall v :: 0 <= v < |s.users| && v != u ==> r.state.users[v] == s.users[v])
                  && r.state.users[u] == s.users[u].(verified := true, isActive := true)
                  && r.state.companies == (if s.companies[c] == PendingVerification then s.companies[c := Trial] else s.companies)
                  && Issues(s, r.state, u, RefreshToken, at, p.refreshLife)
                  && r.state.tokens[..|s.tokens|] == s.tokens[k := s.tokens[k].(used := Some(at))])
  {
  }

  // ----- new tokens by mail

  /** Token `j` is the user's latest verification token. */
  predicate IsLatest(s: State, u: nat, j: nat) {
    && j < |s.tokens| && s.tokens[j].user == u && s.tokens[j].kind == Verification
    && forall i :: j < i < |s.tokens| ==> !(s.tokens[i].user == u && s.tokens[i].kind == Verification)
  }

  lemma {:induction false} LatestIsLatest(tokens: seq<Token>, u: nat, kind: Kind)
    ensures Latest(tokens, u, kind).None? ==> forall i :: 0 <= i < |tokens| ==> !(tokens[i].user == u && tokens[i].kind == kind)
    ensures Latest(tokens, u, kind).Some? ==>
              exists j :: 0 <= j < |tokens| && tokens[j].user == u && tokens[j].kind == kind && tokens[j] == Latest(tokens, u, kind).value
                          && forall i :: j < i < |tokens| ==> !(tokens[i].user == u && tokens[i].kind == kind)
  {
    if tokens != [] {
      LatestIsLatest(tokens[..|tokens| - 1], u, kind);
    }
  }

  /** The user's open tokens of the kind are spent, all others kept, and a new one of that kind is issued. */
  ghost predicate Replaces(s: State, t: State, u: nat, kind: Kind, at: int, life: int) {
    && t.companies == s.companies && t.users == s.users && Issues(s, t, u, kind, at, life)
    && forall j :: 0 <= j < |s.tokens| ==>
         t.tokens[j] == if s.tokens[j].user == u && s.tokens[j].kind == kind && s.tokens[j].used == None
                        then s.tokens[j].(used := Some(at)) else s.tokens[j]
  }

  /** A verification mail is sent exactly to a known, unverified user whose latest one is at least a minute old. */
  lemma ResendIsExact(p: Policy, s: State, u: nat, at: int)
    ensures var t := Resend(p, s, u, at).state;
            if u < |s.users| && !s.users[u].verified && (forall j: nat :: IsLatest(s, u, j) ==> s.tokens[j].created + 60 <= at)
            then Replaces(s, t, u, Verification, at, p.verificationLife)
            else t == s
  {
    hide Latest;
    LatestIsLatest(s.tokens, u, Verification);
    var latest := Latest(s.tokens, u, Verification);
    if latest.Some? {
      var j :| 0 <= j < |s.tokens| && s.tokens[j].user == u && s.tokens[j].kind == Verification && s.tokens[j] == latest.value
               && forall i :: j < i < |s.tokens| ==> !(s.tokens[i].user == u && s.tokens[i].kind == Verification);
      assert IsLatest(s, u, j);
    }
  }

  /** A reset mail is sent exactly to a known, active user. */
  lemma ForgotIsExact(p: Policy, s: State, u: nat, at: int)
    ensures var t := Forgot(p, s, u, at).state;
            if u < |s.users| && s.users[u].isActive then Replaces(s, t, u, PasswordReset, at, p.resetLife) else t == s
  {
  }

  /** A sign-up with a strong password and a new address adds an unverified user, a company that waits for it, and its token. */
  lemma SignupIsExact(p: Policy, s: State, password: string, strong: bool, taken: bool, at: int)
    ensures var r := Signup(p, s, password, strong, taken, at);
            && (r.error == None <==> strong && !taken)
            && (r.error == Some(WeakPassword) <==> !strong) && (r.error == Some(Taken) <==> strong && taken)
            && (r.error != None ==> r.state == s)
            && (r.error == None ==>
                  && r.state.companies == s.companies + [PendingVerification] && r.state.tokens[..|s.tokens|] == s.tokens
                  && r.state.users == s.users + [User(Some(|s.companies|), password, true, false, 0, None)]
                  && Issues(s, r.state, |s.users|, Verification, at, p.verificationLife))
  {
  }

  /** An administrator's switch writes the one row it names, if there is one. */
  lemma SwitchesAreExact(p: Policy, s: State, u: nat, isActive: bool, c: nat, status: CompanyStatus)
    ensures var t := Next(p, s, SetActive(u, isActive));
            && OnlyUser(s, t, u) && t.tokens == s.tokens && (u < |s.users| ==> t.users[u] == s.users[u].(isActive := isActive))
    ensures var t := Next(p, s, SetCompany(c, status));
            && t.users == s.users && t.tokens == s.tokens && |t.companies| == |s.companies|
            && forall d :: 0 <= d < |s.companies| ==> t.companies[d] == if d == c then status else s.companies[d]
  {
  }
}
