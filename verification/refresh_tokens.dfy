/**
 Refresh tokens: each sign-in opens a session and starts a token family; a refresh rotates
 the presented token and appends its child; presenting a token that is no longer active
 revokes the whole family and its session. Tokens and sessions are named by their position,
 a family by its first token.
 */
module RefreshTokens {
  import opened Wrappers

  type Id = nat

  datatype TokenState = Active | Rotated | Revoked

  datatype Token = Token(family: Id, parent: Option<Id>, session: Id, tenant: Id, user: Id, expiresAt: int, state: TokenState)

  datatype Session = Session(tenant: Id, user: Id, expiresAt: int, revoked: bool)

  datatype Auth = Auth(tokens: seq<Token>, sessions: seq<Session>)

  function SignedIn(a: Auth, tenant: Id, user: Id, sessionExpiresAt: int, tokenExpiresAt: int): Auth {
    Auth(a.tokens + [Token(|a.tokens|, None, |a.sessions|, tenant, user, tokenExpiresAt, Active)],
         a.sessions + [Session(tenant, user, sessionExpiresAt, false)])
  }

  function RevokedIf(t: Token, hit: bool): Token {
    if hit && t.state != Revoked then t.(state := Revoked) else t
  }

  function FamilyRevoked(a: Auth, family: Id): Auth {
    Auth(seq(|a.tokens|, i requires 0 <= i < |a.tokens| => RevokedIf(a.tokens[i], a.tokens[i].family == family)),
         seq(|a.sessions|, s requires 0 <= s < |a.sessions| =>
           if exists i :: 0 <= i < |a.tokens| && a.tokens[i].family == family && a.tokens[i].session == s
           then a.sessions[s].(revoked := true) else a.sessions[s]))
  }

  function UserRevoked(a: Auth, tenant: Id, user: Id): Auth {
    Auth(seq(|a.tokens|, i requires 0 <= i < |a.tokens| =>
           RevokedIf(a.tokens[i], a.tokens[i].tenant == tenant && a.tokens[i].user == user)),
         seq(|a.sessions|, s requires 0 <= s < |a.sessions| =>
           if a.sessions[s].tenant == tenant && a.sessions[s].user == user
           then a.sessions[s].(revoked := true) else a.sessions[s]))
  }

  /** The conditions under which presenting token i yields a new pair. */
  predicate Refreshable(a: Auth, i: Id, now: int) {
    && i < |a.tokens| && a.tokens[i].session < |a.sessions|
    && a.tokens[i].state == Active
    && now < a.tokens[i].expiresAt
    && !a.sessions[a.tokens[i].session].revoked
    && now < a.sessions[a.tokens[i].session].expiresAt
  }

  function RotatedTo(a: Auth, i: Id, childExpiresAt: int): Auth
    requires i < |a.tokens|
  {
    var child := a.tokens[i].(parent := Some(i), expiresAt := childExpiresAt, state := Active);
    Auth(a.tokens[i := a.tokens[i].(state := Rotated)] + [child], a.sessions)
  }

  predicate OpenAt(a: Auth, s: Id, now: int) {
    s < |a.sessions| && !a.sessions[s].revoked && now < a.sessions[s].expiresAt
  }

  predicate MayEnd(a: Auth, current: Id, target: Id, now: int) {
    && OpenAt(a, current, now)
    && target < |a.sessions| && !a.sessions[target].revoked
    && a.sessions[target].tenant == a.sessions[current].tenant
    && a.sessions[target].user == a.sessions[current].user
  }

  datatype Op =
    | SignIn(tenant: Id, user: Id, sessionExpiresAt: int, tokenExpiresAt: int)
    | Present(token: Id, now: int, childExpiresAt: int)
    | Logout(current: Id, target: Id, now: int)
    | SetPassword(tenant: Id, user: Id)

  function Next(a: Auth, op: Op): Auth {
    match op
    case SignIn(tenant, user, sessionExpiresAt, tokenExpiresAt) =>
      SignedIn(a, tenant, user, sessionExpiresAt, tokenExpiresAt)
    case Present(i, now, childExpiresAt) =>
      if i >= |a.tokens| then a
      else if a.tokens[i].state != Active then FamilyRevoked(a, a.tokens[i].family)
      else if Refreshable(a, i, now) then RotatedTo(a, i, childExpiresAt)
      else a
    case Logout(current, target, now) =>
      if MayEnd(a, current, target, now) then
        a.(sessions := a.sessions[target := a.sessions[target].(revoked := true)])
      else a
    case SetPassword(tenant, user) => UserRevoked(a, tenant, user)
  }

  // ------------------------------------------------------------------
  // The services
  // ------------------------------------------------------------------

  datatype RefreshResult = Denied | Refreshed(token: Id)

  class AuthStore {
    var tokens: seq<Token>
    var sessions: seq<Session>

    ghost function View(): Auth
      reads this
    {
      Auth(tokens, sessions)
    }

    constructor ()
      ensures View() == Auth([], [])
    {
      tokens, sessions := [], [];
    }

    method SignIn(tenant: Id, user: Id, sessionExpiresAt: int, tokenExpiresAt: int) returns (token: Id)
      modifies this
      ensures View() == Next(old(View()), Op.SignIn(tenant, user, sessionExpiresAt, tokenExpiresAt))
      ensures token == |old(tokens)|
    {
      sessions := sessions + [Session(tenant, user, sessionExpiresAt, false)];
      token := |tokens|;
      tokens := tokens + [Token(token, None, |sessions| - 1, tenant, user, tokenExpiresAt, Active)];
    }

    method RevokeRefreshTokenFamily(family: Id)
      modifies this
      ensures View() == FamilyRevoked(old(View()), family)
    {
      var hit := {};
      ghost var before := tokens;
      for i := 0 to |tokens|
        invariant sessions == old(sessions) && |tokens| == |before|
        invariant forall k :: 0 <= k < i ==> tokens[k] == RevokedIf(before[k], before[k].family == family)
        invariant forall k :: i <= k < |before| ==> tokens[k] == before[k]
        invariant forall s :: s in hit <==> exists k :: 0 <= k < i && before[k].family == family && before[k].session == s
      {
        if tokens[i].family == family {
          hit := hit + {tokens[i].session};
          if tokens[i].state == Active || tokens[i].state == Rotated {
            tokens := tokens[i := tokens[i].(state := Revoked)];
          }
        }
      }
      for s := 0 to |sessions|
        invariant |sessions| == |old(sessions)| && tokens == FamilyRevoked(old(View()), family).tokens
        invariant forall k :: 0 <= k < s ==>
          sessions[k] == if k in hit then old(sessions)[k].(revoked := true) else old(sessions)[k]
        invariant forall k :: s <= k < |sessions| ==> sessions[k] == old(sessions)[k]
      {
        if s in hit {
          sessions := sessions[s := sessions[s].(revoked := true)];
        }
      }
    }

    method RefreshTokenPair(token: Id, now: int, childExpiresAt: int) returns (r: RefreshResult)
      requires Valid(View())
      modifies this
      ensures View() == Next(old(View()), Present(token, now, childExpiresAt))
      ensures r.Refreshed? <==> |tokens| == |old(tokens)| + 1
      ensures r.Refreshed? ==> r == Refreshed(|old(tokens)|)
    {
      if token >= |tokens| {
        return Denied;
      }
      var stored := tokens[token];
      if stored.state != Active {
        RevokeRefreshTokenFamily(stored.family);
        return Denied;
      }
      assert TokenSound(View(), token);
      var session := sessions[stored.session];
      if stored.expiresAt <= now || session.revoked || session.expiresAt <= now {
        return Denied;
      }
      tokens := tokens[token := stored.(state := Rotated)];
      tokens := tokens + [Token(stored.family, Some(token), stored.session, stored.tenant, stored.user, childExpiresAt, Active)];
      return Refreshed(|tokens| - 1);
    }

    /** What setting a password does to the user's sessions and tokens. */
    method EndUserSessions(tenant: Id, user: Id)
      modifies this
      ensures View() == UserRevoked(old(View()), tenant, user)
    {
      ghost var before := View();
      for s := 0 to |sessions|
        invariant |sessions| == |before.sessions| && tokens == before.tokens
        invariant forall k :: 0 <= k < s ==> sessions[k] == UserRevoked(before, tenant, user).sessions[k]
        invariant forall k :: s <= k < |sessions| ==> sessions[k] == before.sessions[k]
      {
        if !sessions[s].revoked && sessions[s].tenant == tenant && sessions[s].user == user {
          sessions := sessions[s := sessions[s].(revoked := true)];
        }
      }
      for i := 0 to |tokens|
        invariant |tokens| == |before.tokens| && sessions == UserRevoked(before, tenant, user).sessions
        invariant forall k :: 0 <= k < i ==> tokens[k] == UserRevoked(before, tenant, user).tokens[k]
        invariant forall k :: i <= k < |tokens| ==> tokens[k] == before.tokens[k]
      {
        if tokens[i].state != Revoked && tokens[i].tenant == tenant && tokens[i].user == user {
          tokens := tokens[i := tokens[i].(state := Revoked)];
        }
      }
    }

    method Logout(current: Id, target: Id, now: int)
      modifies this`sessions
      ensures View() == Next(old(View()), Op.Logout(current, target, now))
    {
      if current >= |sessions| || sessions[current].revoked || sessions[current].expiresAt <= now {
        return;
      }
      if target >= |sessions| || sessions[target].revoked {
        return;
      }
      if sessions[target].tenant == sessions[current].tenant && sessions[target].user == sessions[current].user {
        sessions := sessions[target := sessions[target].(revoked := true)];
      }
    }
  }

  // ------------------------------------------------------------------
  // The invariant
  // ------------------------------------------------------------------

  /** Token i is the latest of its family before j. */
  ghost predicate PrecedesInFamily(a: Auth, i: Id, j: Id)
    requires j < |a.tokens|
  {
    && i < j && a.tokens[i].family == a.tokens[j].family
    && forall m :: i < m < j ==> a.tokens[m].family != a.tokens[j].family
  }

  ghost predicate TokenSound(a: Auth, j: Id)
    requires j < |a.tokens|
  {
    var t := a.tokens[j];
    && t.session < |a.sessions|
    && t.tenant == a.sessions[t.session].tenant && t.user == a.sessions[t.session].user
    && t.family <= j
    && (match t.parent
        case None => t.family == j
        case Some(p) =>
          && PrecedesInFamily(a, p, j)
          && a.tokens[p].session == t.session && a.tokens[p].state != Active)
    && (t.state == Active ==> forall m :: j < m < |a.tokens| ==> a.tokens[m].family != t.family)
  }

  ghost predicate Valid(a: Auth) {
    forall j :: 0 <= j < |a.tokens| ==> TokenSound(a, j)
  }

  /** The same store later: identities stay, nothing is reactivated or un-revoked. */
  ghost predicate Later(a: Auth, b: Auth) {
    && |a.tokens| <= |b.tokens| && |a.sessions| <= |b.sessions|
    && (forall i :: 0 <= i < |a.tokens| ==>
          b.tokens[i].(state := Active) == a.tokens[i].(state := Active)
          && (a.tokens[i].state != Active ==> b.tokens[i].state != Active))
    && (forall s :: 0 <= s < |a.sessions| ==>
          b.sessions[s].(revoked := false) == a.sessions[s].(revoked := false)
          && (a.sessions[s].revoked ==> b.sessions[s].revoked))
  }

  /** Steps that only revoke. */
  lemma RevokingKeeps(a: Auth, b: Auth)
    requires Valid(a) && Later(a, b) && |b.tokens| == |a.tokens|
    ensures Valid(b)
  {
    forall j | 0 <= j < |b.tokens| ensures TokenSound(b, j) {
      assert TokenSound(a, j);
    }
  }

  lemma SignInKeeps(a: Auth, tenant: Id, user: Id, sessionExpiresAt: int, tokenExpiresAt: int)
    requires Valid(a)
    ensures Valid(SignedIn(a, tenant, user, sessionExpiresAt, tokenExpiresAt))
    ensures Later(a, SignedIn(a, tenant, user, sessionExpiresAt, tokenExpiresAt))
  {
    var b := SignedIn(a, tenant, user, sessionExpiresAt, tokenExpiresAt);
    forall j | 0 <= j < |b.tokens| ensures TokenSound(b, j) {
      if j < |a.tokens| { assert TokenSound(a, j); }
    }
  }

  lemma RotationKeeps(a: Auth, i: Id, childExpiresAt: int)
    requires Valid(a) && i < |a.tokens| && a.tokens[i].state == Active
    ensures Valid(RotatedTo(a, i, childExpiresAt)) && Later(a, RotatedTo(a, i, childExpiresAt))
  {
    var b := RotatedTo(a, i, childExpiresAt);
    assert TokenSound(a, i);
    forall j | 0 <= j < |b.tokens| ensures TokenSound(b, j) {
      if j < |a.tokens| { assert TokenSound(a, j); }
    }
  }

  lemma NextKeeps(a: Auth, op: Op)
    requires Valid(a)
    ensures Valid(Next(a, op)) && Later(a, Next(a, op))
  {
    if op.SignIn? {
      SignInKeeps(a, op.tenant, op.user, op.sessionExpiresAt, op.tokenExpiresAt);
    } else if op.Present? && Refreshable(a, op.token, op.now) {
      RotationKeeps(a, op.token, op.childExpiresAt);
    } else {
      RevokingKeeps(a, Next(a, op));
    }
  }

  // ------------------------------------------------------------------
  // Runs
  // ------------------------------------------------------------------

  function After(run: seq<Op>): Auth {
    if run == [] then Auth([], []) else Next(After(run[..|run| - 1]), run[|run| - 1])
  }

  /** Operation k of the run presents token i and gets a new pair. */
  ghost predicate Refreshes(run: seq<Op>, k: nat, i: Id)
    requires k < |run|
  {
    run[k].Present? && run[k].token == i && Refreshable(After(run[..k]), i, run[k].now)
  }

  lemma {:induction false} RunKeeps(run: seq<Op>, k: nat)
    requires k <= |run|
    ensures Valid(After(run)) && Valid(After(run[..k])) && Later(After(run[..k]), After(run))
    decreases |run|
  {
    if k == |run| {
      assert run[..k] == run;
      if run != [] {
        RunKeeps(run[..|run| - 1], 0);
        NextKeeps(After(run[..|run| - 1]), run[|run| - 1]);
      }
    } else {
      RunKeeps(run[..|run| - 1], k);
      assert run[..|run| - 1][..k] == run[..k];
      NextKeeps(After(run[..|run| - 1]), run[|run| - 1]);
    }
  }

  lemma StateBefore(run: seq<Op>, k: nat, l: nat)
    requires k < l < |run|
    ensures Valid(After(run[..k])) && Valid(After(run[..l]))
    ensures Later(After(run[..k]), Next(After(run[..k]), run[k]))
    ensures Later(Next(After(run[..k]), run[k]), After(run[..l]))
  {
    RunKeeps(run[..l], k + 1);
    assert run[..l][..k + 1] == run[..k + 1] && run[..k + 1][..k] == run[..k];
    RunKeeps(run[..k + 1], k);
    NextKeeps(After(run[..k]), run[k]);
  }

  /** Following parents from j leads to i. */
  predicate DescendsFrom(a: Auth, j: Id, i: Id)
    requires j < |a.tokens|
    decreases j
  {
    j == i || (a.tokens[j].parent.Some? && a.tokens[j].parent.value < j && DescendsFrom(a, a.tokens[j].parent.value, i))
  }

  lemma {:induction false} FamilyDescends(a: Auth, i: Id, j: Id)
    requires Valid(a) && i <= j < |a.tokens| && a.tokens[i].family == a.tokens[j].family
    ensures DescendsFrom(a, j, i) && a.tokens[i].session == a.tokens[j].session
    decreases j
  {
    if i < j {
      assert TokenSound(a, i) && TokenSound(a, j);
      FamilyDescends(a, i, a.tokens[j].parent.value);
    }
  }

  /**
   In every reachable store a family is one parent chain with one session, tenant and user,
   and only its last token can be active.
   */
  lemma FamiliesAreChains(run: seq<Op>, i: Id, j: Id)
    requires var a := After(run); i < j < |a.tokens| && a.tokens[i].family == a.tokens[j].family
    ensures var a := After(run);
      && DescendsFrom(a, j, i)
      && a.tokens[i].session == a.tokens[j].session
      && a.tokens[i].tenant == a.tokens[j].tenant && a.tokens[i].user == a.tokens[j].user
      && a.tokens[i].state != Active
  {
    RunKeeps(run, 0);
    FamilyDescends(After(run), i, j);
    assert TokenSound(After(run), i) && TokenSound(After(run), j);
  }

  // ------------------------------------------------------------------
  // When a token is exchanged, and for what
  // ------------------------------------------------------------------

  /** An exchange is what adds a token to the store. */
  predicate Exchanged(a: Auth, b: Auth) {
    |b.tokens| == |a.tokens| + 1
  }

  /**
   In every reachable store a presented token is exchanged exactly when it is known, ACTIVE and not expired, and
   its session is neither revoked nor expired.
   */
  lemma ExchangedIff(run: seq<Op>, i: Id, now: int, childExpiresAt: int)
    ensures i < |After(run).tokens| ==> After(run).tokens[i].session < |After(run).sessions|
    ensures
      var a := After(run);
      Exchanged(a, Next(a, Present(i, now, childExpiresAt))) <==>
        && i < |a.tokens|
        && a.tokens[i].state == Active
        && now < a.tokens[i].expiresAt
        && !a.sessions[a.tokens[i].session].revoked
        && now < a.sessions[a.tokens[i].session].expiresAt
  {
    RunKeeps(run, 0);
    if i < |After(run).tokens| {
      assert TokenSound(After(run), i);
    }
  }

  /**
   An exchange makes the presented token ROTATED and adds its child, ACTIVE with the given expiry, in its family
   and session and for its user; nothing else changes.
   */
  lemma ExchangeAddsTheChild(run: seq<Op>, i: Id, now: int, childExpiresAt: int)
    requires Exchanged(After(run), Next(After(run), Present(i, now, childExpiresAt)))
    ensures
      var a, b := After(run), Next(After(run), Present(i, now, childExpiresAt));
      var child := b.tokens[|a.tokens|];
      && i < |a.tokens|
      && b.tokens[i].state == Rotated && b.tokens[i].(state := Active) == a.tokens[i]
      && child.state == Active && child.parent == Some(i) && child.expiresAt == childExpiresAt
      && child.family == a.tokens[i].family && child.session == a.tokens[i].session
      && child.tenant == a.tokens[i].tenant && child.user == a.tokens[i].user
      && (forall k :: 0 <= k < |a.tokens| && k != i ==> b.tokens[k] == a.tokens[k])
      && b.sessions == a.sessions
  {
  }

  /** The child can be exchanged next, until it or its session expires. */
  lemma ChildIsExchangedNextIff(run: seq<Op>, i: Id, now: int, childExpiresAt: int, later: int, nextExpiresAt: int)
    requires Exchanged(After(run), Next(After(run), Present(i, now, childExpiresAt)))
    ensures
      var a, b := After(run), Next(After(run), Present(i, now, childExpiresAt));
      Exchanged(b, Next(b, Present(|a.tokens|, later, nextExpiresAt))) <==>
        later < childExpiresAt && later < a.sessions[a.tokens[i].session].expiresAt
  {
    ExchangedIff(run, i, now, childExpiresAt);
    ExchangeAddsTheChild(run, i, now, childExpiresAt);
    var more := run + [Present(i, now, childExpiresAt)];
    assert more[..|run|] == run;
    ExchangedIff(more, |After(run).tokens|, later, nextExpiresAt);
  }

  /** A sign-in opens a session and a token that starts a family; the token can be exchanged until either expires. */
  lemma SignInIsExchangedIff(
      run: seq<Op>, tenant: Id, user: Id, sessionExpiresAt: int, tokenExpiresAt: int, now: int, childExpiresAt: int)
    ensures
      var a, b := After(run), Next(After(run), SignIn(tenant, user, sessionExpiresAt, tokenExpiresAt));
      && b.tokens[..|a.tokens|] == a.tokens && b.sessions == a.sessions + [Session(tenant, user, sessionExpiresAt, false)]
      && |b.tokens| == |a.tokens| + 1
      && b.tokens[|a.tokens|].tenant == tenant && b.tokens[|a.tokens|].user == user
      && (Exchanged(b, Next(b, Present(|a.tokens|, now, childExpiresAt))) <==>
            now < tokenExpiresAt && now < sessionExpiresAt)
  {
    var more := run + [SignIn(tenant, user, sessionExpiresAt, tokenExpiresAt)];
    assert more[..|run|] == run;
    ExchangedIff(more, |After(run).tokens|, now, childExpiresAt);
  }

  /**
   A token presented without being exchanged changes nothing if it is unknown or ACTIVE; otherwise its family's
   tokens are revoked and so are the sessions of the family, and nothing else.
   */
  lemma RefusedPresentations(run: seq<Op>, i: Id, now: int, childExpiresAt: int)
    requires !Exchanged(After(run), Next(After(run), Present(i, now, childExpiresAt)))
    ensures
      var a, b := After(run), Next(After(run), Present(i, now, childExpiresAt));
      && (i >= |a.tokens| || a.tokens[i].state == Active ==> b == a)
      && (i < |a.tokens| && a.tokens[i].state != Active ==>
            && |b.tokens| == |a.tokens| && |b.sessions| == |a.sessions|
            && (forall k :: 0 <= k < |a.tokens| ==>
                  if a.tokens[k].family == a.tokens[i].family then b.tokens[k] == a.tokens[k].(state := Revoked)
                  else b.tokens[k] == a.tokens[k])
            && (forall s :: 0 <= s < |a.sessions| ==>
                  if s == a.tokens[i].session then b.sessions[s] == a.sessions[s].(revoked := true)
                  else b.sessions[s] == a.sessions[s]))
  {
    RunKeeps(run, 0);
    var a := After(run);
    if i < |a.tokens| && a.tokens[i].state != Active {
      forall k | 0 <= k < |a.tokens| && a.tokens[k].family == a.tokens[i].family
        ensures a.tokens[k].session == a.tokens[i].session
      {
        if i <= k { FamilyDescends(a, i, k); } else { FamilyDescends(a, k, i); }
      }
    }
  }

  /**
   Logging out through an open session revokes exactly the named session, if it is one of the same tenant and user;
   through any other it changes nothing.
   */
  lemma LogoutEndsOwnSessionIff(run: seq<Op>, current: Id, target: Id, now: int)
    ensures
      var a, b := After(run), Next(After(run), Op.Logout(current, target, now));
      && b.tokens == a.tokens && |b.sessions| == |a.sessions|
      && (forall s :: 0 <= s < |a.sessions| && s != target ==> b.sessions[s] == a.sessions[s])
      && (target < |a.sessions| ==>
            && b.sessions[target].(revoked := false) == a.sessions[target].(revoked := false)
            && (b.sessions[target].revoked <==>
                  || a.sessions[target].revoked
                  || (&& current < |a.sessions| && !a.sessions[current].revoked && now < a.sessions[current].expiresAt
                      && a.sessions[target].tenant == a.sessions[current].tenant
                      && a.sessions[target].user == a.sessions[current].user)))
  {
  }

  /** No token is exchanged twice, whatever happens in between. */
  lemma TokensRefreshOnce(run: seq<Op>, k: nat, l: nat, i: Id)
    requires k < l < |run| && Refreshes(run, k, i)
    ensures !Refreshes(run, l, i)
  {
    StateBefore(run, k, l);
  }

  /**
   Once a token that is not active is presented, no token of its family or of its session,
   present or future, is ever exchanged again.
   */
  lemma ReuseEndsTheFamily(run: seq<Op>, k: nat, l: nat, i: Id, j: Id)
    requires k < l < |run| && run[k].Present? && run[k].token == i
    requires var a := After(run[..k]); i < |a.tokens| && a.tokens[i].state != Active
    requires var a, b := After(run[..k]), After(run[..l]);
      j < |b.tokens| && (b.tokens[j].family == a.tokens[i].family || b.tokens[j].session == a.tokens[i].session)
    ensures !Refreshes(run, l, j)
  {
    StateBefore(run, k, l);
    var a, b := After(run[..k]), After(run[..l]);
    assert TokenSound(a, i);
    assert Next(a, run[k]).sessions[a.tokens[i].session].revoked;
    if b.tokens[j].family == a.tokens[i].family {
      if i <= j { FamilyDescends(b, i, j); } else { FamilyDescends(b, j, i); }
    }
  }

  /** Setting a password stops exactly the tokens of that user in that tenant: in another tenant they go on. */
  lemma PasswordSetStopsExactly(run: seq<Op>, tenant: Id, user: Id, j: Id, now: int)
    requires j < |After(run).tokens|
    ensures
      var a := After(run);
      Refreshable(Next(a, SetPassword(tenant, user)), j, now) <==>
        Refreshable(a, j, now) && !(a.tokens[j].tenant == tenant && a.tokens[j].user == user)
  {
    RunKeeps(run, 0);
    assert TokenSound(After(run), j);
  }

  /** Setting a password ends every family the user then has in that tenant. */
  lemma PasswordSetEndsFamilies(run: seq<Op>, k: nat, l: nat, i: Id, j: Id)
    requires k < l < |run| && run[k].SetPassword?
    requires var a := After(run[..k]); i < |a.tokens| && a.tokens[i].tenant == run[k].tenant && a.tokens[i].user == run[k].user
    requires var a, b := After(run[..k]), After(run[..l]);
      j < |b.tokens| && b.tokens[j].family == a.tokens[i].family
    ensures !Refreshes(run, l, j)
  {
    StateBefore(run, k, l);
    var a, b := After(run[..k]), After(run[..l]);
    assert TokenSound(a, i);
    assert Next(a, run[k]).sessions[a.tokens[i].session].revoked;
    if i <= j { FamilyDescends(b, i, j); } else { FamilyDescends(b, j, i); }
  }

  /** However often it is rotated, a family never refreshes at or after the expiry of the session it began with. */
  lemma RotationDoesNotOutliveTheSession(run: seq<Op>, k: nat, l: nat, i: Id, j: Id)
    requires k < l < |run| && Refreshes(run, l, j)
    requires var a, b := After(run[..k]), After(run[..l]);
      i < |a.tokens| && j < |b.tokens| && b.tokens[j].family == a.tokens[i].family
    ensures var a := After(run[..k]);
      a.tokens[i].session < |a.sessions| && run[l].now < a.sessions[a.tokens[i].session].expiresAt
  {
    StateBefore(run, k, l);
    var a, b := After(run[..k]), After(run[..l]);
    assert TokenSound(a, i);
    if i <= j { FamilyDescends(b, i, j); } else { FamilyDescends(b, j, i); }
  }
}
