/**
 * The commerce client's authentication orchestration
 * (integrations/salesforce/client.ts) as a state-transition system.
 *
 * The state is the session manager (store and save flag) plus the client's own
 * `authInProgress` flag. Each entry point is a function from a state and an
 * environment to a `Run`: the new state, the external effects requested in
 * order, and whether the call resolved or threw. The environment supplies the
 * clock, the health of the storage layer and the answers of the token endpoint.
 */
module AuthClient {
  import opened Wrappers
  import opened SessionManager

  /** Seconds subtracted from the server-reported lifetime before it is stored. */
  const SafetyMarginSeconds: int := 300

  /** Redirect URI used by the guest login when the app URL is not configured. */
  const GuestCallbackDefault: string := "https://example.com/callback"

  /** Redirect URI used by the registered login and by logout when the app URL is not configured. */
  const LocalCallbackDefault: string := "http://localhost:3000/callback"

  /** The JSON body the token endpoint answers with. */
  datatype TokenResponse = TokenResponse(
    access_token: string,
    refresh_token: string,
    customer_id: string,
    expires_in: int,
    usid: string)

  /**
   * The network's answer to one token exchange. `Refused` is a request that
   * throws (`fetch` or `json()` fails). The helpers never test the HTTP status,
   * so an error answer from the server is a `Granted` whose fields are missing:
   * "" stands for an undefined string and any integer for the undefined lifetime.
   */
  datatype Exchange = Granted(response: TokenResponse) | Refused

  /**
   * Everything one call observes from outside: the clock in epoch milliseconds,
   * whether the storage layer accepts writes, and the answer each kind of
   * exchange would get (refresh, guest PKCE login, registered PKCE login).
   */
  datatype Env = Env(now: nat, storageWorks: bool, refresh: Exchange, guest: Exchange, login: Exchange)

  /** Why a call threw. */
  datatype AuthError = NoRefreshToken | ExchangeFailed | StorageFailed | NoAccessToken

  /** An external action a call performed, in the order performed. */
  datatype Effect =
    | RefreshExchange(refreshToken: string)
    | Cleared
    | GuestExchange(redirectUri: string)
    | CustomerExchange(username: string, password: string, redirectUri: string)

  /** One client instance; `appUrl` is the configured app URL, "" when unset. */
  datatype Client = Client(manager: Manager, authInProgress: bool, appUrl: string)

  /** The state after a call, the effects it performed and how it ended. */
  datatype Run<T> = Run(client: Client, effects: seq<Effect>, outcome: Result<T, AuthError>)

  /** `process.env.EXPO_PUBLIC_APP_URL || fallback`. */
  function RedirectUri(appUrl: string, fallback: string): (r: string)
    ensures appUrl != "" ==> r == appUrl
    ensures appUrl == "" ==> r == fallback
  {
    if appUrl != "" then appUrl else fallback
  }

  /** The record every flow saves from a token response received at `now`. */
  function Stamp(resp: TokenResponse, now: int): Tokens
  {
    Tokens(
      accessToken := resp.access_token,
      customerId := resp.customer_id,
      refreshToken := resp.refresh_token,
      tokenExpiry := now + (resp.expires_in - SafetyMarginSeconds) * 1000,
      usid := resp.usid)
  }

  /** True when an exchange, if granted, yields a token that is valid when saved. */
  predicate UsableWhenGranted(x: Exchange)
  {
    x.Granted? ==> x.response.access_token != "" && x.response.expires_in > SafetyMarginSeconds
  }

  /** The store holds a record with a non-empty refresh token (`tokens?.refreshToken`). */
  predicate HasRefreshToken(m: Manager)
  {
    m.store.Some? && m.store.value.refreshToken != ""
  }

  /** An `ensureAuthenticated` call that has to acquire a token: no attempt in flight, no valid token. */
  predicate MustAcquire(c: Client, now: int)
  {
    !c.authInProgress && !IsTokenValid(c.manager, now)
  }

  /** The save shared by every flow: stamp the response and hand it to the manager. */
  function SaveResponse(c: Client, resp: TokenResponse, env: Env): (r: Run<()>)
    ensures r.effects == []
    ensures r.client.authInProgress == c.authInProgress && r.client.appUrl == c.appUrl
    ensures r.outcome.Failure? ==> r.outcome.error == StorageFailed
    ensures c.manager.saveInProgress ==> r.client == c && r.outcome.Success?
    ensures !c.manager.saveInProgress ==> !r.client.manager.saveInProgress
    ensures !c.manager.saveInProgress && env.storageWorks ==>
      r.outcome.Success? && r.client.manager.store == Some(Stamp(resp, env.now))
    ensures !c.manager.saveInProgress && !env.storageWorks ==>
      r.outcome.Failure? && r.client.manager.store == c.manager.store
  {
    var saved := SaveTokens(c.manager, Stamp(resp, env.now), env.storageWorks);
    Run(c.(manager := saved.manager), [], if saved.threw then Failure(StorageFailed) else Success(()))
  }

  /** The guest PKCE flow followed by a save; shared by `authenticateAsGuest` and `logout`. */
  function GuestLogin(c: Client, env: Env, redirectUri: string): (r: Run<()>)
    ensures r.effects == [GuestExchange(redirectUri)]
    ensures r.client.authInProgress == c.authInProgress && r.client.appUrl == c.appUrl
    ensures !c.manager.saveInProgress ==> !r.client.manager.saveInProgress
    ensures env.guest.Refused? ==> r.client == c && r.outcome == Failure(ExchangeFailed)
    ensures r.outcome.Failure? ==> r.outcome.error == ExchangeFailed || r.outcome.error == StorageFailed
    ensures env.guest.Granted? && env.storageWorks && !c.manager.saveInProgress ==>
      r.outcome.Success? && r.client.manager.store == Some(Stamp(env.guest.response, env.now))
  {
    match env.guest
    case Refused => Run(c, [GuestExchange(redirectUri)], Failure(ExchangeFailed))
    case Granted(resp) =>
      var saved := SaveResponse(c, resp, env);
      saved.(effects := [GuestExchange(redirectUri)])
  }

  /** `authenticateAsGuest`: one guest login with the guest callback as fallback redirect. */
  function AuthenticateAsGuest(c: Client, env: Env): (r: Run<()>)
    ensures r.effects == [GuestExchange(RedirectUri(c.appUrl, GuestCallbackDefault))]
    ensures r.client.authInProgress == c.authInProgress && r.client.appUrl == c.appUrl
    ensures !c.manager.saveInProgress ==> !r.client.manager.saveInProgress
    ensures env.guest.Refused? ==> r.client == c && r.outcome == Failure(ExchangeFailed)
    ensures r.outcome.Failure? ==> r.outcome.error == ExchangeFailed || r.outcome.error == StorageFailed
    ensures env.guest.Granted? && env.storageWorks && !c.manager.saveInProgress ==>
      r.outcome.Success? && r.client.manager.store == Some(Stamp(env.guest.response, env.now))
  {
    GuestLogin(c, env, RedirectUri(c.appUrl, GuestCallbackDefault))
  }

  /** The private `refreshAccessToken`: throws without a stored refresh token, else exchanges it. */
  function RefreshAccessToken(c: Client, env: Env): (r: Run<()>)
    ensures !HasRefreshToken(c.manager) ==> r == Run(c, [], Failure(NoRefreshToken))
    ensures HasRefreshToken(c.manager) ==> r.effects == [RefreshExchange(c.manager.store.value.refreshToken)]
    ensures r.client.authInProgress == c.authInProgress && r.client.appUrl == c.appUrl
    ensures !c.manager.saveInProgress ==> !r.client.manager.saveInProgress
    ensures HasRefreshToken(c.manager) && env.refresh.Refused? ==> r.client == c && r.outcome == Failure(ExchangeFailed)
    ensures HasRefreshToken(c.manager) && env.refresh.Granted? && env.storageWorks ==> r.outcome.Success?
    ensures HasRefreshToken(c.manager) && env.refresh.Granted? && env.storageWorks && !c.manager.saveInProgress ==>
      r.client.manager.store == Some(Stamp(env.refresh.response, env.now))
    ensures HasRefreshToken(c.manager) && env.refresh.Granted? && !env.storageWorks && !c.manager.saveInProgress ==>
      r.outcome == Failure(StorageFailed)
  {
    match GetTokens(c.manager)
    case None => Run(c, [], Failure(NoRefreshToken))
    case Some(t) =>
      if t.refreshToken == "" then Run(c, [], Failure(NoRefreshToken))
      else
        match env.refresh
        case Refused => Run(c, [RefreshExchange(t.refreshToken)], Failure(ExchangeFailed))
        case Granted(resp) =>
          var saved := SaveResponse(c, resp, env);
          saved.(effects := [RefreshExchange(t.refreshToken)])
  }

  /** The `finally` of `ensureAuthenticated`: lower the flag, keep everything else. */
  function Release<T>(r: Run<T>): Run<T>
  {
    r.(client := r.client.(authInProgress := false))
  }

  /**
   * `ensureAuthenticated`: a caller that finds an attempt in flight returns at once;
   * a valid token is reused; otherwise refresh is tried first and, when it throws,
   * the tokens are cleared and exactly one guest login runs, whose error propagates.
   */
  function EnsureAuthenticated(c: Client, env: Env): (r: Run<()>)
    // the waiter branch and the hot path touch nothing
    ensures c.authInProgress ==> r == Run(c, [], Success(()))
    ensures !c.authInProgress && IsTokenValid(c.manager, env.now) ==> r == Run(c, [], Success(()))
    // the flag is down on every exit of an attempt, and no save is left in flight
    ensures !c.authInProgress ==> !r.client.authInProgress
    ensures !c.manager.saveInProgress ==> !r.client.manager.saveInProgress
    ensures r.client.appUrl == c.appUrl
    // the order of attempts
    ensures MustAcquire(c, env.now) && !HasRefreshToken(c.manager) ==>
      r.effects == [GuestExchange(RedirectUri(c.appUrl, GuestCallbackDefault))]
    ensures MustAcquire(c, env.now) && HasRefreshToken(c.manager) ==>
      |r.effects| > 0 && r.effects[0] == RefreshExchange(c.manager.store.value.refreshToken)
    ensures (MustAcquire(c, env.now) && HasRefreshToken(c.manager) && env.refresh.Granted? && env.storageWorks) ==>
      r.effects == [RefreshExchange(c.manager.store.value.refreshToken)] && r.outcome.Success?
    // the session each successful path leaves behind
    ensures (MustAcquire(c, env.now) && HasRefreshToken(c.manager) && env.refresh.Granted? &&
             env.storageWorks && !c.manager.saveInProgress) ==>
      r.client.manager.store == Some(Stamp(env.refresh.response, env.now))
    ensures (MustAcquire(c, env.now) && !HasRefreshToken(c.manager) &&
             env.guest.Granted? && env.storageWorks && !c.manager.saveInProgress) ==>
      r.outcome.Success? && r.client.manager.store == Some(Stamp(env.guest.response, env.now))
    ensures (MustAcquire(c, env.now) && HasRefreshToken(c.manager) && env.refresh.Refused?) ==>
      r.effects == [RefreshExchange(c.manager.store.value.refreshToken), Cleared,
                    GuestExchange(RedirectUri(c.appUrl, GuestCallbackDefault))]
    // after a refused refresh the session is the guest login's
    ensures (MustAcquire(c, env.now) && HasRefreshToken(c.manager) && env.refresh.Refused? &&
             env.guest.Granted? && env.storageWorks && !c.manager.saveInProgress) ==>
      r.outcome.Success? && r.client.manager.store == Some(Stamp(env.guest.response, env.now))
    // a failure is always the guest login's, the last effect performed
    ensures r.outcome.Failure? ==>
      (r.outcome.error == ExchangeFailed || r.outcome.error == StorageFailed) &&
      |r.effects| > 0 && r.effects[|r.effects| - 1].GuestExchange?
    // a token is valid on return only under these conditions
    ensures (!c.authInProgress && !c.manager.saveInProgress && r.outcome.Success? &&
             UsableWhenGranted(env.refresh) && UsableWhenGranted(env.guest)) ==>
      IsTokenValid(r.client.manager, env.now)
  {
    if c.authInProgress then Run(c, [], Success(()))
    else if IsTokenValid(c.manager, env.now) then Run(c, [], Success(()))
    else
      var busy := c.(authInProgress := true);
      if HasRefreshToken(busy.manager) then
        var refreshed := RefreshAccessToken(busy, env);
        if refreshed.outcome.Success? then
          Release(Run(refreshed.client, refreshed.effects, Success(())))
        else
          var cleared := refreshed.client.(manager := ClearTokens(refreshed.client.manager, env.storageWorks));
          var guest := AuthenticateAsGuest(cleared, env);
          Release(Run(guest.client, refreshed.effects + [Cleared] + guest.effects, guest.outcome))
      else
        Release(AuthenticateAsGuest(busy, env))
  }

  /**
   * `authenticateCustomer`: ensure a session first (its error propagates), then one
   * registered PKCE login and a save. The session id read beforehand is handed to
   * the login helper, which never sends it, so it does not appear in the effect.
   */
  function AuthenticateCustomer(c: Client, env: Env, username: string, password: string): (r: Run<()>)
    ensures var ensured := EnsureAuthenticated(c, env);
            ensured.outcome.Failure? ==> r == Run(ensured.client, ensured.effects, Failure(ensured.outcome.error))
    ensures var ensured := EnsureAuthenticated(c, env);
            ensured.outcome.Success? ==>
              r.effects == ensured.effects + [CustomerExchange(username, password, RedirectUri(c.appUrl, LocalCallbackDefault))]
    ensures env.login.Refused? ==> r.outcome.Failure?
    ensures !c.authInProgress ==> !r.client.authInProgress
    ensures !c.manager.saveInProgress ==> !r.client.manager.saveInProgress
    ensures r.outcome.Success? && env.storageWorks && !c.manager.saveInProgress ==>
      r.client.manager.store == Some(Stamp(env.login.response, env.now))
    ensures (EnsureAuthenticated(c, env).outcome.Success? && env.login.Granted? &&
             env.storageWorks && !c.manager.saveInProgress) ==>
      r.outcome.Success? && r.client.manager.store == Some(Stamp(env.login.response, env.now))
  {
    var ensured := EnsureAuthenticated(c, env);
    if ensured.outcome.Failure? then
      Run(ensured.client, ensured.effects, Failure(ensured.outcome.error))
    else
      var effects := ensured.effects + [CustomerExchange(username, password, RedirectUri(c.appUrl, LocalCallbackDefault))];
      match env.login
      case Refused => Run(ensured.client, effects, Failure(ExchangeFailed))
      case Granted(resp) =>
        var saved := SaveResponse(ensured.client, resp, env);
        saved.(effects := effects)
  }

  /** `logout`: a fresh guest login replaces the session; nothing is cleared first. */
  function Logout(c: Client, env: Env): (r: Run<()>)
    ensures r.effects == [GuestExchange(RedirectUri(c.appUrl, LocalCallbackDefault))]
    ensures r.client.authInProgress == c.authInProgress
    ensures env.guest.Refused? ==> r.client == c && r.outcome.Failure?
    ensures env.guest.Granted? && env.storageWorks && !c.manager.saveInProgress ==>
      r.outcome.Success? && r.client.manager.store == Some(Stamp(env.guest.response, env.now))
  {
    GuestLogin(c, env, RedirectUri(c.appUrl, LocalCallbackDefault))
  }

  /** `clearAllAuthentication`: empties the store (a storage error is swallowed). */
  function ClearAllAuthentication(c: Client, env: Env): (r: Client)
    ensures r.authInProgress == c.authInProgress && r.appUrl == c.appUrl
    ensures env.storageWorks ==> GetTokens(r.manager).None? && !IsTokenValid(r.manager, env.now)
    ensures !env.storageWorks ==> r == c
  {
    c.(manager := ClearTokens(c.manager, env.storageWorks))
  }

  /** `isAuthenticated`: the manager's validity test, without any attempt to authenticate. */
  predicate IsAuthenticated(c: Client, now: int)
  {
    IsTokenValid(c.manager, now)
  }

  /** `getCustomerId`: the stored customer id, undefined when there is no session. */
  function GetCustomerId(c: Client): (r: Option<string>)
    ensures r.Some? <==> c.manager.store.Some?
    ensures r.Some? ==> r.value == c.manager.store.value.customerId
  {
    match GetTokens(c.manager)
    case None => None
    case Some(t) => Some(t.customerId)
  }

  /**
   * `getAuthToken`: ensure a session, then hand out the stored access token; throws
   * when none is stored afterwards.
   */
  function GetAuthToken(c: Client, env: Env): (r: Run<string>)
    ensures var ensured := EnsureAuthenticated(c, env);
            r.client == ensured.client && r.effects == ensured.effects
    ensures r.outcome.Success? ==>
      r.outcome.value != "" && r.client.manager.store.Some? &&
      r.outcome.value == r.client.manager.store.value.accessToken
    ensures var ensured := EnsureAuthenticated(c, env);
            r.outcome == Failure(NoAccessToken) <==>
              ensured.outcome.Success? &&
              (ensured.client.manager.store.None? || ensured.client.manager.store.value.accessToken == "")
    ensures !c.authInProgress && IsTokenValid(c.manager, env.now) ==>
      r == Run(c, [], Success(c.manager.store.value.accessToken))
    ensures var ensured := EnsureAuthenticated(c, env);
            ensured.outcome.Failure? ==> r.outcome == Failure(ensured.outcome.error)
    ensures var ensured := EnsureAuthenticated(c, env);
            (ensured.outcome.Success? && ensured.client.manager.store.Some? &&
             ensured.client.manager.store.value.accessToken != "") ==>
              r.outcome == Success(ensured.client.manager.store.value.accessToken)
  {
    var ensured := EnsureAuthenticated(c, env);
    if ensured.outcome.Failure? then
      Run(ensured.client, ensured.effects, Failure(ensured.outcome.error))
    else
      match GetTokens(ensured.client.manager)
      case None => Run(ensured.client, ensured.effects, Failure(NoAccessToken))
      case Some(t) =>
        if t.accessToken == "" then Run(ensured.client, ensured.effects, Failure(NoAccessToken))
        else Run(ensured.client, ensured.effects, Success(t.accessToken))
  }

  /** `n` callers of `ensureAuthenticated` one after the other at the same instant. */
  function EnsureRepeatedly(c: Client, env: Env, n: nat): (r: Run<()>)
    ensures n == 0 ==> r == Run(c, [], Success(()))
    decreases n
  {
    if n == 0 then Run(c, [], Success(()))
    else
      var first := EnsureAuthenticated(c, env);
      if first.outcome.Failure? then first
      else
        var rest := EnsureRepeatedly(first.client, env, n - 1);
        Run(rest.client, first.effects + rest.effects, rest.outcome)
  }

  /** A saved token is valid for exactly `expires_in - 300` seconds after the save, and never if empty. */
  lemma StampValidWindow(resp: TokenResponse, savedAt: nat, at: int)
    requires savedAt <= at
    ensures TokensValid(Stamp(resp, savedAt), at) <==>
      resp.access_token != "" && at - savedAt < (resp.expires_in - SafetyMarginSeconds) * 1000
  {
  }

  /** A freshly saved session is valid at the save instant exactly when the token is non-empty and outlives the margin. */
  lemma FreshSessionValidIff(resp: TokenResponse, now: nat)
    ensures TokensValid(Stamp(resp, now), now) <==> resp.access_token != "" && resp.expires_in > SafetyMarginSeconds
  {
    StampValidWindow(resp, now, now);
  }

  /** A token that lives no longer than the margin is stored already expired: the guest login "succeeds" with no valid token. */
  lemma ShortLivedTokenIsStale(c: Client, env: Env)
    requires MustAcquire(c, env.now) && !HasRefreshToken(c.manager) && !c.manager.saveInProgress
    requires env.storageWorks && env.guest.Granted? && env.guest.response.expires_in <= SafetyMarginSeconds
    ensures EnsureAuthenticated(c, env).outcome.Success?
    ensures !IsTokenValid(EnsureAuthenticated(c, env).client.manager, env.now)
  {
    FreshSessionValidIff(env.guest.response, env.now);
  }

  /**
   * A refresh the server rejects with an error body does not throw: its empty
   * record is saved, the attempt returns without clearing and without a guest
   * login, and only the next caller, finding no refresh token, logs in as guest.
   */
  lemma RejectedRefreshIsSaved(c: Client, env: Env)
    requires MustAcquire(c, env.now) && HasRefreshToken(c.manager) && !c.manager.saveInProgress
    requires env.storageWorks && env.refresh.Granted?
    requires env.refresh.response.access_token == "" && env.refresh.response.refresh_token == ""
    ensures var r := EnsureAuthenticated(c, env);
      && r.outcome.Success?
      && r.effects == [RefreshExchange(c.manager.store.value.refreshToken)]
      && !IsTokenValid(r.client.manager, env.now)
      && !HasRefreshToken(r.client.manager)
      && GetCustomerId(r.client) == Some(env.refresh.response.customer_id)
      && EnsureAuthenticated(r.client, env).effects == [GuestExchange(RedirectUri(c.appUrl, GuestCallbackDefault))]
  {
  }

  /** A caller that arrives while an attempt is in flight returns normally even though no token exists. */
  lemma WaiterMayReturnWithoutToken(env: Env)
    ensures var c := Client(Initial, true, "");
            EnsureAuthenticated(c, env).outcome.Success? && !IsTokenValid(EnsureAuthenticated(c, env).client.manager, env.now)
    ensures GetAuthToken(Client(Initial, true, ""), env).outcome == Failure(NoAccessToken)
  {
  }

  /** Once one caller has acquired a usable token, every further caller at that instant reuses it: no exchange beyond the first caller's. */
  lemma {:induction false} SingleFlight(c: Client, env: Env, n: nat)
    requires !c.authInProgress && !c.manager.saveInProgress
    requires UsableWhenGranted(env.refresh) && UsableWhenGranted(env.guest)
    requires EnsureAuthenticated(c, env).outcome.Success?
    ensures EnsureRepeatedly(c, env, n + 1).effects == EnsureAuthenticated(c, env).effects
    ensures EnsureRepeatedly(c, env, n + 1).outcome.Success?
  {
    var first := EnsureAuthenticated(c, env);
    assert IsTokenValid(first.client.manager, env.now);
    ReuseIsSilent(first.client, env, n);
    assert first.effects + [] == first.effects;
  }

  /** From a client holding a valid token, any number of callers perform nothing. */
  lemma {:induction false} ReuseIsSilent(c: Client, env: Env, n: nat)
    requires !c.authInProgress && IsTokenValid(c.manager, env.now)
    ensures EnsureRepeatedly(c, env, n) == Run(c, [], Success(()))
    decreases n
  {
    if n > 0 {
      ReuseIsSilent(c, env, n - 1);
    }
  }

  /** Guest login then registered login: the customer id moves from the guest's to the customer's, with one exchange each. */
  lemma IdentityTransition(c: Client, env: Env, username: string, password: string)
    requires c.manager == Initial && !c.authInProgress && env.storageWorks
    requires env.guest.Granted? && UsableWhenGranted(env.guest) && env.login.Granted?
    ensures var guest := AuthenticateAsGuest(c, env);
            GetCustomerId(guest.client) == Some(env.guest.response.customer_id) &&
            var customer := AuthenticateCustomer(guest.client, env, username, password);
            customer.outcome.Success? &&
            customer.effects == [CustomerExchange(username, password, RedirectUri(c.appUrl, LocalCallbackDefault))] &&
            GetCustomerId(customer.client) == Some(env.login.response.customer_id)
  {
    var guest := AuthenticateAsGuest(c, env);
    FreshSessionValidIff(env.guest.response, env.now);
    assert IsTokenValid(guest.client.manager, env.now);
    assert [] + [CustomerExchange(username, password, RedirectUri(c.appUrl, LocalCallbackDefault))]
        == [CustomerExchange(username, password, RedirectUri(c.appUrl, LocalCallbackDefault))];
  }
}
