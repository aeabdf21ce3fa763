/**
 * The token store and its manager (integrations/salesforce/store.ts and
 * integrations/salesforce/session-manager.ts).
 *
 * The store holds the JavaScript object last written to it. Both writers write
 * either all five keys (`saveTokens`) or the empty object `{}` (`clearTokens`),
 * so the store is modelled as `Option<Tokens>`: `None` is the object with no keys.
 * The clock (`Date.now()`) is an explicit parameter, and whether the storage
 * layer accepts a write is an explicit `writeOk` parameter.
 */
module SessionManager {
  import opened Wrappers

  /** The persisted credential record; `tokenExpiry` is in epoch milliseconds. */
  datatype Tokens = Tokens(
    accessToken: string,
    customerId: string,
    refreshToken: string,
    tokenExpiry: int,
    usid: string)

  /** One manager instance: the store it fronts and its single-writer flag. */
  datatype Manager = Manager(store: Option<Tokens>, saveInProgress: bool)

  /** What `saveTokens` leaves behind: the manager and whether the call threw. */
  datatype SaveResult = SaveResult(manager: Manager, threw: bool)

  /** A manager as constructed at process start over an empty store. */
  const Initial: Manager := Manager(None, false)

  /** `getTokens`: the stored record, or null when the stored object has no keys. */
  function GetTokens(m: Manager): Option<Tokens>
  {
    m.store
  }

  /** The synchronous prologue of a save that is not dropped: the flag goes up. */
  function BeginSave(m: Manager): (r: Manager)
    requires !m.saveInProgress
    ensures r.saveInProgress && r.store == m.store
  {
    m.(saveInProgress := true)
  }

  /** The body and `finally` of a save in flight: write `data`, then lower the flag. */
  function FinishSave(m: Manager, data: Tokens, writeOk: bool): (r: SaveResult)
    ensures !r.manager.saveInProgress
    ensures r.threw <==> !writeOk
    ensures r.manager.store == (if writeOk then Some(data) else m.store)
  {
    var written := if writeOk then m.(store := Some(data)) else m;
    SaveResult(written.(saveInProgress := false), !writeOk)
  }

  /**
   * `saveTokens`: dropped while another save is in flight; otherwise the store is
   * replaced by `data` (when the storage layer accepts the write) and the flag is
   * cleared on the way out, also when the write throws.
   */
  function SaveTokens(m: Manager, data: Tokens, writeOk: bool): (r: SaveResult)
    ensures m.saveInProgress ==> r == SaveResult(m, false)
    ensures !m.saveInProgress ==> !r.manager.saveInProgress
    ensures !m.saveInProgress && writeOk ==> r.manager.store == Some(data) && !r.threw
    ensures !m.saveInProgress && !writeOk ==> r.manager.store == m.store && r.threw
  {
    if m.saveInProgress then SaveResult(m, false)
    else FinishSave(BeginSave(m), data, writeOk)
  }

  /** `clearTokens`: writes the empty object; a storage error is logged and swallowed. */
  function ClearTokens(m: Manager, writeOk: bool): (r: Manager)
    ensures r.saveInProgress == m.saveInProgress
    ensures writeOk ==> r.store.None?
    ensures !writeOk ==> r == m
  {
    if writeOk then m.(store := None) else m
  }

  /** The validity test of `isTokenValid` on one record at time `now`. */
  predicate TokensValid(t: Tokens, now: int)
  {
    t.accessToken != "" && t.tokenExpiry != 0 && now < t.tokenExpiry
  }

  /** `isTokenValid`: recomputed from the store on every call; never cached. */
  predicate IsTokenValid(m: Manager, now: int)
  {
    match GetTokens(m)
    case None => false
    case Some(t) => TokensValid(t, now)
  }

  /** A non-empty store is handed back unchanged, an empty one as null. */
  lemma GetTokensReturnsStore(m: Manager)
    ensures GetTokens(m).None? <==> m.store.None?
    ensures m.store.Some? ==> GetTokens(m) == Some(m.store.value)
  {
  }

  /** A save that is not dropped is read back exactly: no field of the earlier record survives. */
  lemma SaveThenGet(m: Manager, data: Tokens)
    requires !m.saveInProgress
    ensures GetTokens(SaveTokens(m, data, true).manager) == Some(data)
    ensures !SaveTokens(m, data, true).manager.saveInProgress
  {
  }

  /**
   * The guard on its own: a save that finds the flag raised changes nothing,
   * whatever it carries. Between whole calls the flag is never raised (see
   * `FlagNeverSeenRaised`), so the app never takes this branch.
   */
  lemma DroppedSaveIsNoOp(m: Manager, data: Tokens, writeOk: bool)
    requires m.saveInProgress
    ensures SaveTokens(m, data, writeOk).manager == m
    ensures GetTokens(SaveTokens(m, data, writeOk).manager) == GetTokens(m)
  {
  }

  /** Two saves one after the other both land: the later record wins. */
  lemma ConsecutiveSavesKeepLast(m: Manager, first: Tokens, second: Tokens)
    requires !m.saveInProgress
    ensures var afterFirst := SaveTokens(m, first, true).manager;
            !afterFirst.saveInProgress &&
            GetTokens(SaveTokens(afterFirst, second, true).manager) == Some(second)
  {
  }

  /**
   * One call into the manager. `saveTokens` has no suspension point between
   * raising and lowering its flag, so every call runs to completion before the
   * next one starts: a run of the app is a sequence of whole calls.
   */
  datatype Call = Save(data: Tokens, writeOk: bool) | Clear(clearOk: bool)

  /** The manager after one whole call. */
  function Step(m: Manager, call: Call): Manager
  {
    match call
    case Save(data, ok) => SaveTokens(m, data, ok).manager
    case Clear(ok) => ClearTokens(m, ok)
  }

  /** The manager after a sequence of whole calls, in order. */
  function Apply(m: Manager, calls: seq<Call>): Manager
    decreases |calls|
  {
    if |calls| == 0 then m else Apply(Step(m, calls[0]), calls[1..])
  }

  /** Applying a sequence and then one more call is applying the longer sequence. */
  lemma {:induction false} ApplyAppend(m: Manager, calls: seq<Call>, last: Call)
    ensures Apply(m, calls + [last]) == Step(Apply(m, calls), last)
    decreases |calls|
  {
    if |calls| == 0 {
      assert calls + [last] == [last];
    } else {
      assert (calls + [last])[1..] == calls[1..] + [last];
      ApplyAppend(Step(m, calls[0]), calls[1..], last);
    }
  }

  /** Between whole calls the flag is always down, so the "already in progress" guard never fires. */
  lemma {:induction false} FlagNeverSeenRaised(m: Manager, calls: seq<Call>)
    requires !m.saveInProgress
    ensures !Apply(m, calls).saveInProgress
    decreases |calls|
  {
    if |calls| > 0 {
      FlagNeverSeenRaised(Step(m, calls[0]), calls[1..]);
    }
  }

  /** Whatever came before, a save whose write succeeds is what the store then holds. */
  lemma LastSaveLands(calls: seq<Call>, data: Tokens)
    ensures GetTokens(Apply(Initial, calls + [Save(data, true)])) == Some(data)
  {
    ApplyAppend(Initial, calls, Save(data, true));
    FlagNeverSeenRaised(Initial, calls);
  }

  /** After a successful clear there is no session and no valid token at any time. */
  lemma ClearedIsEmptyAndInvalid(m: Manager, now: int)
    ensures GetTokens(ClearTokens(m, true)).None?
    ensures !IsTokenValid(ClearTokens(m, true), now)
  {
  }

  /** Validity holds exactly when the access token is set, the expiry is set and lies in the future. */
  lemma ValidityCharacterised(m: Manager, now: int)
    ensures IsTokenValid(m, now) <==>
      m.store.Some? && m.store.value.accessToken != "" &&
      m.store.value.tokenExpiry != 0 && now < m.store.value.tokenExpiry
  {
  }

  /** The expiry instant itself is already invalid, and so is every later instant. */
  lemma ExpiryBoundary(m: Manager, now: int)
    requires m.store.Some? && now >= m.store.value.tokenExpiry
    ensures !IsTokenValid(m, now)
  {
  }

  /** Validity only ever goes from true to false as the clock advances. */
  lemma ValidityMonotoneInTime(m: Manager, earlier: int, later: int)
    requires earlier <= later
    ensures IsTokenValid(m, later) ==> IsTokenValid(m, earlier)
  {
  }
}
