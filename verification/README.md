# A Dafny model of the mob-kit storefront core

mob-kit is a React Native (Expo) shopping app for Salesforce Commerce Cloud.
This project models the parts of it that are sequential logic rather than
rendering or SDK wiring, and proves properties of that model:

- **Session and token lifecycle** (`session_manager.dfy`, `auth_client.dfy`).
  The token store, the session manager's single-writer save flag and its
  validity test, and the commerce client's choice before each API call:
  reuse the token, refresh it, or fall back to a guest login. The client is a
  state-transition system. Each operation maps a `Client` and an `Env` to a
  `Run`: the new client, the network exchanges performed in order, and a
  `Result`. The `Env` holds the clock instant, whether storage accepts writes,
  and the outcome of each kind of exchange.
- **PKCE and request helpers** (`helpers.dfy`). These cover:
  - `urlSafe` and the code challenge, related to the two base64 alphabets of
    sections 4 and 5 of RFC 4648 and to the `S256` challenge of section 4.2 of
    RFC 7636;
  - the API host name;
  - the Basic credentials of section 2 of RFC 7617;
  - the ordered form bodies of the guest, registered-login and refresh requests.
- **The commerce-function wrapper** (`commerce_errors.dfy`). It classifies a
  handler's result or error as a returned value or a `CommerceAPIException`
  with a status and a message.
- **Pure UI logic**:
  - pagination arithmetic and the page-button window (`pagination.dfy`);
  - the quantity stepper (`quantity_selector.dfy`);
  - variant orderability and availability (`product_variations.dfy`);
  - the refinement panel's helpers (`filter_content.dfy`);
  - product normalisation (`normalize_product.dfy`).
- **Form validation** (`forms.dfy`, `customer_form.dfy`, `checkout_form.dfy`).
  Each zod schema is an ordered list of checks. Parsing succeeds exactly when
  every check passes; otherwise it reports one issue per failed check.
  `wrappers.dfy` (`Option`, `Result`) and `seqs.dfy` (an order-preserving
  filter) are shared helpers.

Where the code promises less than its design describes, the model follows the
code:

- A caller of `ensureAuthenticated` that finds an attempt in flight returns
  without checking validity.
- A token response with `expires_in` of 300 seconds or less is saved already
  expired.
- `authenticateCustomer` hands the session id (`usid`) to
  `loginRegisteredUserB2C`, which never sends it.
- The token helpers never check the HTTP status of the token endpoint's answer.
  A rejected refresh (an error body) therefore does not throw. Its record of
  missing fields is saved, and `ensureAuthenticated` returns without clearing
  and without a guest login. Only the next caller, finding no refresh token,
  falls back to the guest login. The clear-and-guest fallback runs only when the
  request itself throws. In the model `Refused` is a request that throws. An
  error answer is `Granted` with missing fields: "" stands for an undefined
  string, and an integer lifetime stands for the undefined one, whose `NaN`
  expiry is never valid.
- The refresh body holds only `grant_type`, `refresh_token`, `client_id`,
  `channel_id`, and `dnt` when it is given.

The session manager's "save already in progress" guard
(integrations/salesforce/session-manager.ts:24-27) is kept as a branch of
`SaveTokens`, but the app never takes it. `saveTokens` does not suspend between
raising its flag (line 29) and lowering it in the `finally` (line 43). So every
call runs to completion before the next one starts. `FlagNeverSeenRaised` proves
that the flag is down between whole calls, and `LastSaveLands` proves that a
save whose write succeeds is never lost.

## Model

| member | source | states |
|---|---|---|
| SessionManager.SaveTokens | integrations/salesforce/session-manager.ts:17-45 | a save during another save changes nothing; otherwise the store becomes exactly the new record when the write succeeds, stays as it was when the write throws, and the flag is down afterwards either way |
| SessionManager.BeginSave | integrations/salesforce/session-manager.ts:29 | raising the save flag keeps the stored record |
| SessionManager.FinishSave | integrations/salesforce/session-manager.ts:31-44 | the write stores exactly the new record or, when it throws, keeps the old one and reports the throw; the flag is down afterwards either way |
| SessionManager.ClearTokens | integrations/salesforce/session-manager.ts:47-53 | a successful clear empties the store; a failed one changes nothing; the save flag is untouched |
| SessionManager.GetTokensReturnsStore | integrations/salesforce/session-manager.ts:7-15 | reading gives null exactly for an empty store, and the stored record unchanged otherwise |
| SessionManager.SaveThenGet | integrations/salesforce/session-manager.ts:24-44 | after a save that is not dropped, reading returns exactly the saved record, with nothing merged from before |
| SessionManager.DroppedSaveIsNoOp | integrations/salesforce/session-manager.ts:24-27 | a save while the flag is up leaves the manager, and hence what is read, unchanged |
| SessionManager.ConsecutiveSavesKeepLast | integrations/salesforce/session-manager.ts:24-44 | two saves one after the other both land; the later record is what remains |
| SessionManager.ApplyAppend | integrations/salesforce/session-manager.ts:17-53 | running a sequence of whole calls and then one more is the same as running the longer sequence |
| SessionManager.FlagNeverSeenRaised | integrations/salesforce/session-manager.ts:24-44 | from a lowered flag, the flag is down again after any sequence of saves and clears, so the guard at lines 24-27 is never taken |
| SessionManager.LastSaveLands | integrations/salesforce/session-manager.ts:17-45 | from process start, after any sequence of calls, a save whose write succeeds leaves exactly its record in the store |
| SessionManager.GetTokens | integrations/salesforce/session-manager.ts:7-15 | the stored record, or null for the empty object (its contract is `GetTokensReturnsStore`) |
| SessionManager.IsTokenValid | integrations/salesforce/session-manager.ts:55-79 | validity recomputed from the store on every call (its contract is `ValidityCharacterised`) |
| SessionManager.ClearedIsEmptyAndInvalid | integrations/salesforce/session-manager.ts:47-63 | after a clear there are no tokens and no valid token at any instant |
| SessionManager.ValidityCharacterised | integrations/salesforce/session-manager.ts:55-79 | a token is valid exactly when a record is stored, its access token is non-empty, its expiry is non-zero and the clock is before the expiry |
| SessionManager.ExpiryBoundary | integrations/salesforce/session-manager.ts:59-63 | at the expiry instant and after it the token is invalid |
| SessionManager.ValidityMonotoneInTime | integrations/salesforce/session-manager.ts:59-63 | validity can only change from true to false as the clock advances |
| AuthClient.SaveResponse | integrations/salesforce/client.ts:76-82 | every flow stores exactly the response's tokens stamped with expiry `now + (expires_in - 300) * 1000`. A storage error surfaces as a failure and leaves the store as it was. A save that finds the flag raised is dropped silently and reports success, a branch the app never takes |
| AuthClient.RedirectUri | integrations/salesforce/client.ts:73 | the redirect is the app URL when it is set and non-empty, otherwise the flow's fallback callback |
| AuthClient.GuestLogin | integrations/salesforce/client.ts:71-82 | one guest exchange with the given redirect; a refused exchange changes nothing; a granted one stores exactly the stamped response when storage works |
| AuthClient.AuthenticateAsGuest | integrations/salesforce/client.ts:70-83 | exactly one guest exchange, with the app URL or the guest callback as redirect; a refused exchange changes nothing and fails; a granted one is saved |
| AuthClient.RefreshAccessToken | integrations/salesforce/client.ts:85-100 | fails with no effect when no refresh token is stored; otherwise exactly one refresh exchange with the stored token, and the granted response is saved |
| AuthClient.EnsureAuthenticated | integrations/salesforce/client.ts:29-68 | a caller that finds an attempt in flight, or a valid token, returns with no effect and no change. Otherwise it refreshes first; after a refresh that throws it clears, then runs exactly one guest login, and the refresh error is not propagated. Only the guest login's failure propagates. A granted refresh, or a guest login when there is no refresh token, leaves exactly the stamped response in the store when storage works. The in-flight flag is down on every exit. When every granted exchange yields a token that is valid once saved, and no save is in flight, a successful attempt leaves a valid token |
| AuthClient.AuthenticateCustomer | integrations/salesforce/client.ts:102-130 | an error from ensuring the session propagates; otherwise exactly one registered login follows (with no session id in it). A granted login with working storage succeeds, and its stamped tokens replace the session |
| AuthClient.Logout | integrations/salesforce/client.ts:132-145 | logout is one guest login that replaces the session; nothing is cleared first |
| AuthClient.ClearAllAuthentication | integrations/salesforce/client.ts:147-149 | a successful clear leaves no tokens and no valid token |
| AuthClient.IsAuthenticated | integrations/salesforce/client.ts:151-153 | the manager's validity test, with no attempt to authenticate (its contracts are `ValidityCharacterised` and `ClearAllAuthentication`) |
| AuthClient.GetCustomerId | integrations/salesforce/client.ts:155-158 | the stored record's customer id, and undefined when there is no session. A stored record can carry "" (standing for an undefined id), as after a rejected refresh |
| AuthClient.GetAuthToken | integrations/salesforce/client.ts:160-169 | ensures a session first, and an error from that propagates unchanged. It then returns the stored access token whenever one is stored and non-empty, and throws exactly when ensuring succeeded but no access token is stored. With a valid token it performs nothing |
| AuthClient.StampValidWindow | integrations/salesforce/client.ts:80 | a saved token is valid for exactly `expires_in - 300` seconds after the save, and never when the access token is empty |
| AuthClient.FreshSessionValidIff | integrations/salesforce/client.ts:76-82 | a freshly saved session is valid at the save instant exactly when the access token is non-empty and `expires_in > 300` |
| AuthClient.ShortLivedTokenIsStale | integrations/salesforce/client.ts:29-83 | with `expires_in <= 300` the guest fallback succeeds yet leaves no valid token |
| AuthClient.RejectedRefreshIsSaved | integrations/salesforce/client.ts:47-53 | a refresh the server rejects with an error body succeeds. It performs only the refresh exchange, leaves no valid token and no refresh token, and does not clear or log in as guest. The session stays, with the error body's customer id ("" for an undefined one). The next caller then performs exactly one guest exchange |
| AuthClient.WaiterMayReturnWithoutToken | integrations/salesforce/client.ts:31-37 | a caller that finds an attempt in flight returns normally even with an empty store, and a token request then throws |
| AuthClient.SingleFlight | integrations/salesforce/client.ts:29-68 | once one caller has acquired a usable token, any number of later callers at the same instant add no exchange |
| AuthClient.ReuseIsSilent | integrations/salesforce/client.ts:39-41 | from a valid token, any number of callers perform nothing and change nothing |
| AuthClient.IdentityTransition | integrations/salesforce/client.ts:102-130 | a guest login followed by a customer login moves the customer id from the guest's to the customer's, with one exchange |
| Helpers.UrlSafeIsSinglePass | integrations/salesforce/helpers.ts:16-17 | the three global replaces equal one left-to-right pass: `+` becomes `-`, `/` becomes `_`, `=` is dropped, and everything else is kept in order |
| Helpers.ReplaceAll | integrations/salesforce/helpers.ts:17 | a global replace of one character keeps the length and changes exactly the occurrences of that character |
| Helpers.DeleteAll | integrations/salesforce/helpers.ts:17 | a global delete of one character leaves no occurrence of it and keeps every other character, in order and with its multiplicity |
| Helpers.UrlSafe | integrations/salesforce/helpers.ts:16-17 | the three global replaces in source order (its contracts are `UrlSafeIsSinglePass`, `UrlSafeOutputIsSafe`, `UrlSafeIdentityIff` and `UrlSafeIdempotent`) |
| Helpers.StdEncode | integrations/salesforce/helpers.ts:29-35 | a digest in padded standard base64 has four characters for every started group of three bytes (section 4 of RFC 4648) |
| Helpers.UrlSafeOutputIsSafe | integrations/salesforce/helpers.ts:16-17 | the output never contains `+`, `/` or `=` |
| Helpers.UrlSafeIdentityIff | integrations/salesforce/helpers.ts:16-17 | `urlSafe` is the identity exactly on strings without `+`, `/` and `=` |
| Helpers.UrlSafeIdempotent | integrations/salesforce/helpers.ts:16-17 | applying `urlSafe` twice equals applying it once |
| Helpers.UrlSafeOfStdEncode | integrations/salesforce/helpers.ts:16-17 | `urlSafe` of standard padded base64 is unpadded base64url of the same bytes (RFC 4648, sections 4 and 5) |
| Helpers.GenerateCodeChallenge | integrations/salesforce/helpers.ts:28-38 | an empty digest gives the empty challenge; a challenge never contains `+`, `/` or `=` |
| Helpers.ChallengeIsS256 | integrations/salesforce/helpers.ts:28-38 | for a 32-byte SHA-256 digest the challenge is BASE64URL-ENCODE of the digest, 43 characters (section 4.2 of RFC 7636) |
| Helpers.NanoidVerifierIsPkceVerifier | integrations/salesforce/helpers.ts:19-26 | a 128-character verifier over nanoid's URL alphabet meets the verifier grammar of section 4.1 of RFC 7636 |
| Helpers.GetURL | integrations/salesforce/helpers.ts:11-13 | the host is `https://`, then the short code, then `.api.commercecloud.salesforce.com` |
| Helpers.GetURLInjective | integrations/salesforce/helpers.ts:11-13 | distinct short codes give distinct hosts |
| Helpers.OAuthEndpoint | integrations/salesforce/helpers.ts:87-88 | the token and login endpoints start with the API host and end with the endpoint's name |
| Helpers.Lookup | integrations/salesforce/helpers.ts:73-77 | `URLSearchParams.get` over the ordered entries (its contract is `LookupSpec`) |
| Helpers.LookupSpec | integrations/salesforce/helpers.ts:73-77 | reading a query parameter gives null exactly when no entry has the key, and otherwise the value of the first entry that has it |
| Helpers.GuestAuthorizeParams | integrations/salesforce/helpers.ts:55-63 | the authorize call's parameters are exactly its seven keys in source order |
| Helpers.CodeExchangeBody | integrations/salesforce/helpers.ts:70-78 | the code-exchange body is exactly its seven keys in source order |
| Helpers.LoginAsGuest | integrations/salesforce/helpers.ts:41-101 | the authorize parameters and the token body hold exactly their keys in source order, and the token request goes to the token endpoint |
| Helpers.GuestAuthorizeFields | integrations/salesforce/helpers.ts:53-66 | the authorize call asks for `response_type` "code" with `hint` "guest", and carries the challenge and redirect URI |
| Helpers.CodeExchangeFields | integrations/salesforce/helpers.ts:70-78 | the token body uses the `authorization_code_pkce` grant, reveals the verifier and repeats the redirect URI |
| Helpers.CodeExchangeForwards | integrations/salesforce/helpers.ts:68-85 | the token body forwards the redirect's `code` and `usid`, and sends "null" for a missing one |
| Helpers.GuestFlowBindsVerifier | integrations/salesforce/helpers.ts:45-78 | the guest flow sends the challenge of the verifier its token request reveals, and one redirect URI in both requests |
| Helpers.UserPassRoundTrip | integrations/salesforce/helpers.ts:123 | credentials whose username has no colon are recovered intact by a split at the first colon (section 2 of RFC 7617) |
| Helpers.ColonInUsernameIsMisread | integrations/salesforce/helpers.ts:123 | a colon in the username is not rejected. For every such username and password, the split at the first colon yields the username's prefix before its own first colon and a password that begins with the rest of the username, so the username is never recovered |
| Helpers.ColonInUsernameExample | integrations/salesforce/helpers.ts:123 | for instance `a:b` with password `c` is read as user `a` with password `b:c` |
| Helpers.Btoa | integrations/salesforce/helpers.ts:123 | `btoa` succeeds exactly on strings of Latin-1 characters, and its output has the length of padded base64 for that many bytes |
| Helpers.LoginRegisteredUser | integrations/salesforce/helpers.ts:115-151 | the login request has `Authorization: Basic` with the base64 of `username:password`, and its body is exactly `redirect_uri`, `client_id`, `code_challenge`, `channel_id` with no `usid`; it fails where `btoa` throws |
| Helpers.LoginRegisteredUserB2C | integrations/salesforce/helpers.ts:103-184 | the login request is followed by the shared code exchange to the token endpoint, and nothing is sent when `btoa` throws |
| Helpers.LoginBodyFields | integrations/salesforce/helpers.ts:125-136 | the login body carries the given challenge and redirect URI and no session id |
| Helpers.RegisteredFlowBindsVerifier | integrations/salesforce/helpers.ts:115-163 | the registered flow sends the challenge of the verifier that its token request reveals, and one redirect URI in both requests; the session id is read from the login's redirect, not taken from the caller |
| Helpers.RefreshBody | integrations/salesforce/helpers.ts:193-199 | the refresh body is exactly `grant_type`, `refresh_token`, `client_id`, `channel_id`, with `dnt` appended only when it is given |
| Helpers.RefreshBodyFields | integrations/salesforce/helpers.ts:193-197 | the refresh body carries the `refresh_token` grant, the token, and the client and channel ids |
| Helpers.RefreshBodyDnt | integrations/salesforce/helpers.ts:198 | `dnt` is sent, as `true` or `false`, exactly when it is given |
| CommerceErrors.NewException | integrations/salesforce/utils.ts:24-29 | an exception keeps its message; the status defaults to 400 and the data to `{}` |
| CommerceErrors.Classify | integrations/salesforce/utils.ts:55-74 | the wrapper's own exceptions are rethrown unchanged. An error with response data gets that data, its `detail` or "Commerce API Error" as message, and the response status or 500. Any other error gets its message or "An unexpected error occurred", with status 500. A thrown null escapes as a TypeError. Nothing is returned |
| CommerceErrors.CommerceFunction | integrations/salesforce/utils.ts:41-75 | a result that is not an object with both `detail` and `title` is returned unchanged; one that is becomes an exception with status 400, its `detail` or the default message, and the object as data; a returned value is always the handler's own |
| CommerceErrors.OwnExceptionsHaveMessages | integrations/salesforce/utils.ts:49-73 | every exception the wrapper builds has a non-empty message |
| CommerceErrors.OwnExceptionStatuses | integrations/salesforce/utils.ts:49-73 | every exception the wrapper builds has status 400, 500 or the response's own non-zero status |
| CommerceErrors.WrappingIsIdempotent | integrations/salesforce/utils.ts:55-59 | wrapping an already wrapped call changes nothing |
| Pagination.HasNext | components/commerce/pagination.tsx:56 | a next page exists while one page past the offset is still below the total (its contracts are `NextImpliesNotLast` and `AlignedNavigation`) |
| Pagination.HasPrev | components/commerce/pagination.tsx:57 | a previous page exists for a positive offset (its contract is `AlignedNavigation`) |
| Pagination.ItemsStart | components/commerce/pagination.tsx:59 | the first item shown is numbered one past the offset (its contract is `ItemsShown`) |
| Pagination.VisiblePages | components/commerce/pagination.tsx:80-113 | the row of page buttons (its contracts are `FewPagesListedInFull`, `NearStart`, `NearEnd`, `InTheMiddle` and `ManyPagesWindow`) |
| Pagination.CurrentPage | components/commerce/pagination.tsx:54 | the current page is the one whose item range holds the offset |
| Pagination.TotalPages | components/commerce/pagination.tsx:55 | the page count is the least number of pages that holds `total` items |
| Pagination.ItemsEnd | components/commerce/pagination.tsx:60 | the last item shown is at most the total and at most one page past the offset, and equals one of them |
| Pagination.NextPage | components/commerce/pagination.tsx:67-71 | next navigates exactly when there is a next page, to one page further, still below the total |
| Pagination.PrevPage | components/commerce/pagination.tsx:73-77 | previous navigates exactly when the offset is positive: one page back, or to 0 when less than a page remains, never negative, and strictly back for a positive page size |
| Pagination.GoToPage | components/commerce/pagination.tsx:62-65 | for a positive page size, going to page `p` yields a page-aligned offset whose current page is `p` |
| Pagination.NextImpliesNotLast | components/commerce/pagination.tsx:54-56 | while there is a next page the current page is not the last one |
| Pagination.AlignedNavigation | components/commerce/pagination.tsx:54-57 | on a page boundary, `hasNext` holds exactly when the page is not the last, and `hasPrev` exactly when it is not the first |
| Pagination.StepByOnePage | components/commerce/pagination.tsx:54-77 | from a page boundary next moves one page forward and previous one page back |
| Pagination.ItemsShown | components/commerce/pagination.tsx:59-60 | a page shows `min(limit, total - offset)` items |
| Pagination.Range | components/commerce/pagination.tsx:84-87 | the loop lists the consecutive page numbers from its lower to its upper bound |
| Pagination.FewPagesListedInFull | components/commerce/pagination.tsx:84-87 | up to five pages are listed as exactly `1..totalPages` with no ellipsis |
| Pagination.NearStart | components/commerce/pagination.tsx:89-94 | near the first page the row runs from page 1 to the last page in six or seven entries, with consecutive numbers or an ellipsis over every gap, and it includes the current page |
| Pagination.NearEnd | components/commerce/pagination.tsx:95-100 | near the last page the row runs from page 1 to the last page in six or seven entries, with consecutive numbers or an ellipsis over every gap, and it includes the current page |
| Pagination.InTheMiddle | components/commerce/pagination.tsx:101-109 | in the middle the row runs from page 1 to the last page in six or seven entries, with consecutive numbers or an ellipsis over every gap, and it includes the current page |
| Pagination.ManyPagesWindow | components/commerce/pagination.tsx:88-110 | beyond five pages the row has six or seven entries, from page 1 to the last page. Its numbers increase, every ellipsis stands between numbers at least two apart, no two ellipses touch, and it shows the current page |
| Pagination.GapsMarkedIncreasing | components/commerce/pagination.tsx:88-110 | a row whose neighbouring numbers are consecutive or separated by an ellipsis has strictly increasing numbers |
| QuantitySelector.WithDefaults | components/commerce/quantity-selector.tsx:15-22 | the stepper's bounds default to 1 and 999, and it is enabled unless disabled is set |
| QuantitySelector.CanIncrement | components/commerce/quantity-selector.tsx:36 | "+" is enabled while the stepper is enabled and below the maximum (its contract is `HandleIncrement`) |
| QuantitySelector.CanDecrement | components/commerce/quantity-selector.tsx:35 | "−" is enabled while the stepper is enabled and above the minimum (its contract is `HandleDecrement`) |
| QuantitySelector.HandleIncrement | components/commerce/quantity-selector.tsx:23-36 | "+" emits exactly when its button is enabled, and then one more, never above the maximum |
| QuantitySelector.HandleDecrement | components/commerce/quantity-selector.tsx:29-36 | "−" emits exactly when its button is enabled, and then one less, never below the minimum |
| QuantitySelector.DisabledIsInert | components/commerce/quantity-selector.tsx:23-33 | a disabled stepper emits nothing |
| QuantitySelector.EmittedWithinBounds | components/commerce/quantity-selector.tsx:23-33 | from a value within the bounds every emitted value is within the bounds |
| QuantitySelector.IncrementThenDecrement | components/commerce/quantity-selector.tsx:23-33 | "+" then "−" returns to the starting value |
| QuantitySelector.DecrementThenIncrement | components/commerce/quantity-selector.tsx:23-33 | "−" then "+" returns to the starting value |
| QuantitySelector.PressesStayWithinBounds | components/commerce/quantity-selector.tsx:23-33 | over any sequence of presses fed back as the value, the value stays within the bounds, the bounds do not change, and the value drifts by at most the number of presses |
| ProductVariations.ValueOf | components/commerce/product-variations.tsx:30 | a variant's value for an attribute is present exactly when the variant has values and one for that attribute |
| ProductVariations.Select | components/commerce/product-variations.tsx:20-23 | selecting sets the attribute to the value and keeps every other entry |
| ProductVariations.SomeOrderable | components/commerce/product-variations.tsx:30 | the scan finds a variant exactly when some variant carries the value and is not marked unorderable |
| ProductVariations.IsOrderable | components/commerce/product-variations.tsx:26-31 | without a variant list every value is orderable; otherwise exactly when some variant carries it and is not marked unorderable |
| ProductVariations.SomeMatching | components/commerce/product-variations.tsx:41-46 | the scan finds a variant exactly when some variant that is not marked unorderable matches every entry of the selection |
| ProductVariations.IsAvailable | components/commerce/product-variations.tsx:34-47 | without a variant list every value is available; otherwise exactly when a variant that is not marked unorderable matches the selection with this value chosen |
| ProductVariations.AvailableIsOrderable | components/commerce/product-variations.tsx:26-47 | an available value is orderable |
| ProductVariations.MoreChoicesNeverUnlock | components/commerce/product-variations.tsx:38-46 | extending the selection can make a value unavailable, never available |
| ProductVariations.OrderableValues | components/commerce/product-variations.tsx:59-61 | the offered values are exactly the orderable ones: each as often as the attribute lists it, and in the attribute's order |
| ProductVariations.OfferedValues | components/commerce/product-variations.tsx:56-63 | an attribute without an id or a values list, or with no orderable value, renders nothing; otherwise the values it counts as orderable are exactly the attribute's orderable values, every one of them, in the attribute's order. These decide whether it renders and the option count, not which get a button |
| ProductVariations.ShownValues | components/commerce/product-variations.tsx:80-81 | a button is drawn for exactly the counted values with a non-empty id, each as often as it occurs, in order |
| ProductVariations.UndefinedIdCountedNotShown | components/commerce/product-variations.tsx:56-81 | without a variant list a value with an undefined id counts as orderable and keeps the attribute on screen, yet gets no button |
| ProductVariations.Offered | components/commerce/product-variations.tsx:49-63 | no attributes render nothing at all; otherwise there is one entry per attribute |
| ProductVariations.FindValue | components/commerce/product-variations.tsx:72 | the search returns the first value with the given id, and finds none only when no value has it |
| ProductVariations.SelectedBadge | components/commerce/product-variations.tsx:69-74 | the badge shows exactly when a non-empty value is selected. It gives the name of the first offered value with that id when the name is non-empty, and otherwise the selected id itself |
| FilterContent.HasActiveFilters | components/commerce/filter-content.tsx:37 | filters are active when the selection has any key (its contract is `EmptyListStillActive`) |
| FilterContent.EmptyListStillActive | components/commerce/filter-content.tsx:37 | a key with an empty list makes the filters active, yet adds no tag |
| FilterContent.CurrentSort | components/commerce/filter-content.tsx:38 | the selected sort when non-empty, else the first option's id, else undefined |
| FilterContent.Lookup | components/commerce/filter-content.tsx:42 | the values stored under a key, absent exactly when no entry has the key |
| FilterContent.IsValueSelected | components/commerce/filter-content.tsx:41-43 | for a selection with distinct keys (as an object has), a value is selected exactly when its attribute's entry lists it, so never for an absent attribute |
| FilterContent.FindRefinement | components/commerce/filter-content.tsx:54 | the first refinement for the attribute, absent exactly when there is none |
| FilterContent.FindValue | components/commerce/filter-content.tsx:58 | the first value with the given id, absent exactly when there is none |
| FilterContent.FilterDisplayName | components/commerce/filter-content.tsx:52-60 | the first refinement for the attribute decides, and within it the first value with that id. The tag shows that value's label when the label is non-empty, and the raw value in every other case: no matching refinement, no values list, or no matching value |
| FilterContent.LabelOrValue | components/commerce/filter-content.tsx:58 | a non-empty label wins over the raw value, and anything else gives the raw value |
| FilterContent.ShowsPlaceholder | components/commerce/filter-content.tsx:63 | the loading placeholder condition (its contract is `PlaceholderOnlyWhileEmpty`) |
| FilterContent.PlaceholderOnlyWhileEmpty | components/commerce/filter-content.tsx:63 | the placeholder appears only while loading, and never once both refinements and sorts are non-empty |
| FilterContent.ListedRefinements | components/commerce/filter-content.tsx:235-236 | the refinements listed are exactly those with a non-empty list of values, each as often as it occurs, in input order |
| FilterContent.EntryTags | components/commerce/filter-content.tsx:202 | an entry gives one tag per value, in list order |
| FilterContent.ActiveTags | components/commerce/filter-content.tsx:200-202 | a tag is shown exactly for each attribute and value that some entry lists |
| FilterContent.OneTagPerValue | components/commerce/filter-content.tsx:200-202 | there are as many tags as selected values |
| FilterContent.ActiveTagsAppend | components/commerce/filter-content.tsx:200-202 | the tags of two selections one after the other are the first one's tags followed by the second one's |
| FilterContent.ActiveTagsSplit | components/commerce/filter-content.tsx:200-202 | the tags run entry after entry, in entry order |
| FilterContent.TaggedIffSelected | components/commerce/filter-content.tsx:41-43 | a tag is shown for a value exactly when that value is selected |
| NormalizeProduct.DisplayName | lib/commerce/utils.ts:38 | the display name is never empty: the product's own name, or "Product " followed by the id |
| NormalizeProduct.OrElse | lib/commerce/utils.ts:40-44 | `a \|\| b` on optional strings gives `a` when it is a non-empty string and `b` otherwise |
| NormalizeProduct.Interpolated | lib/commerce/utils.ts:38 | an absent value is written as `undefined` inside a template literal |
| NormalizeProduct.FirstGroupLink | lib/commerce/utils.ts:40 | the group link is the first link of the first image group exactly when that group and that image exist, and absent otherwise |
| NormalizeProduct.IsSearchHit | lib/commerce/utils.ts:32 | the search-hit branch is the `productId` key test (its contract is `Normalize`) |
| NormalizeProduct.Normalize | lib/commerce/utils.ts:30-69 | the hit branch is taken exactly for inputs with a `productId`. The id comes from that branch's key. Currency defaults to "USD". Prices and image groups pass through. The result is unorderable only for a hit marked unorderable. Brand and descriptions come only from a product |
| NormalizeProduct.NameFallback | lib/commerce/utils.ts:38-54 | the name falls back to "Product " and the id, or "Product undefined" without one |
| NormalizeProduct.ImageSources | lib/commerce/utils.ts:39-56 | a hit's image is its own link when non-empty, else the first group link; a product has only the group link. The alt text is the hit's own alt text or its name, and a product's name |
| NormalizeProduct.BranchesAgree | lib/commerce/utils.ts:30-69 | a product and the search hit for the same item normalise to the same record, apart from the fields only a product carries |
| Forms.MinLength | lib/forms/customer.ts:10 | a minimum-length check passes exactly for strings at least that long |
| Forms.MaxLength | lib/forms/customer.ts:11 | a maximum-length check passes exactly for strings at most that long |
| Forms.Issues | lib/forms/customer.ts:5-44 | every issue comes from a failing check, every failing check has an issue, and there are none exactly when every check passes |
| Forms.IssuesAppend | lib/forms/customer.ts:5-44 | the issues come in check order: a check added last reports, when it fails, after all the others |
| Forms.IssueAtIffRuleFails | lib/forms/customer.ts:5-44 | an issue is reported for a field exactly when one of that field's checks fails |
| Forms.Parse | lib/forms/customer.ts:5-44 | parsing succeeds, with the parsed value, exactly when every check passes, and otherwise reports at least one issue |
| CustomerForm.PhoneDigits | lib/forms/customer.ts:29 | the number without its optional leading plus sign |
| CustomerForm.AcceptedPhoneLength | lib/forms/customer.ts:27-31 | an accepted non-empty mobile number has one to seventeen characters |
| CustomerForm.MatchPhone | lib/forms/customer.ts:29 | the scan accepts exactly the numbers that match `^[+]?[1-9]\d{0,15}$` |
| CustomerForm.CustomerRulesPass | lib/forms/customer.ts:5-44 | every check of the customer schema passes exactly when the names, login, e-mail verdict, mobile number, enumerations and note meet their bounds |
| CustomerForm.ParseCustomer | lib/forms/customer.ts:5-44 | a customer is accepted exactly when the first and last names have 1 to 50 characters, the login has 3 to 30, and the e-mail passes. The mobile number must be absent, empty or match the phone pattern. Gender and salutation must be absent or one of the allowed values, and the note absent or at most 500 characters. The parsed customer is the input with `enabled` defaulted to true and every other field unchanged |
| CustomerForm.PhoneIssueIffRejected | lib/forms/customer.ts:27-31 | an issue is reported under `phoneMobile` exactly when the mobile number is rejected |
| CustomerForm.ParseCard | lib/forms/customer.ts:57-131 | a card is accepted exactly when the payment method, number and holder are non-empty, the month is 1 to 12, the year is at least the current year, and the card-type and card-validator checks pass |
| CustomerForm.ExpiredCardReported | lib/forms/customer.ts:92-94 | a card whose year is before the current year is rejected with "Card has expired" under `expirationYear` |
| CheckoutForm.ParseAddress | lib/forms/checkout.ts:3-13 | an address is accepted exactly when the names, street, city, state and country are non-empty, the phone has at least 10 characters and the postal code at least 5 |
| CheckoutForm.Address2IsFree | lib/forms/checkout.ts:8 | the second address line never decides acceptance |
| CheckoutForm.ShortPhoneReported | lib/forms/checkout.ts:6 | an issue is reported under `phone` exactly when the phone has fewer than 10 characters |
| CheckoutForm.ParsePayment | lib/forms/checkout.ts:17-27 | a payment is accepted exactly when the holder, masked number, month and year are non-empty and the CVV has 3 or 4 characters; the card type is free text |
| CheckoutForm.CvvIssue | lib/forms/checkout.ts:22-25 | a CVV of the wrong length is reported as too short or too long, never both |

## Left out

- Network and SDK calls. These are `authorizeCustomer`, the `fetch` requests,
  their JSON bodies and `logoutCustomer`. The client sees each exchange only as
  an oracle outcome in `Env`, and the helpers build the request bodies without
  sending them. `Refused` stands only for a request that throws. An HTTP error
  answer is a `Granted` response with "" for its missing strings. Its undefined
  lifetime (a `NaN` expiry) is represented by an integer, which can be valid
  only when the access token is non-empty.
- The `logout` helper of integrations/salesforce/helpers.ts:224-243. It is a
  single SDK call, and the client's `logout` does not use it.
- The 100 ms polling loop and interleaved callers of `ensureAuthenticated`.
  Only the `authInProgress` and `saveInProgress` flags are state: a caller that
  finds an attempt in flight returns at once, as the loop does once the flag
  drops. Callers are modelled one after another.
- One clock instant per call. `Date.now()` is read once per operation, so the
  small gap between saving and later checks is not modelled.
- Storage reads are modelled as infallible. Whether storage accepts writes is
  one flag per call, shared by the clear and the save of that call.
- Percent-encoding of form bodies (`URLSearchParams.toString`). The bodies are
  modelled as ordered key/value lists.
- SHA-256 and the random verifier. The digest is an input, and the verifier is
  constrained only by its length and alphabet.
- Console logging and all rendering. This covers JSX, styles, skeletons, button
  labels, the option-count text, the page summary shown for a single page, and
  the loading overlay.
- The zod e-mail check, the card-validator checks and the card-type
  enumeration. The card-type enumeration file is not part of this model; these
  verdicts are inputs.
- Zod's built-in messages for the two enumerations. These are `None` in the
  model.
- The customer schema's optional fields without further checks, such as
  `customerId`, `companyName` and `birthday`. The model assumes they already have
  their declared types (a string, or a `Date` for `birthday`), so zod's type
  checks on them are not modelled.
- Price formatting and the `promotions` and `priceRanges` pass-through fields
  of `normalizeProduct`. They are copied unchanged and not modelled.
- Numbers are modelled as unbounded integers:
  - page sizes are positive;
  - quantities and card months and years are integers;
  - prices are reals;
  - string lengths count characters, not UTF-16 code units.
- Pagination.CurrentPage: requires a positive page size, and so does
  Pagination.TotalPages. The component divides by `requestedLimit` without
  checking it. A page size of 0 or less gives `Infinity` or `NaN` pages in
  JavaScript, which this model does not represent.
- NormalizeProduct.Normalize: the search-hit branch is taken when `productId`
  holds a value. A hit whose `productId` key is present but undefined is not
  modelled.
- The `RegisterSchema` of lib/forms/customer.ts:48-53 is not modelled. Its only
  checks are string types and the e-mail check, which this model takes as input.
