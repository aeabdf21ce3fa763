/**
 * PKCE and request-building helpers (integrations/salesforce/helpers.ts).
 *
 * `urlSafe` is modelled literally as the three global replaces it performs and
 * related to a single-pass definition and to the two base64 alphabets of
 * RFC 4648 (section 4, standard; section 5, URL and filename safe). SHA-256 and
 * the random verifier are inputs; the standard base64 encoder that `btoa` and
 * the digest encoding use is written out so that the code challenge can be
 * compared with BASE64URL-ENCODE of section 4.2 of RFC 7636.
 */
module Helpers {
  import opened Wrappers
  import Seqs

  /** A byte value. */
  type Byte = x: int | 0 <= x < 256

  // ---------------------------------------------------------------------------
  // The two base64 alphabets (RFC 4648, sections 4 and 5)
  // ---------------------------------------------------------------------------

  predicate IsAlnum(c: char)
  {
    'A' <= c <= 'Z' || 'a' <= c <= 'z' || '0' <= c <= '9'
  }

  /** A character of the base64url alphabet (section 5 of RFC 4648). */
  predicate IsUrlChar(c: char)
  {
    IsAlnum(c) || c == '-' || c == '_'
  }

  /** The character of 6-bit value `v` in the standard alphabet (section 4 of RFC 4648). */
  function StdDigit(v: int): (c: char)
    requires 0 <= v < 64
    ensures IsAlnum(c) || c == '+' || c == '/'
  {
    if v < 26 then ('A' as int + v) as char
    else if v < 52 then ('a' as int + (v - 26)) as char
    else if v < 62 then ('0' as int + (v - 52)) as char
    else if v == 62 then '+'
    else '/'
  }

  /** The character of 6-bit value `v` in the URL and filename safe alphabet (section 5 of RFC 4648). */
  function UrlDigit(v: int): (c: char)
    requires 0 <= v < 64
    ensures IsUrlChar(c)
  {
    if v < 26 then ('A' as int + v) as char
    else if v < 52 then ('a' as int + (v - 26)) as char
    else if v < 62 then ('0' as int + (v - 52)) as char
    else if v == 62 then '-'
    else '_'
  }

  /** Standard base64 with `=` padding, as `btoa` and the digest API produce it. */
  function StdEncode(bs: seq<Byte>): (r: string)
    ensures |r| == 4 * ((|bs| + 2) / 3)
    decreases |bs|
  {
    if |bs| == 0 then ""
    else if |bs| == 1 then
      [StdDigit(bs[0] / 4), StdDigit((bs[0] % 4) * 16)] + "=="
    else if |bs| == 2 then
      [StdDigit(bs[0] / 4), StdDigit((bs[0] % 4) * 16 + bs[1] / 16), StdDigit((bs[1] % 16) * 4)] + "="
    else
      [StdDigit(bs[0] / 4), StdDigit((bs[0] % 4) * 16 + bs[1] / 16),
       StdDigit((bs[1] % 16) * 4 + bs[2] / 64), StdDigit(bs[2] % 64)] + StdEncode(bs[3..])
  }

  /** Base64url without padding: BASE64URL-ENCODE of Appendix A of RFC 7636. */
  function UrlEncode(bs: seq<Byte>): (r: string)
    ensures |r| == (4 * |bs| + 2) / 3
    ensures forall i :: 0 <= i < |r| ==> IsUrlChar(r[i])
    decreases |bs|
  {
    if |bs| == 0 then ""
    else if |bs| == 1 then
      [UrlDigit(bs[0] / 4), UrlDigit((bs[0] % 4) * 16)]
    else if |bs| == 2 then
      [UrlDigit(bs[0] / 4), UrlDigit((bs[0] % 4) * 16 + bs[1] / 16), UrlDigit((bs[1] % 16) * 4)]
    else
      [UrlDigit(bs[0] / 4), UrlDigit((bs[0] % 4) * 16 + bs[1] / 16),
       UrlDigit((bs[1] % 16) * 4 + bs[2] / 64), UrlDigit(bs[2] % 64)] + UrlEncode(bs[3..])
  }

  // ---------------------------------------------------------------------------
  // urlSafe
  // ---------------------------------------------------------------------------

  /** `s.replace(/from/g, to)` for a single character. */
  function ReplaceAll(s: string, from: char, to: char): (r: string)
    ensures |r| == |s|
    ensures forall i :: 0 <= i < |s| ==> r[i] == (if s[i] == from then to else s[i])
    decreases |s|
  {
    if |s| == 0 then ""
    else [if s[0] == from then to else s[0]] + ReplaceAll(s[1..], from, to)
  }

  /** `s.replace(/x/g, "")` for a single character. */
  function DeleteAll(s: string, x: char): (r: string)
    ensures |r| <= |s|
    ensures x !in r
    ensures forall i :: 0 <= i < |r| ==> r[i] in s
    ensures Seqs.IsSubsequence(r, s)
    ensures forall y :: y != x ==> multiset(r)[y] == multiset(s)[y]
    decreases |s|
  {
    if |s| == 0 then ""
    else
      var rest := DeleteAll(s[1..], x);
      assert s == [s[0]] + s[1..];
      assert multiset(s) == multiset{s[0]} + multiset(s[1..]);
      if s[0] == x then
        assert |rest| > 0 ==> rest[0] != s[0];
        rest
      else
        var r := [s[0]] + rest;
        assert r[1..] == rest;
        assert multiset(r) == multiset{s[0]} + multiset(rest);
        r
  }

  /** `urlSafe`: `+` becomes `-`, then `/` becomes `_`, then every `=` is removed. */
  function UrlSafe(input: string): string
  {
    DeleteAll(ReplaceAll(ReplaceAll(input, '+', '-'), '/', '_'), '=')
  }

  /** What `urlSafe` does to one character that it keeps. */
  function SafeChar(c: char): char
  {
    if c == '+' then '-' else if c == '/' then '_' else c
  }

  /** A single left-to-right pass doing what the three replaces do. */
  function Transcode(s: string): (r: string)
    ensures |r| <= |s|
    ensures forall i :: 0 <= i < |r| ==> r[i] != '+' && r[i] != '/' && r[i] != '='
    decreases |s|
  {
    if |s| == 0 then ""
    else if s[0] == '=' then Transcode(s[1..])
    else [SafeChar(s[0])] + Transcode(s[1..])
  }

  /** No character of `s` is one that `urlSafe` rewrites or removes. */
  predicate AlreadySafe(s: string)
  {
    forall i :: 0 <= i < |s| ==> s[i] != '+' && s[i] != '/' && s[i] != '='
  }

  /** The three successive replaces equal the single pass. */
  lemma {:induction false} UrlSafeIsSinglePass(s: string)
    ensures UrlSafe(s) == Transcode(s)
    decreases |s|
  {
    if |s| > 0 {
      var r1 := ReplaceAll(s, '+', '-');
      var r2 := ReplaceAll(r1, '/', '_');
      assert r1[1..] == ReplaceAll(s[1..], '+', '-');
      assert r2[1..] == ReplaceAll(r1[1..], '/', '_');
      assert r2 == [r2[0]] + r2[1..];
      assert r2[0] == (if s[0] == '=' then '=' else SafeChar(s[0]));
      UrlSafeIsSinglePass(s[1..]);
    }
  }

  /** The output of `urlSafe` never contains `+`, `/` or `=`. */
  lemma UrlSafeOutputIsSafe(s: string)
    ensures AlreadySafe(UrlSafe(s))
  {
    UrlSafeIsSinglePass(s);
  }

  /** The single pass leaves a string without `+`, `/` and `=` unchanged. */
  lemma {:induction false} TranscodeIdentity(s: string)
    requires AlreadySafe(s)
    ensures Transcode(s) == s
    decreases |s|
  {
    if |s| > 0 {
      TranscodeIdentity(s[1..]);
    }
  }

  /** `urlSafe` is the identity exactly on strings without `+`, `/` and `=`. */
  lemma UrlSafeIdentityIff(s: string)
    ensures UrlSafe(s) == s <==> AlreadySafe(s)
  {
    UrlSafeIsSinglePass(s);
    if AlreadySafe(s) {
      TranscodeIdentity(s);
    }
  }

  /** Applying `urlSafe` twice is the same as applying it once. */
  lemma UrlSafeIdempotent(s: string)
    ensures UrlSafe(UrlSafe(s)) == UrlSafe(s)
  {
    UrlSafeOutputIsSafe(s);
    UrlSafeIdentityIff(UrlSafe(s));
  }

  /** The single pass distributes over concatenation. */
  lemma {:induction false} TranscodeAppend(a: string, b: string)
    ensures Transcode(a + b) == Transcode(a) + Transcode(b)
    decreases |a|
  {
    if |a| == 0 {
      assert a + b == b;
    } else {
      assert (a + b)[1..] == a[1..] + b;
      TranscodeAppend(a[1..], b);
    }
  }

  /** Each standard digit is rewritten to the URL-safe digit of the same value. */
  lemma SafeDigit(v: int)
    requires 0 <= v < 64
    ensures StdDigit(v) != '=' && SafeChar(StdDigit(v)) == UrlDigit(v)
  {
  }

  /** `urlSafe` turns standard padded base64 into unpadded base64url (RFC 4648, sections 4 and 5). */
  lemma {:induction false} UrlSafeOfStdEncode(bs: seq<Byte>)
    ensures UrlSafe(StdEncode(bs)) == UrlEncode(bs)
    decreases |bs|
  {
    UrlSafeIsSinglePass(StdEncode(bs));
    StdToUrl(bs);
  }

  /** One step of the single pass over a kept character. */
  lemma TranscodeCons(c: char, rest: string)
    ensures Transcode([c] + rest) == (if c == '=' then Transcode(rest) else [SafeChar(c)] + Transcode(rest))
  {
    assert ([c] + rest)[1..] == rest;
  }

  /** The single pass over a standard encoding is the URL-safe encoding of the same bytes. */
  lemma {:induction false} StdToUrl(bs: seq<Byte>)
    ensures Transcode(StdEncode(bs)) == UrlEncode(bs)
    decreases |bs|
  {
    if |bs| == 1 {
      StdToUrlOne(bs);
    } else if |bs| == 2 {
      StdToUrlTwo(bs);
    } else if |bs| >= 3 {
      StdToUrl(bs[3..]);
      StdToUrlGroup(bs);
    }
  }

  /** One byte: two digits and two pad characters. */
  lemma StdToUrlOne(bs: seq<Byte>)
    requires |bs| == 1
    ensures Transcode(StdEncode(bs)) == UrlEncode(bs)
  {
    var v0, v1 := bs[0] / 4, (bs[0] % 4) * 16;
    SafeDigit(v0); SafeDigit(v1);
    TranscodeCons('=', ""); TranscodeCons('=', "=");
    TranscodeCons(StdDigit(v1), "==");
    TranscodeCons(StdDigit(v0), [StdDigit(v1)] + "==");
    assert StdEncode(bs) == [StdDigit(v0)] + ([StdDigit(v1)] + "==");
  }

  /** Two bytes: three digits and one pad character. */
  lemma StdToUrlTwo(bs: seq<Byte>)
    requires |bs| == 2
    ensures Transcode(StdEncode(bs)) == UrlEncode(bs)
  {
    var v0, v1, v2 := bs[0] / 4, (bs[0] % 4) * 16 + bs[1] / 16, (bs[1] % 16) * 4;
    SafeDigit(v0); SafeDigit(v1); SafeDigit(v2);
    TranscodeCons('=', "");
    TranscodeCons(StdDigit(v2), "=");
    TranscodeCons(StdDigit(v1), [StdDigit(v2)] + "=");
    TranscodeCons(StdDigit(v0), [StdDigit(v1)] + ([StdDigit(v2)] + "="));
    assert StdEncode(bs) == [StdDigit(v0)] + ([StdDigit(v1)] + ([StdDigit(v2)] + "="));
  }

  /** A full group of three bytes: four digits, then the rest of the input. */
  lemma StdToUrlGroup(bs: seq<Byte>)
    requires |bs| >= 3
    requires Transcode(StdEncode(bs[3..])) == UrlEncode(bs[3..])
    ensures Transcode(StdEncode(bs)) == UrlEncode(bs)
  {
    GroupDigits(bs[0], bs[1], bs[2]);
    var v0, v1 := bs[0] / 4, (bs[0] % 4) * 16 + bs[1] / 16;
    var v2, v3 := (bs[1] % 16) * 4 + bs[2] / 64, bs[2] % 64;
    var tail := StdEncode(bs[3..]);
    assert StdEncode(bs) == [StdDigit(v0), StdDigit(v1), StdDigit(v2), StdDigit(v3)] + tail;
    assert UrlEncode(bs) == [UrlDigit(v0), UrlDigit(v1), UrlDigit(v2), UrlDigit(v3)] + UrlEncode(bs[3..]);
    TranscodeGroup(v0, v1, v2, v3, tail);
  }

  /** The four 6-bit values of a group of three bytes. */
  lemma GroupDigits(b0: Byte, b1: Byte, b2: Byte)
    ensures 0 <= b0 / 4 < 64 && 0 <= (b0 % 4) * 16 + b1 / 16 < 64
    ensures 0 <= (b1 % 16) * 4 + b2 / 64 < 64 && 0 <= b2 % 64 < 64
  {
  }

  /** The single pass over four standard digits followed by `tail`. */
  lemma TranscodeGroup(v0: int, v1: int, v2: int, v3: int, tail: string)
    requires 0 <= v0 < 64 && 0 <= v1 < 64 && 0 <= v2 < 64 && 0 <= v3 < 64
    ensures Transcode([StdDigit(v0), StdDigit(v1), StdDigit(v2), StdDigit(v3)] + tail)
         == [UrlDigit(v0), UrlDigit(v1), UrlDigit(v2), UrlDigit(v3)] + Transcode(tail)
  {
    SafeDigit(v0); SafeDigit(v1); SafeDigit(v2); SafeDigit(v3);
    var d0, d1, d2, d3 := StdDigit(v0), StdDigit(v1), StdDigit(v2), StdDigit(v3);
    TranscodeCons(d3, tail);
    TranscodeCons(d2, [d3] + tail);
    TranscodeCons(d1, [d2] + ([d3] + tail));
    TranscodeCons(d0, [d1] + ([d2] + ([d3] + tail)));
    assert [d0, d1, d2, d3] + tail == [d0] + ([d1] + ([d2] + ([d3] + tail)));
  }

  // ---------------------------------------------------------------------------
  // PKCE (RFC 7636)
  // ---------------------------------------------------------------------------

  /** `generateCodeChallange`: the URL-safe form of the base64 digest, or "" when the digest is empty. */
  function GenerateCodeChallenge(base64Digest: string): (r: string)
    ensures base64Digest == "" ==> r == ""
    ensures AlreadySafe(r)
  {
    UrlSafeOutputIsSafe(base64Digest);
    if base64Digest != "" then UrlSafe(base64Digest) else ""
  }

  /**
   * For a SHA-256 digest (32 bytes) delivered as standard base64, the challenge is
   * BASE64URL-ENCODE of the digest: 43 characters of the base64url alphabet.
   */
  lemma ChallengeIsS256(digest: seq<Byte>)
    requires |digest| == 32
    ensures GenerateCodeChallenge(StdEncode(digest)) == UrlEncode(digest)
    ensures |GenerateCodeChallenge(StdEncode(digest))| == 43
  {
    UrlSafeOfStdEncode(digest);
  }

  /** `createCodeVerifier` draws 128 characters from nanoid's URL alphabet (A-Z, a-z, 0-9, `_`, `-`). */
  predicate IsNanoidVerifier(v: string)
  {
    |v| == 128 && forall i :: 0 <= i < |v| ==> IsUrlChar(v[i])
  }

  /** The verifier grammar of section 4.1 of RFC 7636: 43 to 128 unreserved characters. */
  predicate IsPkceVerifier(v: string)
  {
    43 <= |v| <= 128 &&
    forall i :: 0 <= i < |v| ==> IsAlnum(v[i]) || v[i] == '-' || v[i] == '.' || v[i] == '_' || v[i] == '~'
  }

  lemma NanoidVerifierIsPkceVerifier(v: string)
    requires IsNanoidVerifier(v)
    ensures IsPkceVerifier(v)
  {
  }

  // ---------------------------------------------------------------------------
  // URLs
  // ---------------------------------------------------------------------------

  /** The instance parameters every request is built from. */
  datatype Config = Config(clientId: string, organizationId: string, shortCode: string, siteId: string)

  const UrlScheme: string := "https://"
  const ApiHostSuffix: string := ".api.commercecloud.salesforce.com"

  /** `getURL`: the API host of a short code. */
  function GetURL(shortCode: string): (r: string)
    ensures |r| == |UrlScheme| + |shortCode| + |ApiHostSuffix|
    ensures r[..|UrlScheme|] == UrlScheme
    ensures r[|UrlScheme|..|UrlScheme| + |shortCode|] == shortCode
    ensures r[|UrlScheme| + |shortCode|..] == ApiHostSuffix
  {
    UrlScheme + shortCode + ApiHostSuffix
  }

  /** Distinct short codes give distinct hosts. */
  lemma GetURLInjective(a: string, b: string)
    requires GetURL(a) == GetURL(b)
    ensures a == b
  {
    assert |a| == |b|;
  }

  /** The OAuth2 endpoint `leaf` (`token` or `login`) of the organisation. */
  function OAuthEndpoint(cfg: Config, leaf: string): (r: string)
    ensures |r| >= |GetURL(cfg.shortCode)| + |leaf|
    ensures r[..|GetURL(cfg.shortCode)|] == GetURL(cfg.shortCode)
    ensures r[|r| - |leaf|..] == leaf
  {
    GetURL(cfg.shortCode) + "/shopper/auth/v1/organizations/" + cfg.organizationId + "/oauth2/" + leaf
  }

  // ---------------------------------------------------------------------------
  // Form bodies
  // ---------------------------------------------------------------------------

  /** One entry of a `URLSearchParams` or of a parameters object, in insertion order. */
  datatype Param = Param(key: string, value: string)

  function Keys(ps: seq<Param>): (r: seq<string>)
    ensures |r| == |ps|
    ensures forall i :: 0 <= i < |ps| ==> r[i] == ps[i].key
  {
    seq(|ps|, i requires 0 <= i < |ps| => ps[i].key)
  }

  /** `URLSearchParams.get`: the value of the first entry with `key`, or null. */
  function Lookup(ps: seq<Param>, key: string): Option<string>
    decreases |ps|
  {
    if |ps| == 0 then None
    else if ps[0].key == key then Some(ps[0].value)
    else Lookup(ps[1..], key)
  }

  /** `Lookup` finds nothing exactly when no entry has `key`, and otherwise the value of the first entry that has it. */
  lemma {:induction false} LookupSpec(ps: seq<Param>, key: string)
    ensures Lookup(ps, key).None? <==> forall i :: 0 <= i < |ps| ==> ps[i].key != key
    ensures Lookup(ps, key).Some? ==>
      exists i :: 0 <= i < |ps| && ps[i] == Param(key, Lookup(ps, key).value) &&
                  forall j :: 0 <= j < i ==> ps[j].key != key
    decreases |ps|
  {
    if |ps| > 0 && ps[0].key != key {
      LookupSpec(ps[1..], key);
      assert forall i :: 1 <= i < |ps| ==> ps[i] == ps[1..][i - 1];
      if Lookup(ps, key).Some? {
        var i :| 0 <= i < |ps[1..]| && ps[1..][i] == Param(key, Lookup(ps, key).value) &&
                 forall j :: 0 <= j < i ==> ps[1..][j].key != key;
        assert ps[i + 1] == Param(key, Lookup(ps, key).value);
        assert forall j :: 0 <= j < i + 1 ==> ps[j].key != key by {
          forall j | 0 <= j < i + 1
            ensures ps[j].key != key
          {
            if j > 0 {
              assert ps[j] == ps[1..][j - 1];
            }
          }
        }
      }
    }
  }

  /** The first entry with `key` decides what `Lookup` returns. */
  lemma {:induction false} LookupFirst(ps: seq<Param>, i: int, key: string)
    requires 0 <= i < |ps| && ps[i].key == key
    requires key !in Keys(ps)[..i]
    ensures Lookup(ps, key) == Some(ps[i].value)
    decreases i
  {
    if i > 0 {
      assert Keys(ps)[..i][0] == ps[0].key;
      assert Keys(ps[1..])[..i - 1] == Keys(ps)[1..i];
      LookupFirst(ps[1..], i - 1, key);
    }
  }

  /** A key that no entry has is absent. */
  lemma LookupAbsent(ps: seq<Param>, key: string)
    requires key !in Keys(ps)
    ensures Lookup(ps, key).None?
  {
    LookupSpec(ps, key);
    assert forall i :: 0 <= i < |ps| ==> Keys(ps)[i] == ps[i].key;
  }

  /** `formData.append(key, v as string)` of a value read with `searchParams.get(..)!`: a missing one is sent as "null". */
  function Appended(v: Option<string>): string
  {
    match v
    case Some(s) => s
    case None => "null"
  }

  /** The parameters of the guest `authorizeCustomer` call. */
  function GuestAuthorizeParams(cfg: Config, challenge: string, redirectUri: string): (r: seq<Param>)
    ensures Keys(r) == ["client_id", "channel_id", "code_challenge", "organizationId", "redirect_uri", "response_type", "hint"]
  {
    [Param("client_id", cfg.clientId), Param("channel_id", cfg.siteId), Param("code_challenge", challenge),
     Param("organizationId", cfg.organizationId), Param("redirect_uri", redirectUri),
     Param("response_type", "code"), Param("hint", "guest")]
  }

  /** The token request body of both PKCE flows; `code` and `usid` come from the redirect's query. */
  function CodeExchangeBody(cfg: Config, code: Option<string>, usid: Option<string>, verifier: string, redirectUri: string): (r: seq<Param>)
    ensures Keys(r) == ["client_id", "channel_id", "code", "code_verifier", "grant_type", "redirect_uri", "usid"]
  {
    [Param("client_id", cfg.clientId), Param("channel_id", cfg.siteId),
     Param("code", Appended(code)), Param("code_verifier", verifier),
     Param("grant_type", "authorization_code_pkce"), Param("redirect_uri", redirectUri),
     Param("usid", Appended(usid))]
  }

  /** The two requests of `loginAsGuest` and where the second goes. */
  datatype GuestRequests = GuestRequests(authorize: seq<Param>, token: seq<Param>, tokenUrl: string)

  /**
   * `loginAsGuest` minus the network. `digest` is the SHA-256 of the verifier as
   * standard base64; `redirectQuery` is the query of the authorize redirect.
   */
  function LoginAsGuest(cfg: Config, verifier: string, digest: string, redirectUri: string,
                        redirectQuery: seq<Param>): (r: GuestRequests)
    ensures Keys(r.authorize) == ["client_id", "channel_id", "code_challenge", "organizationId", "redirect_uri", "response_type", "hint"]
    ensures Keys(r.token) == ["client_id", "channel_id", "code", "code_verifier", "grant_type", "redirect_uri", "usid"]
    ensures r.tokenUrl == OAuthEndpoint(cfg, "token")
  {
    GuestRequests(
      GuestAuthorizeParams(cfg, GenerateCodeChallenge(digest), redirectUri),
      CodeExchangeBody(cfg, Lookup(redirectQuery, "code"), Lookup(redirectQuery, "usid"), verifier, redirectUri),
      OAuthEndpoint(cfg, "token"))
  }

  /** The authorize parameters ask for a code for a guest and carry the given challenge. */
  lemma GuestAuthorizeFields(cfg: Config, challenge: string, redirectUri: string)
    ensures var a := GuestAuthorizeParams(cfg, challenge, redirectUri);
      && Lookup(a, "response_type") == Some("code")
      && Lookup(a, "hint") == Some("guest")
      && Lookup(a, "code_challenge") == Some(challenge)
      && Lookup(a, "redirect_uri") == Some(redirectUri)
  {
    var a := GuestAuthorizeParams(cfg, challenge, redirectUri);
    LookupFirst(a, 5, "response_type");
    LookupFirst(a, 6, "hint");
    LookupFirst(a, 2, "code_challenge");
    LookupFirst(a, 4, "redirect_uri");
  }

  /** The code exchange uses the PKCE grant, reveals the verifier and repeats the redirect URI. */
  lemma CodeExchangeFields(cfg: Config, code: Option<string>, usid: Option<string>, verifier: string, redirectUri: string)
    ensures var t := CodeExchangeBody(cfg, code, usid, verifier, redirectUri);
      && Lookup(t, "grant_type") == Some("authorization_code_pkce")
      && Lookup(t, "code_verifier") == Some(verifier)
      && Lookup(t, "redirect_uri") == Some(redirectUri)
  {
    var t := CodeExchangeBody(cfg, code, usid, verifier, redirectUri);
    LookupFirst(t, 4, "grant_type");
    LookupFirst(t, 3, "code_verifier");
    LookupFirst(t, 5, "redirect_uri");
  }

  /** The code exchange forwards the redirect's `code` and `usid`, "null" for a missing one. */
  lemma CodeExchangeForwards(cfg: Config, code: Option<string>, usid: Option<string>, verifier: string, redirectUri: string)
    ensures var t := CodeExchangeBody(cfg, code, usid, verifier, redirectUri);
      && Lookup(t, "code") == Some(Appended(code))
      && Lookup(t, "usid") == Some(Appended(usid))
  {
    var t := CodeExchangeBody(cfg, code, usid, verifier, redirectUri);
    LookupFirst(t, 2, "code");
    LookupFirst(t, 6, "usid");
  }

  /**
   * The guest flow sends the challenge of the verifier that the token request later
   * reveals, and uses one redirect URI in both requests.
   */
  lemma GuestFlowBindsVerifier(cfg: Config, verifier: string, digest: string, redirectUri: string,
                               redirectQuery: seq<Param>)
    ensures var r := LoginAsGuest(cfg, verifier, digest, redirectUri, redirectQuery);
      && Lookup(r.authorize, "hint") == Some("guest")
      && Lookup(r.authorize, "code_challenge") == Some(GenerateCodeChallenge(digest))
      && Lookup(r.token, "code_verifier") == Some(verifier)
      && Lookup(r.authorize, "redirect_uri") == Lookup(r.token, "redirect_uri") == Some(redirectUri)
      && Lookup(r.token, "code") == Some(Appended(Lookup(redirectQuery, "code")))
      && Lookup(r.token, "usid") == Some(Appended(Lookup(redirectQuery, "usid")))
  {
    GuestAuthorizeFields(cfg, GenerateCodeChallenge(digest), redirectUri);
    CodeExchangeFields(cfg, Lookup(redirectQuery, "code"), Lookup(redirectQuery, "usid"), verifier, redirectUri);
    CodeExchangeForwards(cfg, Lookup(redirectQuery, "code"), Lookup(redirectQuery, "usid"), verifier, redirectUri);
  }

  /** The `user-pass` of section 2 of RFC 7617. */
  function UserPass(username: string, password: string): string
  {
    username + ":" + password
  }

  /** How a server splits a `user-pass`: at the first colon. */
  function SplitUserPass(s: string): (r: (string, string))
    ensures ':' !in r.0
    decreases |s|
  {
    if |s| == 0 then ("", "")
    else if s[0] == ':' then ("", s[1..])
    else var rest := SplitUserPass(s[1..]); ([s[0]] + rest.0, rest.1)
  }

  /** A username without a colon is recovered intact from the credentials (RFC 7617, section 2). */
  lemma {:induction false} UserPassRoundTrip(username: string, password: string)
    requires ':' !in username
    ensures SplitUserPass(UserPass(username, password)) == (username, password)
    decreases |username|
  {
    if |username| == 0 {
      assert UserPass(username, password) == [':'] + password;
    } else {
      assert UserPass(username, password)[1..] == UserPass(username[1..], password);
      UserPassRoundTrip(username[1..], password);
      assert username == [username[0]] + username[1..];
    }
  }

  /**
   * The code does not reject a colon in the username, and such credentials are
   * split at the username's own first colon: the server sees a shorter username
   * and a password that begins with the rest of the username.
   */
  lemma {:induction false} ColonInUsernameIsMisread(username: string, password: string, k: int)
    requires 0 <= k < |username| && username[k] == ':' && ':' !in username[..k]
    ensures SplitUserPass(UserPass(username, password)) == (username[..k], username[k + 1..] + ":" + password)
    ensures SplitUserPass(UserPass(username, password)).0 != username
    decreases k
  {
    var s := UserPass(username, password);
    if k == 0 {
      assert s[0] == ':';
      assert s[1..] == username[1..] + ":" + password;
    } else {
      assert username[0] == username[..k][0];
      assert s[0] == username[0] != ':';
      assert s[1..] == UserPass(username[1..], password);
      assert username[1..][..k - 1] == username[1..k];
      ColonInUsernameIsMisread(username[1..], password, k - 1);
      assert [username[0]] + username[1..k] == username[..k];
      assert username[1..][k..] == username[k + 1..];
    }
  }

  /** An instance: `a:b` with password `c` is read as user `a` with password `b:c`. */
  lemma ColonInUsernameExample()
    ensures SplitUserPass(UserPass("a:b", "c")) == ("a", "b:c")
  {
    ColonInUsernameIsMisread("a:b", "c", 1);
    assert "a:b"[..1] == "a" && "a:b"[2..] + ":" + "c" == "b:c";
  }

  /** `btoa`: standard base64 of the Latin-1 code units; throws on a character above U+00FF. */
  function Btoa(s: string): (r: Option<string>)
    ensures r.Some? <==> forall i :: 0 <= i < |s| ==> s[i] as int < 256
    ensures r.Some? ==> |r.value| == 4 * ((|s| + 2) / 3)
  {
    if forall i :: 0 <= i < |s| ==> s[i] as int < 256 then
      Some(StdEncode(seq(|s|, i requires 0 <= i < |s| => s[i] as int as Byte)))
    else None
  }

  /** The registered login's request: header, body and endpoint. */
  datatype LoginRequest = LoginRequest(authorization: string, body: seq<Param>, loginUrl: string)

  /**
   * The first request of `loginRegisteredUserB2C`: Basic credentials and a body of
   * exactly four parameters; the session id offered by the caller is not sent.
   * Fails where `btoa` throws.
   */
  function LoginRegisteredUser(cfg: Config, username: string, password: string, challenge: string,
                               redirectUri: string): (r: Option<LoginRequest>)
    ensures r.None? <==> Btoa(UserPass(username, password)).None?
    ensures r.Some? ==> r.value.authorization == "Basic " + Btoa(UserPass(username, password)).value
    ensures r.Some? ==> Keys(r.value.body) == ["redirect_uri", "client_id", "code_challenge", "channel_id"]
    ensures r.Some? ==> "usid" !in Keys(r.value.body)
    ensures r.Some? ==> r.value.loginUrl == OAuthEndpoint(cfg, "login")
  {
    match Btoa(UserPass(username, password))
    case None => None
    case Some(encoded) =>
      var body := [Param("redirect_uri", redirectUri), Param("client_id", cfg.clientId),
                   Param("code_challenge", challenge), Param("channel_id", cfg.siteId)];
      Some(LoginRequest("Basic " + encoded, body, OAuthEndpoint(cfg, "login")))
  }

  /** `dnt.toString()`. */
  function BoolText(b: bool): string
  {
    if b then "true" else "false"
  }

  /** The body of `refreshAccessToken`; `dnt` is appended only when it is provided. */
  function RefreshBody(cfg: Config, refreshToken: string, dnt: Option<bool>): (r: seq<Param>)
    ensures dnt.None? ==> Keys(r) == ["grant_type", "refresh_token", "client_id", "channel_id"]
    ensures dnt.Some? ==> Keys(r) == ["grant_type", "refresh_token", "client_id", "channel_id", "dnt"]
  {
    var base := [Param("grant_type", "refresh_token"), Param("refresh_token", refreshToken),
                 Param("client_id", cfg.clientId), Param("channel_id", cfg.siteId)];
    match dnt
    case None => base
    case Some(b) => base + [Param("dnt", BoolText(b))]
  }

  /** The registered login never sends a session id, and sends the challenge it was given. */
  lemma LoginBodyFields(cfg: Config, username: string, password: string, challenge: string, redirectUri: string)
    requires LoginRegisteredUser(cfg, username, password, challenge, redirectUri).Some?
    ensures var body := LoginRegisteredUser(cfg, username, password, challenge, redirectUri).value.body;
      Lookup(body, "usid").None? && Lookup(body, "code_challenge") == Some(challenge) &&
      Lookup(body, "redirect_uri") == Some(redirectUri)
  {
    var body := LoginRegisteredUser(cfg, username, password, challenge, redirectUri).value.body;
    LookupAbsent(body, "usid");
    LookupFirst(body, 2, "code_challenge");
    LookupFirst(body, 0, "redirect_uri");
  }

  /** Both requests of `loginRegisteredUserB2C` and where the second goes. */
  datatype RegisteredRequests = RegisteredRequests(login: LoginRequest, token: seq<Param>, tokenUrl: string)

  /**
   * `loginRegisteredUserB2C` minus the network: the login request carrying the
   * challenge of `verifier` (whose SHA-256 is `digest`, in standard base64), then
   * the code exchange fed from `redirectQuery`, the query of the login's redirect.
   */
  function LoginRegisteredUserB2C(cfg: Config, username: string, password: string, verifier: string, digest: string,
                                  redirectUri: string, redirectQuery: seq<Param>): (r: Option<RegisteredRequests>)
    ensures r.None? <==> Btoa(UserPass(username, password)).None?
    ensures r.Some? ==> Some(r.value.login) == LoginRegisteredUser(cfg, username, password, GenerateCodeChallenge(digest), redirectUri)
    ensures r.Some? ==> Keys(r.value.token) == ["client_id", "channel_id", "code", "code_verifier", "grant_type", "redirect_uri", "usid"]
    ensures r.Some? ==> r.value.tokenUrl == OAuthEndpoint(cfg, "token")
  {
    match LoginRegisteredUser(cfg, username, password, GenerateCodeChallenge(digest), redirectUri)
    case None => None
    case Some(login) =>
      Some(RegisteredRequests(
        login,
        CodeExchangeBody(cfg, Lookup(redirectQuery, "code"), Lookup(redirectQuery, "usid"), verifier, redirectUri),
        OAuthEndpoint(cfg, "token")))
  }

  /**
   * The registered flow sends the challenge of the verifier that its token request
   * reveals, one redirect URI in both requests, and a session id only in the token
   * request, taken from the login's redirect rather than from the caller.
   */
  lemma RegisteredFlowBindsVerifier(cfg: Config, username: string, password: string, verifier: string, digest: string,
                                    redirectUri: string, redirectQuery: seq<Param>)
    requires LoginRegisteredUserB2C(cfg, username, password, verifier, digest, redirectUri, redirectQuery).Some?
    ensures var r := LoginRegisteredUserB2C(cfg, username, password, verifier, digest, redirectUri, redirectQuery).value;
      && Lookup(r.login.body, "code_challenge") == Some(GenerateCodeChallenge(digest))
      && Lookup(r.token, "code_verifier") == Some(verifier)
      && Lookup(r.login.body, "redirect_uri") == Lookup(r.token, "redirect_uri") == Some(redirectUri)
      && Lookup(r.login.body, "usid").None?
      && Lookup(r.token, "usid") == Some(Appended(Lookup(redirectQuery, "usid")))
  {
    LoginBodyFields(cfg, username, password, GenerateCodeChallenge(digest), redirectUri);
    CodeExchangeFields(cfg, Lookup(redirectQuery, "code"), Lookup(redirectQuery, "usid"), verifier, redirectUri);
    CodeExchangeForwards(cfg, Lookup(redirectQuery, "code"), Lookup(redirectQuery, "usid"), verifier, redirectUri);
  }

  /** The refresh body carries the refresh grant, the token, and the client and channel ids. */
  lemma RefreshBodyFields(cfg: Config, refreshToken: string, dnt: Option<bool>)
    ensures var r := RefreshBody(cfg, refreshToken, dnt);
      && Lookup(r, "grant_type") == Some("refresh_token")
      && Lookup(r, "refresh_token") == Some(refreshToken)
      && Lookup(r, "client_id") == Some(cfg.clientId)
      && Lookup(r, "channel_id") == Some(cfg.siteId)
  {
    var r := RefreshBody(cfg, refreshToken, dnt);
    LookupFirst(r, 0, "grant_type");
    LookupFirst(r, 1, "refresh_token");
    LookupFirst(r, 2, "client_id");
    LookupFirst(r, 3, "channel_id");
  }

  /** `dnt` is sent, as text, exactly when it is given. */
  lemma RefreshBodyDnt(cfg: Config, refreshToken: string, dnt: Option<bool>)
    ensures Lookup(RefreshBody(cfg, refreshToken, dnt), "dnt") == (if dnt.Some? then Some(BoolText(dnt.value)) else None)
  {
    var r := RefreshBody(cfg, refreshToken, dnt);
    if dnt.Some? {
      LookupFirst(r, 4, "dnt");
    } else {
      LookupAbsent(r, "dnt");
    }
  }
}
