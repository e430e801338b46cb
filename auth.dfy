// The identity side of the backend that does not depend on the ledger:
// e-mail normalisation, the bearer header, token digests and the lookups
// over the session and magic-link tables.

module Auth {
  import opened Common
  import opened Text

  // ---------------------------------------------------------------- e-mail

  function TrimStart(s: string): (r: string)
    ensures |r| <= |s| && r == s[|s| - |r|..]
    ensures AllWhitespace(s[..|s| - |r|])
    ensures r != [] ==> !IsWhitespace(r[0])
  {
    if s != [] && IsWhitespace(s[0]) then
      var t := s[1..];
      var r := TrimStart(t);
      assert t[|t| - |r|..] == s[|s| - |r|..];
      assert s[..|s| - |r|] == [s[0]] + t[..|t| - |r|];
      r
    else s
  }

  function TrimEnd(s: string): (r: string)
    ensures |r| <= |s| && r == s[..|r|]
    ensures AllWhitespace(s[|r|..])
    ensures r != [] ==> !IsWhitespace(r[|r| - 1])
  {
    if s != [] && IsWhitespace(s[|s| - 1]) then TrimEnd(s[..|s| - 1]) else s
  }

  /** `str::trim`: the text between white space at both ends, which is cut
      off whole. */
  function Trim(s: string): (r: string)
    ensures exists i, j :: 0 <= i <= j <= |s| && r == s[i..j]
                           && AllWhitespace(s[..i]) && AllWhitespace(s[j..])
    ensures r != [] ==> !IsWhitespace(r[0]) && !IsWhitespace(r[|r| - 1])
    ensures r == [] ==> AllWhitespace(s)
  {
    var a := TrimStart(s);
    var r := TrimEnd(a);
    MiddleOf(s, |s| - |a|, a, r);
    r
  }

  /** A prefix `r` of the suffix `a` of `s`, with white space cut on both
      sides, is the text between white space at both ends of `s`. */
  lemma MiddleOf(s: string, i: nat, a: string, r: string)
    requires i <= |s| && a == s[i..] && |r| <= |a| && r == a[..|r|]
    requires AllWhitespace(s[..i]) && AllWhitespace(a[|r|..])
    requires a != [] ==> !IsWhitespace(a[0])
    requires r != [] ==> !IsWhitespace(r[|r| - 1])
    ensures exists i, j :: 0 <= i <= j <= |s| && r == s[i..j]
                           && AllWhitespace(s[..i]) && AllWhitespace(s[j..])
    ensures r != [] ==> !IsWhitespace(r[0]) && !IsWhitespace(r[|r| - 1])
    ensures r == [] ==> AllWhitespace(s)
  {
    assert s[i + |r|..] == a[|r|..];
    assert s[i..i + |r|] == r;
    if r == [] {
      assert a == [];
      assert s == s[..i];
    } else {
      assert r[0] == a[0];
    }
  }

  /** ASCII lower-casing of one character: `A`..`Z` become `a`..`z`. */
  function LowerChar(c: char): (l: char)
    ensures !('A' <= l <= 'Z')
    ensures if 'A' <= c <= 'Z' then 'a' <= l <= 'z' && l as int == c as int + 32 else l == c
    ensures IsWhitespace(l) == IsWhitespace(c)
  {
    if 'A' <= c <= 'Z' then (c as int + 32) as char else c
  }

  predicate NoUpper(s: string)
  {
    forall i :: 0 <= i < |s| ==> !('A' <= s[i] <= 'Z')
  }

  /** `to_lowercase`, restricted to ASCII letters: character by character,
      leaving no upper-case letter. */
  function ToLower(s: string): (r: string)
    ensures |r| == |s| && forall i :: 0 <= i < |s| ==> r[i] == LowerChar(s[i])
    ensures NoUpper(r)
  {
    seq(|s|, i requires 0 <= i < |s| => LowerChar(s[i]))
  }

  /** The texts lower-casing leaves alone are exactly those without an
      upper-case letter; so lower-casing twice is lower-casing once. */
  lemma ToLowerFixedPoints(s: string)
    ensures ToLower(s) == s <==> NoUpper(s)
    ensures ToLower(ToLower(s)) == ToLower(s)
  {
    if NoUpper(s) {
      assert forall i :: 0 <= i < |s| ==> ToLower(s)[i] == s[i];
    }
    var t := ToLower(s);
    assert forall i :: 0 <= i < |t| ==> ToLower(t)[i] == t[i];
  }

  /** The e-mail address as `request_magic_link` stores it: trimmed, then
      lower-cased. */
  function NormalizeEmail(raw: string): (email: string)
    ensures NoUpper(email)
    ensures email != [] ==> !IsWhitespace(email[0]) && !IsWhitespace(email[|email| - 1])
  {
    var t := Trim(raw);
    var email := ToLower(t);
    if email == [] then email
    else
      var first, last := t[0], t[|t| - 1];
      assert email[0] == LowerChar(first) && !IsWhitespace(first);
      assert email[|email| - 1] == LowerChar(last) && !IsWhitespace(last);
      email
  }

  /** The normalised address is the input with surrounding whitespace cut off,
      lower-cased: nothing else of the input is lost or changed. */
  lemma NormalizeEmailCutsOnlyWhitespace(raw: string)
    ensures exists i, j :: 0 <= i <= j <= |raw|
              && AllWhitespace(raw[..i]) && AllWhitespace(raw[j..])
              && NormalizeEmail(raw) == ToLower(raw[i..j])
  {
    var a := TrimStart(raw);
    var b := TrimEnd(a);
    var i := |raw| - |a|;
    var j := i + |b|;
    assert raw[i..j] == b;
    assert raw[j..] == a[|b|..];
  }

  /** Normalising twice changes nothing more. */
  lemma NormalizeEmailIdempotent(raw: string)
    ensures NormalizeEmail(NormalizeEmail(raw)) == NormalizeEmail(raw)
  {
    var e := NormalizeEmail(raw);
    assert TrimStart(e) == e;
    assert TrimEnd(e) == e;
    assert ToLower(e) == e;
  }

  /** The e-mail check of `request_magic_link`: the normalised address must be
      non-empty and contain `@`; otherwise the request fails before anything
      is written. */
  function CheckEmail(raw: string): (r: Result<string>)
    ensures r.Ok? ==> r.value == NormalizeEmail(raw) && r.value != [] && '@' in r.value
    ensures r.Err? ==> r.status == BadRequest && '@' !in NormalizeEmail(raw)
  {
    var email := NormalizeEmail(raw);
    if email == [] || '@' !in email then Err(BadRequest) else Ok(email)
  }

  /** An address that is nothing but white space is refused. */
  lemma CheckEmailBlank(raw: string)
    requires AllWhitespace(raw)
    ensures CheckEmail(raw).Err?
  {
    var t := Trim(raw);
    var i, j :| 0 <= i <= j <= |raw| && t == raw[i..j];
    WhitespaceSlice(raw, i, j);
    assert t == [];
  }

  lemma WhitespaceSlice(s: string, i: nat, j: nat)
    requires AllWhitespace(s) && i <= j <= |s|
    ensures AllWhitespace(s[i..j])
  {
    assert forall m :: 0 <= m < j - i ==> s[i..j][m] == s[i + m];
  }

  /** An address without `@` is refused: normalising never makes one. */
  lemma CheckEmailNoAt(raw: string)
    requires '@' !in raw
    ensures CheckEmail(raw).Err?
  {
    var t := Trim(raw);
    var i, j :| 0 <= i <= j <= |raw| && t == raw[i..j];
    NoAtSlice(raw, i, j);
    NoAtLower(t);
  }

  lemma NoAtSlice(s: string, i: nat, j: nat)
    requires '@' !in s && i <= j <= |s|
    ensures '@' !in s[i..j]
  {
    forall k | 0 <= k < j - i ensures s[i..j][k] != '@' {
      assert s[i..j][k] == s[i + k] && s[i + k] in s;
    }
  }

  lemma NoAtLower(t: string)
    requires '@' !in t
    ensures '@' !in ToLower(t)
  {
    var email := ToLower(t);
    forall k | 0 <= k < |email| ensures email[k] != '@' {
      assert t[k] in t;
    }
  }

  // ---------------------------------------------------------------- bearer

  const BearerPrefix: string := "Bearer "

  /** The bytes `HeaderValue::to_str` accepts: visible ASCII and tab. */
  predicate VisibleAscii(c: char)
  {
    (' ' <= c <= '~') || c == '\t'
  }

  predicate AllVisible(s: string)
  {
    forall i :: 0 <= i < |s| ==> VisibleAscii(s[i])
  }

  /** `extract_bearer_token`: the `Authorization` header (None when absent)
      must be readable as text and start with `Bearer `; what follows is the
      token. */
  function ExtractBearerToken(header: Option<string>): (r: Result<string>)
    ensures r.Ok? <==> header.Some? && AllVisible(header.value)
                       && |BearerPrefix| <= |header.value|
                       && header.value[..|BearerPrefix|] == BearerPrefix
    ensures r.Ok? ==> header.value == BearerPrefix + r.value
    ensures r.Err? ==> r.status == Unauthorized
  {
    match header
    case None => Err(Unauthorized)
    case Some(v) =>
      if !AllVisible(v) then Err(Unauthorized)
      else if |BearerPrefix| <= |v| && v[..|BearerPrefix|] == BearerPrefix then
        assert v == BearerPrefix + v[|BearerPrefix|..];
        Ok(v[|BearerPrefix|..])
      else Err(Unauthorized)
  }

  /** The header `Bearer t` gives back exactly `t`. */
  lemma BearerRoundTrip(t: string)
    requires AllVisible(t)
    ensures ExtractBearerToken(Some(BearerPrefix + t)) == Ok(t)
  {
    var v := BearerPrefix + t;
    assert v[..|BearerPrefix|] == BearerPrefix;
    assert forall i :: 0 <= i < |v| ==> VisibleAscii(v[i]) by {
      forall i | 0 <= i < |v| ensures VisibleAscii(v[i]) {
        if i >= |BearerPrefix| { assert v[i] == t[i - |BearerPrefix|]; }
      }
    }
  }

  lemma BearerExamples()
    ensures ExtractBearerToken(Some("Bearer testtoken")) == Ok("testtoken")
    ensures ExtractBearerToken(None).Err?
    ensures ExtractBearerToken(Some("Basic dXNlcg==")).Err?
    ensures ExtractBearerToken(Some("bearer testtoken")).Err?
  {
    BearerRoundTrip("testtoken");
    assert "Bearer testtoken" == BearerPrefix + "testtoken";
    assert "Basic dXNlcg=="[1] != BearerPrefix[1];
    assert "bearer testtoken"[0] != BearerPrefix[0];
  }

  // ---------------------------------------------------------------- tokens

  /** `sha256_hex`: a token is only ever stored as its digest. The digest is
      a constructor, hence injective, which is all the handlers rely on. */
  datatype Digest = Sha256(preimage: string)

  const MagicLinkLifetime: Time := 15 * 60
  const SessionLifetime: Time := 30 * 24 * 60 * 60

  /** A row of `sessions`. */
  datatype SessionRow = SessionRow(id: Id, user: Id, tokenHash: Digest, expiresAt: Time, revokedAt: Option<Time>)

  /** The predicate of the session lookup: matching digest, not revoked and
      not yet expired. */
  predicate SessionAccepts(s: SessionRow, hash: Digest, now: Time)
  {
    s.tokenHash == hash && s.revokedAt.None? && s.expiresAt > now
  }

  /** `lookup_user_id_by_token_hash` over the `sessions` table: the user of
      the first accepting session, if any. */
  function LookupUserIdByTokenHash(sessions: seq<SessionRow>, hash: Digest, now: Time): (r: Option<Id>)
    ensures r.None? <==> forall i :: 0 <= i < |sessions| ==> !SessionAccepts(sessions[i], hash, now)
    ensures r.Some? ==> exists i :: 0 <= i < |sessions| && SessionAccepts(sessions[i], hash, now)
                                    && sessions[i].user == r.value
  {
    if sessions == [] then None
    else if SessionAccepts(sessions[0], hash, now) then Some(sessions[0].user)
    else
      var r := LookupUserIdByTokenHash(sessions[1..], hash, now);
      assert forall i :: 1 <= i < |sessions| ==> sessions[i] == sessions[1..][i - 1];
      r
  }

  /** `user_from_token_hash`, over whatever the session lookup answered:
      a lookup error propagates, a missing session is UNAUTHORIZED. */
  function UserFromTokenHash(lookup: Result<Option<Id>>): (r: Result<Id>)
    ensures r.Ok? <==> lookup.Ok? && lookup.value.Some?
    ensures r.Ok? ==> r.value == lookup.value.value
    ensures lookup.Ok? && lookup.value.None? ==> r == Err(Unauthorized)
    ensures lookup.Err? ==> r == Err(lookup.status)
  {
    match lookup
    case Err(s) => Err(s)
    case Ok(found) =>
      match found
      case Some(uid) => Ok(uid)
      case None => Err(Unauthorized)
  }

  /** `user_from_headers`: the bearer token of the header, hashed, looked up
      among the sessions at time `now`. Only a header that carries the secret
      of an unrevoked, unexpired session is accepted, and then the caller is
      that session's user. */
  function Authenticate(sessions: seq<SessionRow>, header: Option<string>, now: Time): (r: Result<Id>)
    ensures r.Ok? ==> exists i :: 0 <= i < |sessions| && SessionAccepts(sessions[i], sessions[i].tokenHash, now)
                                  && sessions[i].user == r.value
                                  && header == Some(BearerPrefix + sessions[i].tokenHash.preimage)
    ensures r.Err? ==> r.status == Unauthorized
  {
    var token :- ExtractBearerToken(header);
    UserFromTokenHash(Ok(LookupUserIdByTokenHash(sessions, Sha256(token), now)))
  }

  /** Conversely, a well-formed header whose token has an accepting session
      authenticates. */
  lemma AuthenticateAccepts(sessions: seq<SessionRow>, token: string, now: Time, i: nat)
    requires AllVisible(token)
    requires i < |sessions| && SessionAccepts(sessions[i], Sha256(token), now)
    ensures Authenticate(sessions, Some(BearerPrefix + token), now).Ok?
  {
    BearerRoundTrip(token);
  }

  /** The two unit tests of `user_from_token_hash` with a fake lookup. */
  lemma UserFromTokenHashExamples(uid: Id)
    ensures UserFromTokenHash(Ok(Some(uid))) == Ok(uid)
    ensures UserFromTokenHash(Ok(None)) == Err(Unauthorized)
  {
  }

  /** A row of `magic_link_tokens`. */
  datatype MagicLinkTokenRow = MagicLinkTokenRow(id: Id, email: string, tokenHash: Digest, expiresAt: Time, consumedAt: Option<Time>)

  /** The predicate of `verify_magic_link`'s lookup. */
  predicate Usable(t: MagicLinkTokenRow, hash: Digest, now: Time)
  {
    t.tokenHash == hash && t.consumedAt.None? && t.expiresAt > now
  }

  /** The lookup of `verify_magic_link`: among the usable rows with this
      digest, the most recently created one (rows are kept in creation
      order). */
  function FindUsableToken(tokens: seq<MagicLinkTokenRow>, hash: Digest, now: Time): (r: Option<nat>)
    ensures r.Some? ==> r.value < |tokens| && Usable(tokens[r.value], hash, now)
                        && forall j :: r.value < j < |tokens| ==> !Usable(tokens[j], hash, now)
    ensures r.None? ==> forall j :: 0 <= j < |tokens| ==> !Usable(tokens[j], hash, now)
  {
    if tokens == [] then None
    else if Usable(tokens[|tokens| - 1], hash, now) then Some(|tokens| - 1)
    else FindUsableToken(tokens[..|tokens| - 1], hash, now)
  }

  /** `update magic_link_tokens set consumed_at = now() where id = $1`. */
  function ConsumeToken(tokens: seq<MagicLinkTokenRow>, id: Id, now: Time): (r: seq<MagicLinkTokenRow>)
    ensures |r| == |tokens|
    ensures forall j :: 0 <= j < |tokens| ==>
              r[j] == if tokens[j].id == id then tokens[j].(consumedAt := Some(now)) else tokens[j]
  {
    seq(|tokens|, j requires 0 <= j < |tokens| =>
      if tokens[j].id == id then tokens[j].(consumedAt := Some(now)) else tokens[j])
  }

  /** Magic links are single use: once the row a verification matched is
      consumed, the same token is refused at every later time, provided no
      other row was issued with the same digest. */
  lemma ConsumedTokenIsRefused(tokens: seq<MagicLinkTokenRow>, hash: Digest, now: Time, later: Time)
    requires FindUsableToken(tokens, hash, now).Some?
    requires forall j, k :: (0 <= j < |tokens| && 0 <= k < |tokens| && tokens[j].tokenHash == hash
                             && tokens[k].tokenHash == hash) ==> j == k
    ensures var k := FindUsableToken(tokens, hash, now).value;
            FindUsableToken(ConsumeToken(tokens, tokens[k].id, now), hash, later).None?
  {
    var k := FindUsableToken(tokens, hash, now).value;
    var after := ConsumeToken(tokens, tokens[k].id, now);
    forall j | 0 <= j < |after| ensures !Usable(after[j], hash, later) {
      if tokens[j].tokenHash == hash {
        assert j == k;
      }
    }
  }

  /** A token that was never issued (no row carries its digest) is refused. */
  lemma UnknownTokenIsRefused(tokens: seq<MagicLinkTokenRow>, token: string, now: Time)
    requires forall j :: 0 <= j < |tokens| ==> tokens[j].tokenHash != Sha256(token)
    ensures FindUsableToken(tokens, Sha256(token), now).None?
  {
  }

  /** A freshly requested link (the newest row) is usable exactly until its
      fifteen minutes run out. */
  lemma {:induction false} FreshTokenLifetime(tokens: seq<MagicLinkTokenRow>, row: MagicLinkTokenRow, issued: Time, at: Time)
    requires row.consumedAt.None? && row.expiresAt == issued + MagicLinkLifetime
    ensures FindUsableToken(tokens + [row], row.tokenHash, at) == Some(|tokens|) <==> at < issued + MagicLinkLifetime
  {
    var all := tokens + [row];
    assert all[|all| - 1] == row;
    if at >= issued + MagicLinkLifetime {
      assert !Usable(all[|tokens|], row.tokenHash, at);
    }
  }
}
