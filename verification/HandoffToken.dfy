/** The signed direct-handoff token (qualification/bridgefu_web_handoff.py: `issue_handoff_token`,
    `verify_handoff_token`; lambda/common/bridgefu_handoff.py: `verify_direct_handoff_token`). The keyed digest
    and the reading and writing of JSON are parameters. */
module HandoffToken {
  import opened Wrappers
  import opened Base64Url
  import opened Collections
  import Json
  import Text

  const ISSUER := "bridgefu-vapi-awsconnect-qualification"
  const AUDIENCE := "bridgefu-direct-handoff"
  const LEEWAY := 5
  const MAX_LIFETIME := 7200

  /** `read` is JSON decoding of bytes, `write` sorted compact encoding; `mac` the keyed digest of a text. */
  datatype Env = Env(mac: (string, string) -> seq<Byte>, write: Json.Json -> seq<Byte>,
                     read: seq<Byte> -> Option<Json.Json>)

  predicate IsIdentifier(s: string) {
    1 <= |s| <= 128 && forall i :: 0 <= i < |s| ==> IsLetter(s[i])
  }

  predicate IsToken(s: string) {
    1 <= |s| <= 4096 && forall i :: 0 <= i < |s| ==> IsLetter(s[i]) || s[i] == '.'
  }

  function Header(): Json.Json {
    Json.Obj([Json.Member("alg", Json.Str("HS256")), Json.Member("typ", Json.Str("JWT"))])
  }

  function Claims(session: string, tokenId: string, issuedAt: int, expiresAt: int): Json.Json {
    Json.Obj([Json.Member("aud", Json.Str(AUDIENCE)), Json.Member("exp", Json.Num(expiresAt)),
              Json.Member("iat", Json.Num(issuedAt)), Json.Member("iss", Json.Str(ISSUER)),
              Json.Member("jti", Json.Str(tokenId)), Json.Member("sub", Json.Str(session))])
  }

  predicate IssueOk(key: string, session: string, tokenId: string, issuedAt: int, lifetime: int) {
    32 <= |key| <= 4096 && IsIdentifier(session) && IsIdentifier(tokenId) && 60 <= lifetime <= MAX_LIFETIME
        && issuedAt > 0
  }

  function Signed(env: Env, session: string, tokenId: string, issuedAt: int, lifetime: int): string {
    Encode(env.write(Header())) + "." + Encode(env.write(Claims(session, tokenId, issuedAt, issuedAt + lifetime)))
  }

  /** `issue_handoff_token`. */
  function Issue(env: Env, key: string, session: string, tokenId: string, issuedAt: int,
                 lifetime: int): Option<string> {
    if !IssueOk(key, session, tokenId, issuedAt, lifetime) then None
    else
      var signed := Signed(env, session, tokenId, issuedAt, lifetime);
      var token := signed + "." + Encode(env.mac(key, signed));
      if IsToken(token) then Some(token) else None
  }

  /** The value of a member of an object with distinct names. */
  function Member(members: seq<Json.Member>, key: string): Option<Json.Json> {
    if members == [] then None
    else if members[0].key == key then Some(members[0].value) else Member(members[1..], key)
  }

  /** Python counts a boolean as an integer. */
  function IntOf(j: Option<Json.Json>): Option<int> {
    match j
    case Some(Num(n)) => Some(n)
    case Some(Bool(b)) => Some(if b then 1 else 0)
    case _ => None
  }

  predicate HasExactly(members: seq<Json.Member>, keys: set<string>) {
    && (set m | m in members :: m.key) == keys
    && forall i, j :: 0 <= i < j < |members| ==> members[i].key != members[j].key
  }

  const CLAIM_NAMES := {"aud", "exp", "iat", "iss", "jti", "sub"}

  /** The checks on decoded claims at one time. */
  function CheckClaims(claims: Json.Json, now: int): Option<(string, string)> {
    if !claims.Obj? || !HasExactly(claims.members, CLAIM_NAMES) then None
    else
      var m := claims.members;
      CheckValues(Member(m, "iss"), Member(m, "aud"), IntOf(Member(m, "iat")), IntOf(Member(m, "exp")),
                  Member(m, "sub"), Member(m, "jti"), now)
  }

  function CheckValues(iss: Option<Json.Json>, aud: Option<Json.Json>, iat: Option<int>, exp: Option<int>,
                       sub: Option<Json.Json>, jti: Option<Json.Json>, now: int): Option<(string, string)> {
    if iss != Some(Json.Str(ISSUER)) || aud != Some(Json.Str(AUDIENCE)) || iat.None? || exp.None? then None
    else if iat.value > now + LEEWAY || exp.value < now - LEEWAY || exp.value <= iat.value
            || exp.value - iat.value > MAX_LIFETIME then None
    else
      match (sub, jti)
      case (Some(Str(s)), Some(Str(t))) => if IsIdentifier(s) && IsIdentifier(t) then Some((s, t)) else None
      case _ => None
  }

  predicate IsHeader(j: Json.Json) {
    j.Obj? && HasExactly(j.members, {"alg", "typ"}) && Member(j.members, "alg") == Some(Json.Str("HS256"))
    && Member(j.members, "typ") == Some(Json.Str("JWT"))
  }

  /** `verify_handoff_token`: the key is measured in characters, and every claim is checked in one place. */
  function Verify(env: Env, token: string, key: string, now: int): Option<(string, string)> {
    if !IsToken(token) || !(32 <= |key| <= 4096) then None
    else
      var parts := Text.Split(token, '.');
      if |parts| != 3 then None
      else
        var signature := Decode(parts[2]);
        if signature != Some(env.mac(key, parts[0] + "." + parts[1])) then None
        else
          match (Decode(parts[0]), Decode(parts[1]))
          case (Some(h), Some(c)) =>
            if env.read(h).None? || env.read(c).None? || !IsHeader(env.read(h).value) then None
            else CheckClaims(env.read(c).value, now)
          case _ => None
  }

  /** `json.loads(decode(value))` */
  function Loads(env: Env, text: string): Option<Json.Json> {
    var bytes := Decode(text);
    if bytes.None? then None else env.read(bytes.value)
  }

  predicate Refused(header: Json.Json, claims: Json.Json, now: int) {
    || !IsHeader(header) || !claims.Obj? || !HasExactly(claims.members, CLAIM_NAMES)
    || Member(claims.members, "iss") != Some(Json.Str(ISSUER))
        || Member(claims.members, "aud") != Some(Json.Str(AUDIENCE))
    || var iat, exp := IntOf(Member(claims.members, "iat")), IntOf(Member(claims.members, "exp"));
       iat.None? || exp.None? || iat.value > now + LEEWAY || exp.value < now - LEEWAY || exp.value <= iat.value
       || exp.value - iat.value > MAX_LIFETIME
  }

  /** `_bounded_identifier` */
  function Bounded(j: Option<Json.Json>): Option<string> {
    match j
    case Some(Str(s)) => if IsIdentifier(s) then Some(s) else None
    case _ => None
  }

  /** The Lambda's own verifier: `_direct_tool_call` has matched the token, then `verify_direct_handoff_token`
      measures the key in bytes and bounds the identifiers after everything else. */
  function VerifyDirect(env: Env, token: string, key: string, now: int): Option<(string, string)> {
    if !IsToken(token) || !(32 <= Json.Utf8Length(key) <= 4096) then None
    else
      var parts := Text.Split(token, '.');
      if |parts| != 3 then None
      else
        var expected, signature := env.mac(key, parts[0] + "." + parts[1]), Decode(parts[2]);
        if signature.None? || expected != signature.value then None
        else
          var header, claims := Loads(env, parts[0]), Loads(env, parts[1]);
          if header.None? || claims.None? || Refused(header.value, claims.value, now) then None
          else
            var session := Bounded(Member(claims.value.members, "sub"));
            var tokenId := Bounded(Member(claims.value.members, "jti"));
            if session.None? || tokenId.None? then None else Some((session.value, tokenId.value))
  }

  /** What is assumed of JSON and of the digest: the two objects of a token read back as written. */
  predicate Faithful(env: Env, claims: Json.Json, key: string, signed: string) {
    && env.write(Header()) != [] && env.read(env.write(Header())) == Some(Header())
    && env.write(claims) != [] && env.read(env.write(claims)) == Some(claims)
    && env.mac(key, signed) != []
  }

  lemma {:induction false} MemberAt(members: seq<Json.Member>, i: nat)
    requires i < |members| && forall j :: 0 <= j < i ==> members[j].key != members[i].key
    ensures Member(members, members[i].key) == Some(members[i].value)
  {
    if i > 0 {
      assert members[1..][i - 1] == members[i];
      MemberAt(members[1..], i - 1);
    }
  }

  lemma ClaimsShape(session: string, tokenId: string, issuedAt: int, expiresAt: int)
    ensures
      var m := Claims(session, tokenId, issuedAt, expiresAt).members;
      && |m| == 6 && m[0] == Json.Member("aud", Json.Str(AUDIENCE)) && m[1] == Json.Member("exp", Json.Num(expiresAt))
      && m[2] == Json.Member("iat", Json.Num(issuedAt)) && m[3] == Json.Member("iss", Json.Str(ISSUER))
      && m[4] == Json.Member("jti", Json.Str(tokenId)) && m[5] == Json.Member("sub", Json.Str(session))
      && forall i, j :: 0 <= i < j < 6 ==> m[i].key != m[j].key
  {
    assert "aud"[0] == 'a' && "exp"[0] == 'e' && "iat"[0] == 'i' && "iss"[0] == 'i' && "jti"[0] == 'j'
           && "sub"[0] == 's';
    assert "iat"[1] == 'a' && "iss"[1] == 's';
  }

  lemma NamesOfClaims(session: string, tokenId: string, issuedAt: int, expiresAt: int)
    ensures Claims(session, tokenId, issuedAt, expiresAt).Obj?
    ensures
      var m := Claims(session, tokenId, issuedAt, expiresAt).members;
      && HasExactly(m, CLAIM_NAMES)
      && Member(m, "aud") == Some(Json.Str(AUDIENCE)) && Member(m, "exp") == Some(Json.Num(expiresAt))
      && Member(m, "iat") == Some(Json.Num(issuedAt)) && Member(m, "iss") == Some(Json.Str(ISSUER))
      && Member(m, "jti") == Some(Json.Str(tokenId)) && Member(m, "sub") == Some(Json.Str(session))
  {
    ClaimsShape(session, tokenId, issuedAt, expiresAt);
    var m := Claims(session, tokenId, issuedAt, expiresAt).members;
    hide Claims, Member, AUDIENCE, ISSUER;
    forall i | 0 <= i < 6 ensures Member(m, m[i].key) == Some(m[i].value) {
      MemberAt(m, i);
    }
    assert m[0].key == "aud" && m[1].key == "exp" && m[2].key == "iat" && m[3].key == "iss" && m[4].key == "jti"
           && m[5].key == "sub";
    forall k ensures k in (set x | x in m :: x.key) <==> k in CLAIM_NAMES {
      if k in CLAIM_NAMES {
        assert m[0] in m && m[1] in m && m[2] in m && m[3] in m && m[4] in m && m[5] in m;
      }
    }
  }

  lemma HeaderIsHeader()
    ensures IsHeader(Header())
  {
    var m := Header().members;
    assert m[0].key == "alg" && m[1].key == "typ" && "alg"[0] != "typ"[0];
    assert Member(m[1..], "typ") == Some(Json.Str("JWT"));
    assert forall x :: x in m <==> x == m[0] || x == m[1];
  }

  lemma CheckedValues(claims: Json.Json, now: int)
    requires claims.Obj? && HasExactly(claims.members, CLAIM_NAMES)
    ensures
      var m := claims.members;
      && CheckClaims(claims, now)
         == CheckValues(Member(m, "iss"), Member(m, "aud"), IntOf(Member(m, "iat")), IntOf(Member(m, "exp")),
                        Member(m, "sub"), Member(m, "jti"), now)
      && forall n: int :: IntOf(Some(Json.Num(n))) == Some(n)
  {
    hide Member, HasExactly, CheckValues, CLAIM_NAMES;
  }

  lemma ClaimValues(session: string, tokenId: string, issuedAt: int, lifetime: int, now: int)
    requires IsIdentifier(session) && IsIdentifier(tokenId) && 60 <= lifetime <= MAX_LIFETIME
    ensures CheckValues(Some(Json.Str(ISSUER)), Some(Json.Str(AUDIENCE)), Some(issuedAt), Some(issuedAt + lifetime),
                        Some(Json.Str(session)), Some(Json.Str(tokenId)), now)
         == if issuedAt - LEEWAY <= now <= issuedAt + lifetime + LEEWAY then Some((session, tokenId)) else None
  {
    hide IsIdentifier, ISSUER, AUDIENCE;
  }

  /** At any one time the claims of an issued token are accepted within five seconds of its lifetime. */
  lemma IssuedClaims(session: string, tokenId: string, issuedAt: int, lifetime: int, now: int)
    requires IsIdentifier(session) && IsIdentifier(tokenId) && 60 <= lifetime <= MAX_LIFETIME
    ensures CheckClaims(Claims(session, tokenId, issuedAt, issuedAt + lifetime), now)
         == if issuedAt - LEEWAY <= now <= issuedAt + lifetime + LEEWAY then Some((session, tokenId)) else None
  {
    hide *;
    NamesOfClaims(session, tokenId, issuedAt, issuedAt + lifetime);
    CheckedValues(Claims(session, tokenId, issuedAt, issuedAt + lifetime), now);
    ClaimValues(session, tokenId, issuedAt, lifetime, now);
  }

  /** The three parts come apart at the dots again. */
  lemma PartsOf(a: string, b: string, c: string)
    requires '.' !in a && '.' !in b && '.' !in c
    ensures Text.Split(a + "." + b + "." + c, '.') == [a, b, c]
  {
    Text.SplitPrefix(a, b + "." + c, '.');
    Text.SplitPrefix(b, c, '.');
    Text.SplitPrefix(c, "", '.');
    assert a + "." + b + "." + c == a + ['.'] + (b + "." + c);
    assert b + "." + c == b + ['.'] + c;
    hide Text.Split;
  }

  lemma NoDots(bytes: seq<Byte>)
    ensures '.' !in Encode(bytes)
  {
    EncodeIsLetters(bytes);
  }

  /** Every issued token is accepted with its key exactly from five seconds before it was issued to five seconds
      after it expires, and yields the session and token it was issued for. */
  lemma IssuedIsVerified(env: Env, key: string, session: string, tokenId: string, issuedAt: int, lifetime: int,
                         now: int)
    requires Issue(env, key, session, tokenId, issuedAt, lifetime).Some?
    requires Faithful(env, Claims(session, tokenId, issuedAt, issuedAt + lifetime), key,
                      Signed(env, session, tokenId, issuedAt, lifetime))
    ensures Verify(env, Issue(env, key, session, tokenId, issuedAt, lifetime).value, key, now)
         == if issuedAt - LEEWAY <= now <= issuedAt + lifetime + LEEWAY then Some((session, tokenId)) else None
  {
    var claims := Claims(session, tokenId, issuedAt, issuedAt + lifetime);
    var signed := Signed(env, session, tokenId, issuedAt, lifetime);
    var h, c, s := Encode(env.write(Header())), Encode(env.write(claims)), Encode(env.mac(key, signed));
    NoDots(env.write(Header()));
    NoDots(env.write(claims));
    NoDots(env.mac(key, signed));
    PartsOf(h, c, s);
    DecodeEncode(env.write(Header()));
    DecodeEncode(env.write(claims));
    DecodeEncode(env.mac(key, signed));
    HeaderIsHeader();
    IssuedClaims(session, tokenId, issuedAt, lifetime, now);
    hide Claims, Encode, Decode, CheckClaims, IsHeader, Header, Text.Split, IsToken, IsIdentifier;
  }

  lemma {:induction false} CharactersAndBytes(key: string)
    ensures Json.Utf8Length(key) >= |key|
  {
    if key != "" {
      CharactersAndBytes(key[1..]);
    }
  }

  lemma ClaimsAgree(header: Json.Json, claims: Json.Json, now: int)
    ensures !IsHeader(header) ==> Refused(header, claims, now)
    ensures Refused(header, claims, now) && IsHeader(header) ==> CheckClaims(claims, now).None?
    ensures !Refused(header, claims, now) ==>
              && IsHeader(header) && claims.Obj?
              && var session, tokenId := Bounded(Member(claims.members, "sub")), Bounded(Member(claims.members, "jti"));
                 CheckClaims(claims, now)
                 == if session.None? || tokenId.None? then None else Some((session.value, tokenId.value))
  {
    hide IsHeader, HasExactly, Member, IsIdentifier, CLAIM_NAMES, ISSUER, AUDIENCE;
  }

  /** On every text and at every time the two verifiers say the same of a key that both accept or both refuse. */
  lemma VerifiersAgree(env: Env, token: string, key: string, now: int)
    requires 32 <= |key| <= 4096 <==> 32 <= Json.Utf8Length(key) <= 4096
    ensures VerifyDirect(env, token, key, now) == Verify(env, token, key, now)
  {
    hide IsToken, Decode, Text.Split, IsHeader, CheckClaims, Refused, Bounded, Member, Json.Utf8Length;
    var parts := Text.Split(token, '.');
    if |parts| == 3 {
      var header, claims := Loads(env, parts[0]), Loads(env, parts[1]);
      if header.Some? && claims.Some? {
        ClaimsAgree(header.value, claims.value, now);
      }
    }
  }

  /** They measure the key differently: on an issued token they agree at every time if and only if the key is at
      most 4096 bytes long in UTF-8; beyond that the direct one refuses the token. */
  lemma VerifiersAgreeIff(env: Env, key: string, session: string, tokenId: string, issuedAt: int, lifetime: int)
    requires Issue(env, key, session, tokenId, issuedAt, lifetime).Some?
    requires Faithful(env, Claims(session, tokenId, issuedAt, issuedAt + lifetime), key,
                      Signed(env, session, tokenId, issuedAt, lifetime))
    ensures
      var token := Issue(env, key, session, tokenId, issuedAt, lifetime).value;
      (forall now :: VerifyDirect(env, token, key, now) == Verify(env, token, key, now))
          <==> Json.Utf8Length(key) <= 4096
  {
    var token := Issue(env, key, session, tokenId, issuedAt, lifetime).value;
    CharactersAndBytes(key);
    IssuedIsVerified(env, key, session, tokenId, issuedAt, lifetime, issuedAt);
    if Json.Utf8Length(key) > 4096 {
      DirectRefuses(env, token, key, issuedAt);
      hide VerifyDirect, Verify;
      assert VerifyDirect(env, token, key, issuedAt) != Verify(env, token, key, issuedAt);
    } else {
      hide VerifyDirect, Verify;
      forall now ensures VerifyDirect(env, token, key, now) == Verify(env, token, key, now) {
        VerifiersAgree(env, token, key, now);
      }
    }
  }

  lemma DirectRefuses(env: Env, token: string, key: string, now: int)
    requires Json.Utf8Length(key) > 4096
    ensures VerifyDirect(env, token, key, now).None?
  {
  }
}
