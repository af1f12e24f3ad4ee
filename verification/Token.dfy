/** The signed editor token (section 7.1 of RFC 7515) and what it authorises. */
module Token {
  import opened Common
  import opened Text
  import opened Pbkdf2
  import Base64

  const TOKEN_SECONDS: int := 900
  const MIN_SECRET: nat := 16
  const HEADER := "{\"alg\":\"HS256\",\"typ\":\"JWT\"}"

  datatype Claims = Claims(subject: string, displayName: string, fileId: string, role: string,
                           permissions: seq<string>, kind: string, expiresAt: int)

  /** JSON encoding of claims, of which only the round trip is used. */
  datatype Codec = Codec(marshal: Claims -> Bytes, unmarshal: Bytes -> Option<Claims>)
  {
    ghost predicate RoundTrips() {
      forall c: Claims :: unmarshal(marshal(c)) == Some(c)
    }
  }

  datatype Config = Config(codec: Codec, mac: Prf, secret: Bytes)

  /** The bytes of ASCII text. */
  function Ascii(text: string): Bytes {
    seq(|text|, i requires 0 <= i < |text| => (text[i] as int % 256) as Byte)
  }

  // ---- Signing and verifying.

  function SigningInput(config: Config, claims: Claims): string {
    Base64.Encode(Base64.Url, Ascii(HEADER)) + "." + Base64.Encode(Base64.Url, config.codec.marshal(claims))
  }

  function Sign(config: Config, claims: Claims): string {
    var signing := SigningInput(config, claims);
    signing + "." + Base64.Encode(Base64.Url, config.mac(config.secret, Ascii(signing)))
  }

  /** verifyJWT; None is the source's ErrForbidden. */
  function VerifyToken(config: Config, token: string): Option<Claims> {
    var parts := Split(token, '.');
    if |parts| != 3 || |config.secret| < MIN_SECRET then None
    else
      var got := Base64.Decode(Base64.Url, parts[2]);
      if got.None? then None
      else if got.value != config.mac(config.secret, Ascii(parts[0] + "." + parts[1])) then None
      else
        var payload := Base64.Decode(Base64.Url, parts[1]);
        if payload.None? then None
        else
          var claims := config.codec.unmarshal(payload.value);
          if claims.None? || claims.value.subject == "" || claims.value.fileId == "" then None else claims
  }

  function Mint(config: Config, user: string, displayName: string, fileId: string, role: string, kind: string,
                now: int): Option<string>
  {
    if |config.secret| < MIN_SECRET then None
    else
      var permissions := if role == "editor" then ["read", "write"] else ["read"];
      Some(Sign(config, Claims(user, displayName, fileId, role, permissions, kind, now + TOKEN_SECONDS)))
  }

  function VerifyForFile(config: Config, token: string, fileId: string, now: int): Option<Claims> {
    var claims := VerifyToken(config, token);
    if claims.None? || claims.value.fileId != fileId || claims.value.expiresAt <= now then None else claims
  }

  // ---- Authorisation.

  predicate CanView(role: Role) { !role.NoRole? }
  predicate CanEdit(role: Role) { role.Owner? || role.Editor? }

  datatype Access = Write | View | Forbidden | PermissionError

  /** `roles` is the permission service at the time of the call; None is one of its errors. */
  function AuthorizeCollab(config: Config, token: string, documentId: string, kind: string, now: int,
                           roles: (string, string) -> Option<Role>): Access
  {
    var claims := VerifyForFile(config, token, documentId, now);
    if claims.None? || claims.value.kind != kind then Forbidden
    else
      var role := roles(claims.value.subject, documentId);
      if role.None? then PermissionError
      else if !CanView(role.value) then Forbidden
      else if CanEdit(role.value) then Write
      else View
  }

  /** The role shown to the editor's own page: read from the token without verifying it. */
  function RoleShown(config: Config, token: string, documentId: string): string {
    var parts := Split(token, '.');
    if |parts| != 3 then "view"
    else
      var payload := Base64.Decode(Base64.Url, parts[1]);
      if payload.None? then "view"
      else
        var claims := config.codec.unmarshal(payload.value);
        if claims.None? || claims.value.fileId != documentId || claims.value.role != "editor" then "view" else "write"
  }

  // ---- What any text must be to be accepted.

  /** Three parts, of which the last is the MAC of the first two under the secret. */
  predicate IsSigned(config: Config, token: string) {
    var parts := Split(token, '.');
    && |parts| == 3
    && Base64.Decode(Base64.Url, parts[2]) == Some(config.mac(config.secret, Ascii(parts[0] + "." + parts[1])))
  }

  /** The claims in the middle part of a token. */
  function ClaimsIn(config: Config, token: string): Option<Claims> {
    var parts := Split(token, '.');
    if |parts| != 3 then None
    else
      match Base64.Decode(Base64.Url, parts[1])
      case None => None
      case Some(payload) => config.codec.unmarshal(payload)
  }

  /** On any text: accepted with these claims exactly when it is signed and carries them, with a subject and a file. */
  lemma VerifiedExactlyWhen(config: Config, token: string, claims: Claims)
    ensures VerifyToken(config, token) == Some(claims) <==>
            && |config.secret| >= 16 && IsSigned(config, token) && ClaimsIn(config, token) == Some(claims)
            && claims.subject != "" && claims.fileId != ""
  {
  }

  /** A signed token of this file and kind that has not expired. */
  predicate Opens(config: Config, token: string, documentId: string, kind: string, now: int) {
    && |config.secret| >= 16 && IsSigned(config, token) && ClaimsIn(config, token).Some?
    && var claims := ClaimsIn(config, token).value;
       claims.subject != "" && documentId != "" && claims.fileId == documentId && claims.kind == kind
       && now < claims.expiresAt
  }

  /** On any text: access exactly for a token that opens the file, by its subject's role now; none without the MAC. */
  lemma AccessExactlyWhen(config: Config, token: string, documentId: string, kind: string, now: int,
                          roles: (string, string) -> Option<Role>)
    ensures AuthorizeCollab(config, token, documentId, kind, now, roles) ==
            if !Opens(config, token, documentId, kind, now) then Forbidden
            else
              match roles(ClaimsIn(config, token).value.subject, documentId)
              case None => PermissionError
              case Some(Owner) => Write
              case Some(Editor) => Write
              case Some(Viewer) => View
              case Some(NoRole) => Forbidden
  {
    var claims := VerifyToken(config, token);
    if claims.Some? { VerifiedExactlyWhen(config, token, claims.value); }
    if ClaimsIn(config, token).Some? { VerifiedExactlyWhen(config, token, ClaimsIn(config, token).value); }
  }

  /** The signed bytes tell texts apart, so the MAC is that of one text only. */
  lemma AsciiTellsApart(a: string, b: string)
    requires forall i :: 0 <= i < |a| ==> a[i] as int < 256
    requires forall i :: 0 <= i < |b| ==> b[i] as int < 256
    ensures Ascii(a) == Ascii(b) <==> a == b
  {
    if Ascii(a) == Ascii(b) {
      assert |Ascii(a)| == |a| && |Ascii(b)| == |b|;
      forall i | 0 <= i < |a| ensures a[i] == b[i] {
        assert Ascii(a)[i] as int == a[i] as int && Ascii(b)[i] as int == b[i] as int;
      }
    }
  }

  // ---- Round trips.

  /** The compact form splits into exactly its three parts, whatever the payload and the signature. */
  lemma CompactFormSplits(config: Config, claims: Claims)
    ensures var signing := SigningInput(config, claims);
            Split(Sign(config, claims), '.') ==
            [Base64.Encode(Base64.Url, Ascii(HEADER)), Base64.Encode(Base64.Url, config.codec.marshal(claims)),
             Base64.Encode(Base64.Url, config.mac(config.secret, Ascii(signing)))]
  {
    var signing := SigningInput(config, claims);
    var header := Base64.Encode(Base64.Url, Ascii(HEADER));
    var payload := Base64.Encode(Base64.Url, config.codec.marshal(claims));
    var signature := Base64.Encode(Base64.Url, config.mac(config.secret, Ascii(signing)));
    Base64.NeverEncoded(Base64.Url, Ascii(HEADER), '.');
    Base64.NeverEncoded(Base64.Url, config.codec.marshal(claims), '.');
    Base64.NeverEncoded(Base64.Url, config.mac(config.secret, Ascii(signing)), '.');
    ThreeParts(header, payload, signature);
  }

  lemma ThreeParts(header: string, payload: string, signature: string)
    requires '.' !in header && '.' !in payload && '.' !in signature
    ensures Split(header + "." + payload + "." + signature, '.') == [header, payload, signature]
  {
    assert header + "." + payload + "." + signature == header + ['.'] + (payload + ['.'] + signature);
    SplitFirst(header, '.', payload + ['.'] + signature);
    SplitFirst(payload, '.', signature);
    SplitWhole(signature, '.');
  }

  /** verifyJWT undoes signJWT exactly for long enough secrets and claims that name a subject and a file. */
  lemma TokenRoundTrip(config: Config, claims: Claims)
    requires config.codec.RoundTrips()
    ensures VerifyToken(config, Sign(config, claims)) ==
            if |config.secret| >= MIN_SECRET && claims.subject != "" && claims.fileId != "" then Some(claims) else None
  {
    CompactFormSplits(config, claims);
    Base64.RoundTrip(Base64.Url, config.mac(config.secret, Ascii(SigningInput(config, claims))));
    Base64.RoundTrip(Base64.Url, config.codec.marshal(claims));
    assert config.codec.unmarshal(config.codec.marshal(claims)) == Some(claims);
  }

  /** A token minted at `t` is good for its own file, before `t` + 900 s, and for nothing else. */
  lemma MintedTokenIsValidExactlyWhen(config: Config, user: string, displayName: string, fileId: string,
                                      role: string, kind: string, t: int, file: string, now: int)
    requires config.codec.RoundTrips() && |config.secret| >= MIN_SECRET
    ensures var token := Mint(config, user, displayName, fileId, role, kind, t).value;
            VerifyForFile(config, token, file, now).Some? <==>
            user != "" && fileId != "" && file == fileId && now < t + 900
  {
    var permissions := if role == "editor" then ["read", "write"] else ["read"];
    TokenRoundTrip(config, Claims(user, displayName, fileId, role, permissions, kind, t + TOKEN_SECONDS));
  }

  /** Access comes from the current role alone: the role written into the token plays no part. */
  lemma AccessIsCurrentRole(config: Config, user: string, displayName: string, fileId: string,
                            role: string, kind: string, t: int, file: string, wanted: string, now: int,
                            roles: (string, string) -> Option<Role>)
    requires config.codec.RoundTrips() && |config.secret| >= MIN_SECRET
    ensures var token := Mint(config, user, displayName, fileId, role, kind, t).value;
            AuthorizeCollab(config, token, file, wanted, now, roles) ==
            if user == "" || fileId == "" || file != fileId || now >= t + 900 || wanted != kind then Forbidden
            else
              match roles(user, fileId)
              case None => PermissionError
              case Some(NoRole) => Forbidden
              case Some(Viewer) => View
              case Some(_) => Write
  {
    var permissions := if role == "editor" then ["read", "write"] else ["read"];
    TokenRoundTrip(config, Claims(user, displayName, fileId, role, permissions, kind, t + TOKEN_SECONDS));
  }

  /** The page's role, on the other hand, is the minted one, for the token's own file only. */
  lemma ShownRoleIsMinted(config: Config, user: string, displayName: string, fileId: string,
                          role: string, kind: string, t: int, file: string)
    requires config.codec.RoundTrips() && |config.secret| >= MIN_SECRET
    ensures var token := Mint(config, user, displayName, fileId, role, kind, t).value;
            RoleShown(config, token, file) == if file == fileId && role == "editor" then "write" else "view"
  {
    var permissions := if role == "editor" then ["read", "write"] else ["read"];
    var claims := Claims(user, displayName, fileId, role, permissions, kind, t + TOKEN_SECONDS);
    CompactFormSplits(config, claims);
    Base64.RoundTrip(Base64.Url, config.codec.marshal(claims));
    assert config.codec.unmarshal(config.codec.marshal(claims)) == Some(claims);
  }
}
