/**
 * Signed identity headers of packages/tenant. The MAC is ideal: a signature is the term
 * Mac(secret, payload), so two signatures agree only for one secret and one payload.
 */
module Identity {
  import opened Text
  import opened TenantPath

  /** Header values by lower-case name; a header that is not sent is not a key. */
  type Headers = map<string, string>

  datatype Signature = NotSent | Mac(secret: string, payload: string) | Forged(text: string)

  datatype Request = Request(headers: Headers, ts: string, sig: Signature, sigV2: Signature)

  datatype AuthVia = NotVouched | Via(how: string)

  datatype Identity = Identity(userId: string, email: string, org: string, authVia: AuthVia)

  datatype Refusal = NoSecret | SignatureMissing | V2Missing | Mismatch | Expired

  const EMAIL := "x-appcrane-user-email"
  const USER_ID := "x-appcrane-user-id"
  const AUTH_VIA := "x-appcrane-auth-via"

  const SIGNED_HEADERS: seq<string> := [
    "x-appcrane-user", USER_ID, EMAIL, "x-appcrane-user-name",
    "x-appcrane-user-role", "x-appcrane-app-role", "x-appcrane-is-admin", "x-appcrane-app-roles"
  ]

  const SIGNED_HEADERS_V2: seq<string> := SIGNED_HEADERS + [AUTH_VIA]

  function Get(h: Headers, name: string): string {
    if name in h then h[name] else ""
  }

  function Lines(version: string, ts: string, names: seq<string>, h: Headers): seq<string> {
    [version, ts] + seq(|names|, i requires 0 <= i < |names| => names[i] + ":" + Get(h, names[i]))
  }

  function Version(v2: bool): string {
    if v2 then "appcrane-identity-v2" else "appcrane-identity-v1"
  }

  function Signed(v2: bool): seq<string> {
    if v2 then SIGNED_HEADERS_V2 else SIGNED_HEADERS
  }

  function Payload(v2: bool, ts: string, h: Headers): string {
    Join(Lines(Version(v2), ts, Signed(v2), h), '\n')
  }

  predicate AllDigits(ts: string) {
    ts != "" && forall i | 0 <= i < |ts| :: Digit(ts[i])
  }

  function Number(ts: string): nat
    requires forall i | 0 <= i < |ts| :: Digit(ts[i])
  {
    if ts == "" then 0
    else
      assert Digit(ts[|ts| - 1]);
      Number(ts[..|ts| - 1]) * 10 + (ts[|ts| - 1] - '0') as nat
  }

  /** String(n) of a whole number of seconds. */
  function Decimal(n: nat): (s: string)
    ensures AllDigits(s) && Number(s) == n
  {
    var digit := '0' + (n % 10) as char;
    var front := if n < 10 then "" else Decimal(n / 10);
    assert (front + [digit])[..|front|] == front;
    front + [digit]
  }

  function IdentityOf(v2: bool, h: Headers): Identity {
    var via := Get(h, AUTH_VIA);
    Identity(
      Digits(Get(h, USER_ID)), Get(h, EMAIL), OrgFromEmail(Get(h, EMAIL)),
      if !v2 then NotVouched else Via(if via == "" then "session" else via))
  }

  function VerifyIdentity(req: Request, secret: string, maxAgeSec: int, nowMs: int, requireV2: bool)
    : Result<Identity, Refusal>
  {
    var v2 := req.sigV2 != NotSent;
    if secret == "" then Err(NoSecret)
    else if (!v2 && req.sig == NotSent) || !AllDigits(req.ts) then Err(SignatureMissing)
    else if !v2 && requireV2 then Err(V2Missing)
    else if Mac(secret, Payload(v2, req.ts, req.headers)) != (if v2 then req.sigV2 else req.sig) then Err(Mismatch)
    else
      var age := nowMs / 1000 - Number(req.ts);
      if age > maxAgeSec || age < -60 then Err(Expired) else Ok(IdentityOf(v2, req.headers))
  }

  /** What /api/identity/verify sends: both signatures over one timestamp and one set of headers. */
  function Issue(secret: string, ts: nat, h: Headers): Request {
    var t := Decimal(ts);
    Request(h, t, Mac(secret, Payload(false, t, h)), Mac(secret, Payload(true, t, h)))
  }

  // ---- the payload is injective ---------------------------------------------------------------

  /** Field values hold no line break (section 5.5 of RFC 9110). */
  ghost predicate Clean(h: Headers) {
    forall name | name in h :: '\n' !in h[name]
  }

  ghost predicate SameSigned(v2: bool, h1: Headers, h2: Headers) {
    forall i | 0 <= i < |Signed(v2)| :: Get(h1, Signed(v2)[i]) == Get(h2, Signed(v2)[i])
  }

  lemma LinesAreClean(v2: bool, ts: string, h: Headers)
    requires Clean(h) && '\n' !in ts
    ensures forall i | 0 <= i < |Lines(Version(v2), ts, Signed(v2), h)| ::
              '\n' !in Lines(Version(v2), ts, Signed(v2), h)[i]
  {
    forall i | 0 <= i < |Signed(v2)| ensures '\n' !in Signed(v2)[i] {
      if i < 8 { assert Signed(v2)[i] == SIGNED_HEADERS[i]; }
    }
  }

  lemma SplitPayload(v2: bool, ts: string, h: Headers)
    requires Clean(h) && '\n' !in ts
    ensures Split(Payload(v2, ts, h), '\n') == Lines(Version(v2), ts, Signed(v2), h)
  {
    LinesAreClean(v2, ts, h);
    var lines := Lines(Version(v2), ts, Signed(v2), h);
    forall p | p in lines ensures '\n' !in p {
      var i :| 0 <= i < |lines| && lines[i] == p;
    }
    SplitJoin(lines, '\n');
  }

  /** The signed text: version, timestamp, and a line of name and value for every header it covers. */
  lemma PayloadText(v2: bool, ts: string, h: Headers)
    requires Clean(h) && '\n' !in ts
    ensures var lines := Split(Payload(v2, ts, h), '\n');
            && |lines| == (if v2 then 11 else 10)
            && lines[0] == (if v2 then "appcrane-identity-v2" else "appcrane-identity-v1") && lines[1] == ts
            && lines[2] == "x-appcrane-user" + ":" + Get(h, "x-appcrane-user")
            && lines[3] == "x-appcrane-user-id" + ":" + Get(h, "x-appcrane-user-id")
            && lines[4] == "x-appcrane-user-email" + ":" + Get(h, "x-appcrane-user-email")
            && lines[5] == "x-appcrane-user-name" + ":" + Get(h, "x-appcrane-user-name")
            && lines[6] == "x-appcrane-user-role" + ":" + Get(h, "x-appcrane-user-role")
            && lines[7] == "x-appcrane-app-role" + ":" + Get(h, "x-appcrane-app-role")
            && lines[8] == "x-appcrane-is-admin" + ":" + Get(h, "x-appcrane-is-admin")
            && lines[9] == "x-appcrane-app-roles" + ":" + Get(h, "x-appcrane-app-roles")
            && (v2 ==> lines[10] == "x-appcrane-auth-via" + ":" + Get(h, "x-appcrane-auth-via"))
  {
    SplitPayload(v2, ts, h);
  }

  /**
   * Two payloads are equal exactly when they are of one version, carry one timestamp and agree on
   * every signed header, an absent header counting as an empty one.
   */
  lemma PayloadInjective(v2: bool, ts: string, h: Headers, v2': bool, ts': string, h': Headers)
    requires Clean(h) && Clean(h') && '\n' !in ts && '\n' !in ts'
    ensures Payload(v2, ts, h) == Payload(v2', ts', h') <==> v2 == v2' && ts == ts' && SameSigned(v2, h, h')
  {
    var lines, lines' := Lines(Version(v2), ts, Signed(v2), h), Lines(Version(v2'), ts', Signed(v2'), h');
    SplitPayload(v2, ts, h);
    SplitPayload(v2', ts', h');
    if Payload(v2, ts, h) == Payload(v2', ts', h') {
      assert lines[0] == lines'[0] && lines[1] == lines'[1];
      assert "appcrane-identity-v1"[19] != "appcrane-identity-v2"[19];
      forall i | 0 <= i < |Signed(v2)| ensures Get(h, Signed(v2)[i]) == Get(h', Signed(v2)[i]) {
        var name := Signed(v2)[i] + ":";
        assert lines[i + 2] == lines'[i + 2];
        assert (name + Get(h, Signed(v2)[i]))[|name|..] == Get(h, Signed(v2)[i]);
        assert (name + Get(h', Signed(v2)[i]))[|name|..] == Get(h', Signed(v2)[i]);
      }
    }
    if v2 == v2' && ts == ts' && SameSigned(v2, h, h') {
      assert lines == lines';
    }
  }

  lemma SameSignedSameIdentity(v2: bool, h: Headers, h': Headers)
    requires SameSigned(v2, h, h')
    ensures IdentityOf(v2, h) == IdentityOf(v2, h')
  {
    assert Signed(v2)[1] == USER_ID && Signed(v2)[2] == EMAIL;
    assert v2 ==> Signed(v2)[8] == AUTH_VIA;
  }

  // ---- verification accepts exactly what was issued ------------------------------------------

  datatype Issuance = Issuance(ts: nat, headers: Headers)

  /** The secret only ever signed these issuances: any other signature on the request is made up. */
  ghost predicate OnlySigned(issued: set<Issuance>, secret: string, signature: Signature) {
    signature.Mac? && signature.secret == secret ==>
      exists i, v2 | i in issued :: signature.payload == Payload(v2, Decimal(i.ts), i.headers)
  }

  /** A request as issued passes within the age window, and gives back the identity signed. */
  lemma IssuedIsAccepted(secret: string, ts: nat, h: Headers, stripV2: bool, maxAgeSec: int, nowMs: int, requireV2: bool)
    requires secret != ""
    ensures var req := Issue(secret, ts, h);
            var sent := if stripV2 then req.(sigV2 := NotSent) else req;
            var age := nowMs / 1000 - ts;
            VerifyIdentity(sent, secret, maxAgeSec, nowMs, requireV2) ==
              if stripV2 && requireV2 then Err(V2Missing)
              else if -60 <= age <= maxAgeSec then Ok(IdentityOf(!stripV2, h))
              else Err(Expired)
  {
  }

  /** The verified identity in the signed headers' own terms; an absent or empty mark means a session. */
  ghost predicate Describes(identity: Identity, h: Headers, v2: bool) {
    && identity.userId == Digits(if USER_ID in h then h[USER_ID] else "")
    && identity.email == (if EMAIL in h then h[EMAIL] else "")
    && identity.org == OrgFromEmail(if EMAIL in h then h[EMAIL] else "")
    && identity.authVia == (if !v2 then NotVouched
                            else if AUTH_VIA in h && h[AUTH_VIA] != "" then Via(h[AUTH_VIA])
                            else Via("session"))
  }

  /** What an issued request tells the app, field by field, for any headers. */
  lemma IssuedTellsTheHeaders(
    secret: string, ts: nat, h: Headers, stripV2: bool, maxAgeSec: int, nowMs: int, requireV2: bool)
    requires secret != "" && -60 <= nowMs / 1000 - ts <= maxAgeSec && !(stripV2 && requireV2)
    ensures var req := Issue(secret, ts, h);
            var answer := VerifyIdentity(
              if stripV2 then req.(sigV2 := NotSent) else req, secret, maxAgeSec, nowMs, requireV2);
            answer.Ok? && Describes(answer.value, h, !stripV2)
  {
    IssuedIsAccepted(secret, ts, h, stripV2, maxAgeSec, nowMs, requireV2);
  }

  /** Whoever has no secret, sends no signature or no proper timestamp is refused, in this order. */
  lemma UnsignedIsRefused(req: Request, secret: string, maxAgeSec: int, nowMs: int, requireV2: bool)
    ensures var answer := VerifyIdentity(req, secret, maxAgeSec, nowMs, requireV2);
            var unsigned := (req.sig == NotSent && req.sigV2 == NotSent) || req.ts == ""
                            || exists i | 0 <= i < |req.ts| :: !('0' <= req.ts[i] <= '9');
            && (secret == "" <==> answer == Err(NoSecret))
            && (secret != "" && unsigned <==> answer == Err(SignatureMissing))
            && (secret != "" && !unsigned && req.sigV2 == NotSent && requireV2 <==> answer == Err(V2Missing))
            && (req.sigV2 != NotSent && req.sigV2 != Mac(secret, Payload(true, req.ts, req.headers)) ==> answer.Err?)
            && (req.sigV2 == NotSent && req.sig != Mac(secret, Payload(false, req.ts, req.headers)) ==> answer.Err?)
  {
  }

  /** The request repeats an issuance: same timestamp, same signed headers, inside the window. */
  ghost predicate Repeats(req: Request, v2: bool, i: Issuance, maxAgeSec: int, nowMs: int) {
    req.ts == Decimal(i.ts) && SameSigned(v2, req.headers, i.headers) && -60 <= nowMs / 1000 - i.ts <= maxAgeSec
  }

  lemma MatchingSignatureRepeats(i: Issuance, w: bool, req: Request, v2: bool, maxAgeSec: int, nowMs: int)
    requires Clean(req.headers) && Clean(i.headers) && AllDigits(req.ts)
    requires Payload(v2, req.ts, req.headers) == Payload(w, Decimal(i.ts), i.headers)
    requires -60 <= nowMs / 1000 - Number(req.ts) <= maxAgeSec
    ensures Repeats(req, v2, i, maxAgeSec, nowMs) && IdentityOf(v2, req.headers) == IdentityOf(v2, i.headers)
    ensures Describes(IdentityOf(v2, req.headers), i.headers, v2)
  {
    assert '\n' !in req.ts && '\n' !in Decimal(i.ts);
    PayloadInjective(v2, req.ts, req.headers, w, Decimal(i.ts), i.headers);
    SameSignedSameIdentity(v2, req.headers, i.headers);
    IdentityDescribes(v2, i.headers);
  }

  lemma IdentityDescribes(v2: bool, h: Headers)
    ensures Describes(IdentityOf(v2, h), h, v2)
  {
  }

  /**
   * An accepted request repeats one issuance and gives back the identity that was signed. A v1
   * signature never passes for a v2 one, so authVia is vouched for only by a v2 signature.
   */
  lemma AcceptedWasIssued(
    issued: set<Issuance>, req: Request, secret: string, maxAgeSec: int, nowMs: int, requireV2: bool)
    requires Clean(req.headers) && forall i | i in issued :: Clean(i.headers)
    requires OnlySigned(issued, secret, req.sig) && OnlySigned(issued, secret, req.sigV2)
    requires VerifyIdentity(req, secret, maxAgeSec, nowMs, requireV2).Ok?
    ensures var v2 := req.sigV2 != NotSent;
            var identity := VerifyIdentity(req, secret, maxAgeSec, nowMs, requireV2).value;
            && (exists i | i in issued ::
                  Repeats(req, v2, i, maxAgeSec, nowMs) && Describes(identity, i.headers, v2))
            && (identity.authVia != NotVouched <==> v2)
            && (requireV2 ==> v2)
  {
    var i := SignedByOneIssuance(issued, req, secret, maxAgeSec, nowMs, requireV2);
  }

  lemma SignedByOneIssuance(
    issued: set<Issuance>, req: Request, secret: string, maxAgeSec: int, nowMs: int, requireV2: bool)
    returns (i: Issuance)
    requires Clean(req.headers) && forall i | i in issued :: Clean(i.headers)
    requires OnlySigned(issued, secret, req.sig) && OnlySigned(issued, secret, req.sigV2)
    requires VerifyIdentity(req, secret, maxAgeSec, nowMs, requireV2).Ok?
    ensures var v2 := req.sigV2 != NotSent;
            var identity := VerifyIdentity(req, secret, maxAgeSec, nowMs, requireV2).value;
            && i in issued && Repeats(req, v2, i, maxAgeSec, nowMs) && Describes(identity, i.headers, v2)
            && (requireV2 ==> v2)
  {
    var v2 := req.sigV2 != NotSent;
    var payload := Payload(v2, req.ts, req.headers);
    assert (if v2 then req.sigV2 else req.sig) == Mac(secret, payload);
    var j, w :| j in issued && payload == Payload(w, Decimal(j.ts), j.headers);
    i := j;
    MatchingSignatureRepeats(i, w, req, v2, maxAgeSec, nowMs);
  }

  /** The headers an app may rely on with either signature, and the one only v2 covers. */
  predicate Protected(name: string, v2: bool) {
    || name in {"x-appcrane-user", "x-appcrane-user-id", "x-appcrane-user-email", "x-appcrane-user-name",
                "x-appcrane-user-role", "x-appcrane-app-role", "x-appcrane-is-admin", "x-appcrane-app-roles"}
    || (v2 && name == "x-appcrane-auth-via")
  }

  lemma ProtectedIsSigned(name: string, v2: bool) returns (i: nat)
    requires Protected(name, v2)
    ensures i < |Signed(v2)| && Signed(v2)[i] == name
  {
    i := if name == "x-appcrane-user" then 0
      else if name == "x-appcrane-user-id" then 1
      else if name == "x-appcrane-user-email" then 2
      else if name == "x-appcrane-user-name" then 3
      else if name == "x-appcrane-user-role" then 4
      else if name == "x-appcrane-app-role" then 5
      else if name == "x-appcrane-is-admin" then 6
      else if name == "x-appcrane-app-roles" then 7
      else 8;
  }

  lemma AlteredPayloadDiffers(ts: nat, h: Headers, altered: Headers, name: string, v2: bool)
    requires Clean(h) && Clean(altered) && Protected(name, v2) && Get(altered, name) != Get(h, name)
    ensures Payload(v2, Decimal(ts), altered) != Payload(v2, Decimal(ts), h)
  {
    var i := ProtectedIsSigned(name, v2);
    var t := Decimal(ts);
    assert '\n' !in t;
    PayloadInjective(v2, t, altered, v2, t, h);
    assert Get(altered, Signed(v2)[i]) != Get(h, Signed(v2)[i]);
  }

  lemma OtherPayloadIsRefused(req: Request, secret: string, v2: bool, payload: string, maxAgeSec: int, nowMs: int)
    requires secret != "" && AllDigits(req.ts) && (v2 <==> req.sigV2 != NotSent)
    requires (if v2 then req.sigV2 else req.sig) == Mac(secret, payload) && payload != Payload(v2, req.ts, req.headers)
    ensures VerifyIdentity(req, secret, maxAgeSec, nowMs, false) == Err(Mismatch)
  {
  }

  /** An issued request with any one of these headers altered, added or removed is refused. */
  lemma TamperingIsRefused(
    secret: string, ts: nat, h: Headers, altered: Headers, name: string, stripV2: bool, maxAgeSec: int, nowMs: int)
    requires secret != "" && Clean(h) && Clean(altered)
    requires Protected(name, !stripV2) && Get(altered, name) != Get(h, name)
    ensures var req := Issue(secret, ts, h).(headers := altered);
            VerifyIdentity(if stripV2 then req.(sigV2 := NotSent) else req, secret, maxAgeSec, nowMs, false) == Err(Mismatch)
  {
    var req := Issue(secret, ts, h).(headers := altered);
    AlteredPayloadDiffers(ts, h, altered, name, !stripV2);
    OtherPayloadIsRefused(
      if stripV2 then req.(sigV2 := NotSent) else req, secret, !stripV2, Payload(!stripV2, Decimal(ts), h), maxAgeSec, nowMs);
  }

  // ---- from the platform's caller to the tenant's directory ---------------------------------------

  /** The fields identityHeadersFor reads; `name` is already percent-encoded, `roles` joined. */
  datatype Caller = Caller(id: nat, email: string, name: string, role: string, appRole: string, roles: string)

  /** A field the user does not have is a header that is not sent. */
  function With(h: Headers, name: string, value: string): Headers {
    if value == "" then h else h[name := value]
  }

  function Who(c: Caller): Headers {
    With(With(With(map[], USER_ID, Decimal(c.id)), "x-appcrane-user", c.email), EMAIL, c.email)
  }

  function Rights(h: Headers, c: Caller): Headers {
    var named := With(With(h, "x-appcrane-user-name", c.name), "x-appcrane-user-role", c.role);
    var admin := if c.appRole in {"admin", "owner"} then "1" else "0";
    With(named["x-appcrane-app-role" := c.appRole]["x-appcrane-is-admin" := admin], "x-appcrane-app-roles", c.roles)
  }

  /** identityHeadersFor. */
  function HeadersFor(c: Caller): Headers {
    Rights(Who(c), c)
  }

  lemma DecimalIsDigits(n: nat)
    ensures Digits(Decimal(n)) == Decimal(n)
  {
    forall c | c in Decimal(n) ensures Digit(c) {
      var i :| 0 <= i < |Decimal(n)| && Decimal(n)[i] == c;
    }
    FilterKeepsAll(Decimal(n), Digit);
  }

  /** No two of the names are the same: they differ in length or at one place. */
  lemma NamesDiffer()
    ensures EMAIL !in {USER_ID, "x-appcrane-user", "x-appcrane-user-name", "x-appcrane-user-role",
                       "x-appcrane-app-role", "x-appcrane-is-admin", "x-appcrane-app-roles"}
    ensures USER_ID !in {"x-appcrane-user", "x-appcrane-user-name", "x-appcrane-user-role",
                         "x-appcrane-app-role", "x-appcrane-is-admin", "x-appcrane-app-roles"}
    ensures AUTH_VIA !in {"x-appcrane-user", USER_ID, EMAIL, "x-appcrane-user-name", "x-appcrane-user-role",
                          "x-appcrane-app-role", "x-appcrane-is-admin", "x-appcrane-app-roles"}
  {
    assert |USER_ID| == 18 && |EMAIL| == 21 && |AUTH_VIA| == 19;
    assert AUTH_VIA[12] == 'u' && "x-appcrane-app-role"[12] == 'p' && "x-appcrane-is-admin"[12] == 's';
  }

  lemma RightsKeep(h: Headers, c: Caller, name: string)
    requires name !in {"x-appcrane-user-name", "x-appcrane-user-role", "x-appcrane-app-role", "x-appcrane-is-admin",
                       "x-appcrane-app-roles"}
    ensures Get(Rights(h, c), name) == Get(h, name)
  {
  }

  lemma HeadersNameTheCaller(c: Caller)
    ensures Get(HeadersFor(c), USER_ID) == Decimal(c.id) && Get(HeadersFor(c), EMAIL) == c.email
    ensures Get(HeadersFor(c), AUTH_VIA) == ""
  {
    NamesDiffer();
    RightsKeep(Who(c), c, USER_ID);
    RightsKeep(Who(c), c, EMAIL);
    RightsKeep(Who(c), c, AUTH_VIA);
  }

  /** The names of the rights differ from each other. */
  lemma RightsDiffer()
    ensures "x-appcrane-user-name" !in {"x-appcrane-user-role", "x-appcrane-app-role", "x-appcrane-is-admin", "x-appcrane-app-roles"}
    ensures "x-appcrane-user-role" !in {"x-appcrane-app-role", "x-appcrane-is-admin", "x-appcrane-app-roles"}
    ensures "x-appcrane-app-role" !in {"x-appcrane-is-admin", "x-appcrane-app-roles"}
    ensures "x-appcrane-is-admin" != "x-appcrane-app-roles"
    ensures "x-appcrane-user" !in {"x-appcrane-user-name", "x-appcrane-user-role", "x-appcrane-app-role", "x-appcrane-is-admin",
                                   "x-appcrane-app-roles"}
  {
    assert |"x-appcrane-user"| == 15 && |"x-appcrane-user-name"| == |"x-appcrane-user-role"| == |"x-appcrane-app-roles"| == 20;
    assert |"x-appcrane-app-role"| == |"x-appcrane-is-admin"| == 19;
    assert "x-appcrane-user-name"[16] == 'n' && "x-appcrane-user-role"[16] == 'r' && "x-appcrane-app-roles"[16] == 'o';
    assert "x-appcrane-app-role"[11] == 'a' && "x-appcrane-is-admin"[11] == 'i';
  }

  /** Every right the app is told, from the caller's own fields. */
  lemma HeadersTellTheRights(c: Caller)
    ensures var h := HeadersFor(c);
            && Get(h, "x-appcrane-user") == c.email
            && Get(h, "x-appcrane-user-name") == c.name && Get(h, "x-appcrane-user-role") == c.role
            && Get(h, "x-appcrane-app-role") == c.appRole && Get(h, "x-appcrane-app-roles") == c.roles
            && Get(h, "x-appcrane-is-admin") == (if c.appRole == "admin" || c.appRole == "owner" then "1" else "0")
  {
    NamesDiffer();
    RightsDiffer();
    RightsTold(Who(c), c);
    RightsKeep(Who(c), c, "x-appcrane-user");
  }

  lemma RightsTold(h: Headers, c: Caller)
    requires forall name | name in h :: name in {USER_ID, "x-appcrane-user", EMAIL}
    ensures var r := Rights(h, c);
            && Get(r, "x-appcrane-user-name") == c.name && Get(r, "x-appcrane-user-role") == c.role
            && Get(r, "x-appcrane-app-role") == c.appRole && Get(r, "x-appcrane-app-roles") == c.roles
            && Get(r, "x-appcrane-is-admin") == (if c.appRole == "admin" || c.appRole == "owner" then "1" else "0")
  {
    NamesDiffer();
    RightsDiffer();
    assert forall name | name in {"x-appcrane-user-name", "x-appcrane-user-role", "x-appcrane-app-roles"} :: Get(h, name) == "";
  }

  /** The app sees the very caller the platform authenticated: id, email, organisation, a session. */
  lemma CallerIsIdentified(c: Caller, secret: string, ts: nat, maxAgeSec: int, nowMs: int, requireV2: bool)
    requires secret != "" && -60 <= nowMs / 1000 - ts <= maxAgeSec
    ensures VerifyIdentity(Issue(secret, ts, HeadersFor(c)), secret, maxAgeSec, nowMs, requireV2)
         == Ok(Identity(Decimal(c.id), c.email, OrgFromEmail(c.email), Via("session")))
  {
    IssuedIsAccepted(secret, ts, HeadersFor(c), false, maxAgeSec, nowMs, requireV2);
    HeadersNameTheCaller(c);
    DecimalIsDigits(c.id);
  }

  function DirOf(root: string, c: Caller): string {
    TenantDir(root, OrgFromEmail(c.email), Decimal(c.id))
  }

  /**
   * Two platform users never share or nest their directories, whatever their emails are; and the
   * directory a revoke purges is the user's own.
   */
  lemma UsersAreKeptApart(root: string, a: Caller, b: Caller)
    ensures a.id != b.id ==> !(Segments(DirOf(root, a)) <= Segments(DirOf(root, b)))
    ensures TenantDirRel(OrgFromEmail(a.email), Decimal(a.id)) == DirOf("tenants", a)
  {
    DecimalIsDigits(a.id);
    DecimalIsDigits(b.id);
    assert Decimal(a.id) == Decimal(b.id) ==> a.id == Number(Decimal(a.id)) == Number(Decimal(b.id)) == b.id;
    TenantsAreDisjoint(root, a.email, Decimal(a.id), b.email, Decimal(b.id));
    PurgeHitsTheTenant(a.email, Decimal(a.id));
  }
}
