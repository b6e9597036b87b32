/**
 * One-time sign-in handoff (server/routes/appHandoff.js): the platform host turns a platform
 * session into a code, an app host turns the code into a session for that app and environment.
 * Random values and hashes are opaque identities: a value is the same as its hash.
 */
module Handoff {
  import opened Text

  type User = nat
  type AppId = nat
  type Secret = nat

  datatype Env = Production | Sandbox

  datatype Site = Site(app: AppId, env: Env)

  const HANDOFF_CODE_TTL_SECONDS := 60

  // ---- hosts ----------------------------------------------------------------------------------------

  const SANDBOX_SUFFIX := "-sandbox"

  predicate EndsWith(s: string, suffix: string) {
    |suffix| <= |s| && s[|s| - |suffix|..] == suffix
  }

  function AppHost(base: string, slug: string, env: Env): string {
    (if env == Sandbox then slug + SANDBOX_SUFFIX else slug) + "." + base
  }

  /** parseAppHost, for a host already stripped of port, case and trailing dot. */
  function ParseAppHost(base: Option<string>, host: string): Option<(string, Env)> {
    if base == None || !EndsWith(host, "." + base.value) then None
    else
      var first := host[..|host| - |base.value| - 1];
      if first == "" || '.' in first then None
      else if EndsWith(first, SANDBOX_SUFFIX) then Some((first[..|first| - |SANDBOX_SUFFIX|], Sandbox))
      else Some((first, Production))
  }

  datatype Hosts = Hosts(platform: string, base: Option<string>, apps: map<string, AppId>, customDomains: map<string, AppId>)

  function ResolveAppHost(h: Hosts, host: string): Option<Site> {
    if host == "" || host == h.platform then None
    else
      match ParseAppHost(h.base, host)
      case Some(parsed) => if parsed.0 in h.apps then Some(Site(h.apps[parsed.0], parsed.1)) else None
      case None => if host in h.customDomains then Some(Site(h.customDomains[host], Production)) else None
  }

  lemma LabelOfHost(first: string, base: string)
    ensures EndsWith(first + "." + base, "." + base)
    ensures (first + "." + base)[..|first + "." + base| - |base| - 1] == first
  {
    assert first + "." + base == first + ("." + base);
  }

  /**
   * A code is sent to the host of the very app and environment it was issued for, for exactly the
   * slugs the slug policy allows.
   */
  lemma CodesGoToTheirOwnHost(h: Hosts, base: string, slug: string, env: Env)
    requires h.base == Some(base) && slug in h.apps && slug != "" && '.' !in slug
    requires AppHost(base, slug, env) != h.platform
    ensures ParseAppHost(h.base, AppHost(base, slug, env)) == Some((slug, env))
       <==> env == Sandbox || !EndsWith(slug, SANDBOX_SUFFIX)
    ensures AppHost(base, slug, Production) == slug + "." + base && AppHost(base, slug, Sandbox) == slug + "-sandbox" + "." + base
    ensures env == Sandbox || !EndsWith(slug, SANDBOX_SUFFIX) ==>
      ResolveAppHost(h, AppHost(base, slug, env)) == Some(Site(h.apps[slug], env))
  {
    var first := if env == Sandbox then slug + SANDBOX_SUFFIX else slug;
    LabelOfHost(first, base);
    if env == Sandbox {
      assert first[|slug|..] == SANDBOX_SUFFIX && first[..|slug|] == slug;
      assert '.' !in SANDBOX_SUFFIX;
    }
  }

  /**
   * Exactly which hosts are app hosts: the own host of a known app and environment, and a custom
   * domain that is no host of the isolation domain, in production. The platform host never is one.
   */
  lemma HostsResolveIff(h: Hosts, host: string, site: Site)
    ensures ResolveAppHost(h, host) == Some(site) <==>
      && host != "" && host != h.platform
      && ((exists slug: string | slug in h.apps ::
             OwnHost(h, host, slug, site.env) && h.apps[slug] == site.app)
          || (!UnderBase(h, host) && host in h.customDomains && site == Site(h.customDomains[host], Production)))
  {
    var parsed := ParseAppHost(h.base, host);
    if parsed != None {
      OneSlugAHost(h, host, parsed.value.0, parsed.value.1);
    }
    forall slug: string, env | OwnHost(h, host, slug, env) ensures parsed == Some((slug, env)) {
      OwnHostParses(h, host, slug, env);
    }
  }

  /** One label in front of the isolation domain. */
  ghost predicate UnderBase(h: Hosts, host: string) {
    h.base != None && exists first: string :: first != "" && '.' !in first && host == first + "." + h.base.value
  }

  /** The host AppHost gives an app, for the environment its label names. */
  ghost predicate OwnHost(h: Hosts, host: string, slug: string, env: Env) {
    && h.base != None && host == AppHost(h.base.value, slug, env)
    && '.' !in slug && (env == Production ==> slug != "" && !EndsWith(slug, SANDBOX_SUFFIX))
  }

  lemma OwnHostParses(h: Hosts, host: string, slug: string, env: Env)
    requires OwnHost(h, host, slug, env)
    ensures ParseAppHost(h.base, host) == Some((slug, env)) && UnderBase(h, host)
  {
    var first := if env == Sandbox then slug + SANDBOX_SUFFIX else slug;
    LabelOfHost(first, h.base.value);
    if env == Sandbox {
      assert first[|slug|..] == SANDBOX_SUFFIX && first[..|slug|] == slug;
      assert '.' !in SANDBOX_SUFFIX;
    }
  }

  lemma OneSlugAHost(h: Hosts, host: string, slug: string, env: Env)
    requires ParseAppHost(h.base, host) == Some((slug, env))
    ensures OwnHost(h, host, slug, env) && UnderBase(h, host)
  {
    var suffix := "." + h.base.value;
    var first := host[..|host| - |h.base.value| - 1];
    assert host == first + suffix && first + suffix == first + "." + h.base.value;
    if env == Sandbox {
      assert first == slug + SANDBOX_SUFFIX;
      forall i | 0 <= i < |slug| ensures slug[i] != '.' { assert slug[i] == first[i] && first[i] in first; }
    }
  }

  // ---- codes and sessions -----------------------------------------------------------------------------

  datatype Code = Code(user: User, site: Site, parent: Secret, state: Secret, expiresAt: int, used: bool)

  datatype Scope = Platform | App(site: Site)

  datatype Session = Session(user: User, scope: Scope, expiresAt: int)

  /**
   * How an app session came about: which code, where and when it was presented, by what cookie, and
   * under which platform session, as that one was then.
   */
  datatype Origin = Origin(code: Secret, site: Site, at: int, cookie: Secret, parentToken: Secret, parent: Session)

  /** The tables, and a history that the purges do not touch. */
  datatype State = State(
    now: int, codes: map<Secret, Code>, sessions: map<Secret, Session>, active: set<User>,
    issued: map<Secret, Code>, spent: set<Secret>, origins: map<Secret, Origin>)

  datatype Event =
    | Issue(token: Secret, site: Site, mayEnter: bool, state: Secret, code: Secret)
    | Present(host: Option<Site>, code: Secret, cookie: Option<Secret>, token: Secret, stored: int)
    | Logout(host: Option<Site>, token: Secret)
    | SignIn(token: Secret, user: User, expiresAt: int)
    | EndSession(token: Secret) // sign-out, expiry sweep, or a later policy
    | Renew(token: Secret, expiresAt: int)
    | SetActive(user: User, active: bool)
    | Tick(seconds: nat)

  predicate LivePlatform(s: State, token: Secret) {
    token in s.sessions && s.sessions[token].scope == Platform && s.sessions[token].expiresAt > s.now
    && s.sessions[token].user in s.active
  }

  predicate LiveCode(s: State, code: Secret) {
    code in s.codes && !s.codes[code].used && s.codes[code].expiresAt > s.now
  }

  predicate MayIssue(s: State, e: Event)
    requires e.Issue?
  {
    LivePlatform(s, e.token) && e.mayEnter && e.code !in s.issued
  }

  /** Whether presenting the code ends in a session. */
  predicate Accepted(s: State, e: Event)
    requires e.Present?
  {
    && e.host != None && LiveCode(s, e.code)
    && s.codes[e.code].site == e.host.value
    && e.cookie == Some(s.codes[e.code].state)
    && LivePlatform(s, s.codes[e.code].parent)
    && s.sessions[s.codes[e.code].parent].user == s.codes[e.code].user
  }

  predicate FreshToken(s: State, token: Secret) {
    token !in s.sessions && token !in s.origins
  }

  function OriginOf(s: State, e: Event): Origin
    requires e.Present? && Accepted(s, e)
  {
    var row := s.codes[e.code];
    Origin(e.code, e.host.value, s.now, e.cookie.value, row.parent, s.sessions[row.parent])
  }

  function Min(a: int, b: int): int {
    if a < b then a else b
  }

  function NotExpired(codes: map<Secret, Code>, now: int): map<Secret, Code> {
    map c | c in codes && codes[c].expiresAt >= now :: codes[c]
  }

  function Spend(s: State, code: Secret): State
    requires code in s.codes
  {
    s.(codes := s.codes[code := s.codes[code].(used := true)], spent := s.spent + {code})
  }

  /** `stored` is the expiry the session policy's trigger left on the inserted row, whatever it is. */
  function Next(s: State, e: Event): State {
    match e
    case Issue(token, site, _, state, code) =>
      if !MayIssue(s, e) then s
      else
        var row := Code(s.sessions[token].user, site, token, state, s.now + HANDOFF_CODE_TTL_SECONDS, false);
        s.(codes := NotExpired(s.codes, s.now)[code := row], issued := s.issued[code := row])
    case Present(host, code, cookie, token, stored) =>
      if host == None || !LiveCode(s, code) then s
      else
        var spent := Spend(s, code);
        if !Accepted(s, e) || !FreshToken(s, token) then spent
        else
          var parent := s.sessions[s.codes[code].parent];
          spent.(
            sessions := s.sessions[token := Session(parent.user, App(host.value), Min(stored, parent.expiresAt))],
            origins := s.origins[token := OriginOf(s, e)])
    case Logout(host, token) =>
      if host != None && token in s.sessions && s.sessions[token].scope == App(host.value)
      then s.(sessions := s.sessions - {token})
      else s
    case SignIn(token, user, expiresAt) =>
      if FreshToken(s, token) then s.(sessions := s.sessions[token := Session(user, Platform, expiresAt)]) else s
    case EndSession(token) => s.(sessions := s.sessions - {token})
    case Renew(token, expiresAt) =>
      if token in s.sessions && s.sessions[token].scope == Platform
      then s.(sessions := s.sessions[token := s.sessions[token].(expiresAt := expiresAt)])
      else s
    case SetActive(user, active) => s.(active := if active then s.active + {user} else s.active - {user})
    case Tick(seconds) => s.(now := s.now + seconds)
  }

  function Run(s: State, es: seq<Event>): State {
    if es == [] then s else Next(Run(s, es[..|es| - 1]), es[|es| - 1])
  }

  // ---- what one step does, in plain conditions ---------------------------------------------------------------

  /** A code is issued to a signed-in active user who may enter the app, and to nobody else. */
  lemma IssueNeedsAccess(s: State, token: Secret, site: Site, mayEnter: bool, state: Secret, code: Secret)
    requires code !in s.issued
    ensures var t := Next(s, Issue(token, site, mayEnter, state, code));
            var entitled := mayEnter && SignedIn(s, token);
            && (!entitled ==> t == s)
            && (entitled ==>
                  && code in t.codes && code in t.issued && t.codes[code] == t.issued[code]
                  && t.codes[code] == Code(s.sessions[token].user, site, token, state, s.now + 60, false)
                  && (forall c | c in t.codes && c != code :: c in s.codes && t.codes[c] == s.codes[c] && s.codes[c].expiresAt >= s.now)
                  && (forall c | c in s.codes && c != code && s.codes[c].expiresAt >= s.now :: c in t.codes)
                  && t == s.(codes := t.codes, issued := s.issued[code := t.codes[code]]))
  {
  }

  /** The token's session is a platform session, not yet over, of a user who is active. */
  ghost predicate SignedIn(s: State, token: Secret) {
    && token in s.sessions && s.sessions[token].scope == Platform
    && s.sessions[token].expiresAt > s.now && s.sessions[token].user in s.active
  }

  /** Presenting a code opens a session if and only if all of this holds, and then exactly this one. */
  lemma PresentOpensIff(s: State, host: Option<Site>, code: Secret, cookie: Option<Secret>, token: Secret, stored: int)
    requires FreshToken(s, token)
    ensures var t := Next(s, Present(host, code, cookie, token, stored));
            && (token in t.sessions <==>
                  && host != None && code in s.codes && !s.codes[code].used && s.codes[code].expiresAt > s.now
                  && s.codes[code].site == host.value && cookie == Some(s.codes[code].state)
                  && SignedIn(s, s.codes[code].parent)
                  && s.sessions[s.codes[code].parent].user == s.codes[code].user)
            && (token in t.sessions ==>
                  && t.sessions[token].user == s.codes[code].user && t.sessions[token].scope == App(s.codes[code].site)
                  && t.sessions[token].expiresAt <= stored
                  && t.sessions[token].expiresAt <= s.sessions[s.codes[code].parent].expiresAt
                  && t.sessions[token].expiresAt in {stored, s.sessions[s.codes[code].parent].expiresAt})
            && t.sessions - {token} == s.sessions
  {
  }

  /** Logging out ends the token's session if it is one of this very app and environment, and no other. */
  lemma LogoutEndsIff(s: State, host: Option<Site>, token: Secret)
    ensures var t := Next(s, Logout(host, token));
            && (forall k | k in s.sessions ::
                  k in t.sessions <==> !(k == token && host != None && s.sessions[k].scope == App(host.value)))
            && (forall k | k in t.sessions :: k in s.sessions && t.sessions[k] == s.sessions[k])
            && t == s.(sessions := t.sessions)
  {
  }

  // ---- safety over all runs ------------------------------------------------------------------------------

  /**
   * An origin matches the code as it was issued: presented in time, on its own host, by its own
   * browser, while the very session it was issued under lived.
   */
  ghost predicate Justified(o: Origin, row: Code) {
    && o.site == row.site && o.cookie == row.state
    && row.expiresAt - HANDOFF_CODE_TTL_SECONDS <= o.at < row.expiresAt
    && o.parentToken == row.parent && o.parent.scope == Platform && o.parent.user == row.user
    && o.at < o.parent.expiresAt
  }

  ghost predicate Inv(s: State) {
    && (forall c | c in s.codes :: c in s.issued && s.codes[c] == s.issued[c].(used := s.codes[c].used))
    && (forall c | c in s.issued :: s.issued[c].expiresAt <= s.now + HANDOFF_CODE_TTL_SECONDS)
    && (forall c | c in s.spent :: c in s.issued && (c in s.codes ==> s.codes[c].used))
    && (forall t | t in s.origins ::
          s.origins[t].code in s.spent && s.origins[t].at <= s.now
          && Justified(s.origins[t], s.issued[s.origins[t].code]))
    && (forall t, u | t in s.origins && u in s.origins && t != u :: s.origins[t].code != s.origins[u].code)
    && (forall t | t in s.sessions && s.sessions[t].scope.App? ::
          t in s.origins && FromCode(s.sessions[t], s.origins[t], s.issued))
  }

  /** The session belongs to the code's user, app and environment, and ends by the parent's deadline. */
  ghost predicate FromCode(session: Session, o: Origin, issued: map<Secret, Code>) {
    && o.code in issued
    && session.user == issued[o.code].user
    && session.scope == App(issued[o.code].site)
    && session.expiresAt <= o.parent.expiresAt
  }

  lemma StepKeepsInv(s: State, e: Event)
    requires Inv(s)
    ensures Inv(Next(s, e))
    ensures s.spent <= Next(s, e).spent
  {
    match e
    case Issue(_, _, _, _, code) => IssueKeepsInv(s, e);
    case Present(_, _, _, _, _) => PresentKeepsInv(s, e);
    case Logout(_, _) =>
    case SignIn(_, _, _) =>
    case EndSession(_) =>
    case Renew(_, _) =>
    case SetActive(_, _) =>
    case Tick(_) =>
  }

  lemma IssueKeepsInv(s: State, e: Event)
    requires Inv(s) && e.Issue?
    ensures Inv(Next(s, e))
  {
  }

  lemma SpendKeepsInv(s: State, code: Secret)
    requires Inv(s) && LiveCode(s, code)
    ensures Inv(Spend(s, code)) && forall o | o in s.origins :: s.origins[o].code != code
  {
    assert code !in s.spent;
  }

  lemma SessionKeepsInv(s: State, token: Secret, session: Session, o: Origin)
    requires Inv(s) && FreshToken(s, token) && o.code in s.spent && o.at <= s.now
    requires forall t | t in s.origins :: s.origins[t].code != o.code
    requires Justified(o, s.issued[o.code]) && FromCode(session, o, s.issued)
    ensures Inv(s.(sessions := s.sessions[token := session], origins := s.origins[token := o]))
  {
  }

  lemma PresentKeepsInv(s: State, e: Event)
    requires Inv(s) && e.Present?
    ensures Inv(Next(s, e))
  {
    if e.host != None && LiveCode(s, e.code) {
      SpendKeepsInv(s, e.code);
      if Accepted(s, e) && FreshToken(s, e.token) {
        var parent := s.sessions[s.codes[e.code].parent];
        SessionKeepsInv(
          Spend(s, e.code), e.token, Session(parent.user, App(e.host.value), Min(e.stored, parent.expiresAt)),
          OriginOf(s, e));
      }
    }
  }

  ghost predicate Start(s: State) {
    s.codes == map[] && s.issued == map[] && s.spent == {} && s.origins == map[]
    && forall t | t in s.sessions :: s.sessions[t].scope == Platform
  }

  /**
   * Over every run, each app session comes from a code of its own, issued to the same user for the
   * same app and environment, presented there in time by the browser holding the state cookie while
   * the parent session was live, and it ends no later than the parent then did.
   */
  lemma {:induction false} SessionsComeFromCodes(s: State, es: seq<Event>)
    requires Start(s)
    ensures Inv(Run(s, es))
  {
    if es != [] {
      SessionsComeFromCodes(s, es[..|es| - 1]);
      StepKeepsInv(Run(s, es[..|es| - 1]), es[|es| - 1]);
    }
  }

  /** In this state this event opened the session: every check passed, under this parent session. */
  ghost predicate OpenedAt(s: State, e: Event, token: Secret, o: Origin) {
    e.Present? && e.token == token && Accepted(s, e) && o == OriginOf(s, e)
  }

  lemma {:induction false} OriginsWereOpened(s: State, es: seq<Event>, token: Secret) returns (i: nat)
    requires s.origins == map[] && token in Run(s, es).origins
    ensures i < |es| && OpenedAt(Run(s, es[..i]), es[i], token, Run(s, es).origins[token])
  {
    var front := es[..|es| - 1];
    i := |es| - 1;
    if token in Run(s, front).origins {
      OriginsStay(Run(s, front), es[|es| - 1], token);
      i := OriginsWereOpened(s, front, token);
      assert front[..i] == es[..i];
    }
  }

  lemma OriginsStay(s: State, e: Event, token: Secret)
    requires token in s.origins
    ensures token in Next(s, e).origins && Next(s, e).origins[token] == s.origins[token]
  {
  }

  /**
   * Every app session that exists after a run was opened at one moment of it by an accepted
   * presentation: for the code's user and site, while the parent session that issued the code was
   * in the table and alive, and with a deadline no later than that session's at that moment.
   */
  lemma EverySessionWasOpened(s: State, es: seq<Event>, token: Secret) returns (i: nat)
    requires Start(s) && token in Run(s, es).sessions && Run(s, es).sessions[token].scope.App?
    ensures i < |es| && es[i].Present? && es[i].token == token && Accepted(Run(s, es[..i]), es[i])
    ensures var before := Run(s, es[..i]);
            var session, row := Run(s, es).sessions[token], before.codes[es[i].code];
            && session.user == row.user && session.scope == App(row.site)
            && LivePlatform(before, row.parent) && session.expiresAt <= before.sessions[row.parent].expiresAt
  {
    SessionsComeFromCodes(s, es);
    i := OriginsWereOpened(s, es, token);
    SessionsComeFromCodes(s, es[..i]);
    IssuedIsKept(Run(s, es[..i]), es[i..], es[i].code);
    RunConcat(s, es[..i], es[i..]);
    assert es[..i] + es[i..] == es;
  }

  /** In this state this event issued the code: to an active signed-in user who may enter the app. */
  ghost predicate IssuedAt(s: State, e: Event, code: Secret, row: Code) {
    && e.Issue? && e.code == code && e.mayEnter && SignedIn(s, e.token)
    && row == Code(s.sessions[e.token].user, e.site, e.token, e.state, s.now + 60, false)
  }

  lemma {:induction false} CodesWereIssued(s: State, es: seq<Event>, code: Secret) returns (i: nat)
    requires s.issued == map[] && code in Run(s, es).issued
    ensures i < |es| && IssuedAt(Run(s, es[..i]), es[i], code, Run(s, es).issued[code])
  {
    var front := es[..|es| - 1];
    i := |es| - 1;
    if code in Run(s, front).issued {
      IssuedIsKept(Run(s, front), [es[|es| - 1]], code);
      assert [es[|es| - 1]][..0] == [];
      i := CodesWereIssued(s, front, code);
      assert front[..i] == es[..i];
    }
  }

  /**
   * And its code was issued earlier in the run, to the same user for the same app and environment,
   * who was entitled to enter it, active, and signed in with the session named as parent.
   */
  lemma EverySessionWasEntitled(s: State, es: seq<Event>, token: Secret) returns (i: nat, j: nat)
    requires Start(s) && token in Run(s, es).sessions && Run(s, es).sessions[token].scope.App?
    ensures i < j < |es| && es[i].Issue? && es[j].Present? && es[i].code == es[j].code && es[i].mayEnter
    ensures var issuing, session := Run(s, es[..i]), Run(s, es).sessions[token];
            && SignedIn(issuing, es[i].token) && issuing.sessions[es[i].token].user == session.user
            && session.scope == App(es[i].site)
    ensures var opening, session := Run(s, es[..j]), Run(s, es).sessions[token];
            && SignedIn(opening, es[i].token) && opening.sessions[es[i].token].user == session.user
            && session.expiresAt <= opening.sessions[es[i].token].expiresAt
            && es[j].host == Some(es[i].site) && es[j].cookie == Some(es[i].state)
            && Run(s, es[..i]).now <= opening.now < Run(s, es[..i]).now + 60
  {
    j := EverySessionWasOpened(s, es, token);
    var before, code := Run(s, es[..j]), es[j].code;
    SessionsComeFromCodes(s, es[..j]);
    assert code in before.issued && before.codes[code] == before.issued[code].(used := false);
    i := CodesWereIssued(s, es[..j], code);
    assert es[..j][..i] == es[..i];
    RunConcat(s, es[..i], es[..j][i..]);
    assert es[..i] + es[..j][i..] == es[..j];
    ClockRuns(Run(s, es[..i]), es[..j][i..]);
  }

  lemma {:induction false} ClockRuns(s: State, es: seq<Event>)
    ensures s.now <= Run(s, es).now
  {
    if es != [] { ClockRuns(s, es[..|es| - 1]); }
  }

  lemma {:induction false} RunConcat(s: State, a: seq<Event>, b: seq<Event>)
    ensures Run(s, a + b) == Run(Run(s, a), b)
  {
    if b == [] {
      assert a + b == a;
    } else {
      assert (a + b)[..|a + b| - 1] == a + b[..|b| - 1];
      RunConcat(s, a, b[..|b| - 1]);
    }
  }

  lemma {:induction false} IssuedIsKept(s: State, es: seq<Event>, code: Secret)
    requires code in s.issued
    ensures code in Run(s, es).issued && Run(s, es).issued[code] == s.issued[code]
  {
    if es != [] { IssuedIsKept(s, es[..|es| - 1], code); }
  }

  /**
   * A live code shown on any recognised app host is spent: however the run goes on, purges
   * included, it is never accepted again, there or elsewhere.
   */
  lemma SpentForGood(s: State, e: Event, es: seq<Event>, again: Event)
    requires Inv(s) && e.Present? && e.host != None && LiveCode(s, e.code)
    requires again.Present? && again.code == e.code
    ensures var t := Run(Next(s, e), es);
            Inv(t) && e.code in t.spent && !Accepted(t, again) && Next(t, again) == t
  {
    StepKeepsInv(s, e);
    RunKeepsSpent(Next(s, e), es);
  }

  lemma {:induction false} RunKeepsSpent(s: State, es: seq<Event>)
    requires Inv(s)
    ensures Inv(Run(s, es)) && s.spent <= Run(s, es).spent
  {
    if es != [] {
      RunKeepsSpent(s, es[..|es| - 1]);
      StepKeepsInv(Run(s, es[..|es| - 1]), es[|es| - 1]);
    }
  }

  /**
   * Logging out on an app's host ends that session only, and for good: its token never comes back,
   * and the code behind it opens nothing more.
   */
  lemma LoggedOutForGood(s: State, site: Site, token: Secret, es: seq<Event>, again: Event)
    requires Inv(s) && token in s.sessions && s.sessions[token].scope == App(site)
    requires again.Present? && again.code == s.origins[token].code
    ensures var out := Next(s, Logout(Some(site), token));
            && out == s.(sessions := s.sessions - {token})
            && token !in Run(out, es).sessions
            && Inv(Run(out, es)) && !Accepted(Run(out, es), again)
  {
    var out := Next(s, Logout(Some(site), token));
    StepKeepsInv(s, Logout(Some(site), token));
    RunKeepsSpent(out, es);
    StaysOut(out, token, es);
  }

  lemma {:induction false} StaysOut(s: State, token: Secret, es: seq<Event>)
    requires token in s.origins && token !in s.sessions
    ensures token in Run(s, es).origins && token !in Run(s, es).sessions
  {
    if es != [] { StaysOut(s, token, es[..|es| - 1]); }
  }

  lemma {:induction false} UnusedCodeWaits(s: State, code: Secret, es: seq<Event>)
    requires LiveCode(s, code) && code in s.issued
    requires forall i | 0 <= i < |es| :: !(es[i].Present? && es[i].code == code)
    ensures s.now <= Run(s, es).now && code in Run(s, es).issued
    ensures Run(s, es).now < s.codes[code].expiresAt ==>
      code in Run(s, es).codes && Run(s, es).codes[code] == s.codes[code]
  {
    if es != [] {
      UnusedCodeWaits(s, code, es[..|es| - 1]);
      StepKeepsUnusedCode(Run(s, es[..|es| - 1]), code, es[|es| - 1]);
    }
  }

  lemma StepKeepsUnusedCode(s: State, code: Secret, e: Event)
    requires code in s.issued && !(e.Present? && e.code == code)
    ensures s.now <= Next(s, e).now && code in Next(s, e).issued
    ensures code in s.codes && Next(s, e).now < s.codes[code].expiresAt ==>
      code in Next(s, e).codes && Next(s, e).codes[code] == s.codes[code]
  {
  }

  /**
   * The converse of the checks: whatever else happens in between, other sign-ins and their purges
   * included, a code first shown within its minute, on its own host, by its own browser, under a
   * live parent does sign its user in.
   */
  lemma IntendedUseSignsIn(s: State, issue: Event, es: seq<Event>, token: Secret, stored: int)
    requires issue.Issue? && MayIssue(s, issue)
    requires forall i | 0 <= i < |es| :: !(es[i].Present? && es[i].code == issue.code)
    requires var t := Run(Next(s, issue), es);
             && t.now < s.now + HANDOFF_CODE_TTL_SECONDS && LivePlatform(t, issue.token)
             && t.sessions[issue.token].user == s.sessions[issue.token].user && FreshToken(t, token)
    ensures var t := Run(Next(s, issue), es);
            var present := Present(Some(issue.site), issue.code, Some(issue.state), token, stored);
            && Accepted(t, present)
            && token in Next(t, present).sessions
            && Next(t, present).sessions[token].user == s.sessions[issue.token].user
            && Next(t, present).sessions[token].scope == App(issue.site)
  {
    UnusedCodeWaits(Next(s, issue), issue.code, es);
  }

  // ---- the code ---------------------------------------------------------------------------------------------

  class HandoffDb {
    var now: int
    var codes: map<Secret, Code>
    var sessions: map<Secret, Session>
    var active: set<User>
    ghost var issued: map<Secret, Code>
    ghost var spent: set<Secret>
    ghost var origins: map<Secret, Origin>

    ghost function Now(): State
      reads this
    {
      State(now, codes, sessions, active, issued, spent, origins)
    }

    constructor (now: int, sessions: map<Secret, Session>, active: set<User>)
      ensures Now() == State(now, map[], sessions, active, map[], {}, map[])
    {
      this.now, this.codes, this.sessions, this.active := now, map[], sessions, active;
      issued, spent, origins := map[], {}, map[];
    }

    predicate IsLivePlatform(token: Secret)
      reads this
      ensures IsLivePlatform(token) == LivePlatform(Now(), token)
    {
      token in sessions && sessions[token].scope == Platform && sessions[token].expiresAt > now
      && sessions[token].user in active
    }

    /** GET /handoff, once app, origin and state are known good; `code` is freshly random. */
    method IssueCode(token: Secret, site: Site, mayEnter: bool, state: Secret, code: Secret) returns (done: bool)
      requires code !in issued
      modifies this
      ensures Now() == Next(old(Now()), Issue(token, site, mayEnter, state, code))
      ensures done == MayIssue(old(Now()), Issue(token, site, mayEnter, state, code))
    {
      if !IsLivePlatform(token) || !mayEnter { return false; }
      codes := NotExpired(codes, now);
      var row := Code(sessions[token].user, site, token, state, now + HANDOFF_CODE_TTL_SECONDS, false);
      codes := codes[code := row];
      issued := issued[code := row];
      return true;
    }

    /** GET /session on the app host `host`; `token` is freshly random. */
    method OpenSession(host: Option<Site>, code: Secret, cookie: Option<Secret>, token: Secret, stored: int)
      returns (done: bool)
      requires FreshToken(Now(), token)
      modifies this
      ensures Now() == Next(old(Now()), Present(host, code, cookie, token, stored))
      ensures done == Accepted(old(Now()), Present(host, code, cookie, token, stored))
    {
      if host == None || code !in codes || codes[code].used || codes[code].expiresAt <= now { return false; }
      var row := codes[code];
      codes := codes[code := row.(used := true)];
      spent := spent + {code};
      if row.site != host.value || cookie != Some(row.state) { return false; }
      if !IsLivePlatform(row.parent) || sessions[row.parent].user != row.user { return false; }
      var parent := sessions[row.parent];
      sessions := sessions[token := Session(row.user, App(row.site), stored)];
      if parent.expiresAt < stored {
        sessions := sessions[token := sessions[token].(expiresAt := parent.expiresAt)];
      }
      origins := origins[token := Origin(code, host.value, now, cookie.value, row.parent, parent)];
      return true;
    }

    method EndAppSession(host: Option<Site>, token: Secret)
      modifies this`sessions
      ensures Now() == Next(old(Now()), Logout(host, token))
    {
      if host != None && token in sessions && sessions[token].scope == App(host.value) {
        sessions := sessions - {token};
      }
    }
  }
}
