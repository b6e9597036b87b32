/**
 * Replacing an app's member list: PUT /api/apps/:slug/users of server/routes/apps.js. The list is
 * replaced in one transaction; the data of the users it drops is purged afterwards, one awaited
 * purge at a time, while other requests go on.
 */
module Members {
  import opened Text

  type User = int

  datatype Role = Owner | Admin | Member | Viewer

  /**
   * Role rows (a row is membership), members holding app-defined roles, purges still to be made by
   * requests under way, and purges made so far.
   */
  datatype App = App(roles: map<User, Role>, grants: set<User>, pending: seq<User>, purged: seq<User>)

  datatype Caller = Caller(id: User, platformAdmin: bool)

  /** A user id of the list, or an e-mail with the user it belongs to, if any. */
  datatype Entry = Id(id: User) | Email(found: Option<User>)

  datatype Refusal = Forbidden | NotFound | LastOwner | NoSuchUser

  datatype Request = Request(caller: Caller, entries: seq<Entry>)

  predicate HasOwner(app: App) {
    exists u | u in app.roles :: app.roles[u] == Owner
  }

  function Resolved(entry: Entry): Option<User> {
    if entry.Id? then Some(entry.id) else entry.found
  }

  /** The requested list: every entry's user in order, or None when an e-mail is unknown. */
  function Requested(entries: seq<Entry>): (ids: Option<seq<User>>)
    ensures ids == None <==> exists i | 0 <= i < |entries| :: Resolved(entries[i]) == None
    ensures ids != None ==>
      |ids.value| == |entries| && forall i | 0 <= i < |entries| :: Resolved(entries[i]) == Some(ids.value[i])
  {
    if entries == [] then Some([])
    else
      var rest := Requested(entries[1..]);
      match entries[0]
      case Id(id) => if rest == None then None else Some([id] + rest.value)
      case Email(found) => if rest == None || found == None then None else Some([found.value] + rest.value)
  }

  /** Why a request is refused; `users` are the accounts that exist. */
  function Refused(app: App, req: Request, users: set<User>): Option<Refusal> {
    var ids := Requested(req.entries);
    if !req.caller.platformAdmin && !(req.caller.id in app.roles && app.roles[req.caller.id] == Owner) then Some(Forbidden)
    else if ids == None then Some(NotFound)
    else if HasOwner(app) && forall u | u in app.roles && app.roles[u] == Owner :: u !in ids.value then Some(LastOwner)
    else if exists id <- ids.value :: id !in app.roles && id !in users then Some(NoSuchUser)
    else None
  }

  /**
   * Who may replace the list, and with what: a platform admin or an owner, known users only, and
   * with an owner among them if the app has one. The first reason that applies is the answer.
   */
  lemma AcceptedIff(app: App, req: Request, users: set<User>)
    ensures var mayReplace := req.caller.platformAdmin
              || (req.caller.id in app.roles && app.roles[req.caller.id] == Owner);
            var known := forall i | 0 <= i < |req.entries| :: Resolved(req.entries[i]) != None;
            var listed := set i | 0 <= i < |req.entries| && Resolved(req.entries[i]) != None :: Resolved(req.entries[i]).value;
            var owned := (forall u | u in app.roles :: app.roles[u] != Owner)
              || exists u | u in app.roles :: app.roles[u] == Owner && u in listed;
            var exist := forall u | u in listed :: u in app.roles || u in users;
            && (Refused(app, req, users) == None <==> mayReplace && known && owned && exist)
            && (!mayReplace <==> Refused(app, req, users) == Some(Forbidden))
            && (mayReplace && !known <==> Refused(app, req, users) == Some(NotFound))
            && (mayReplace && known && !owned <==> Refused(app, req, users) == Some(LastOwner))
  {
    var listed := set i | 0 <= i < |req.entries| && Resolved(req.entries[i]) != None :: Resolved(req.entries[i]).value;
    if Requested(req.entries) != None { ListedIsRequested(req.entries, Requested(req.entries).value, listed); }
  }

  lemma ListedIsRequested(entries: seq<Entry>, ids: seq<User>, listed: set<User>)
    requires Requested(entries) == Some(ids)
    requires listed == set i | 0 <= i < |entries| && Resolved(entries[i]) != None :: Resolved(entries[i]).value
    ensures forall u :: u in ids <==> u in listed
  {
    forall u | u in ids ensures u in listed {
      var i :| 0 <= i < |ids| && ids[i] == u;
      assert Resolved(entries[i]) == Some(u);
    }
    forall u | u in listed ensures u in ids {
      var i :| 0 <= i < |entries| && Resolved(entries[i]) != None && Resolved(entries[i]).value == u;
      assert ids[i] == u;
    }
  }

  /** A caller who is neither platform admin nor owner of the app changes nothing. */
  lemma StrangersChangeNothing(before: App, req: Request, users: set<User>, after: App)
    requires Step(before, Replace(req, users), after)
    requires !req.caller.platformAdmin
    requires !(req.caller.id in before.roles && before.roles[req.caller.id] == Owner)
    ensures after == before
  {
    AcceptedIff(before, req, users);
  }

  /** What a replacement leaves behind, stated on sets. */
  ghost predicate Replaced(before: App, ids: seq<User>, after: App) {
    && (forall u :: u in after.roles <==> u in ids)
    && (forall u | u in after.roles :: after.roles[u] == if u in before.roles then before.roles[u] else Member)
    && after.grants == before.grants * after.roles.Keys
    && after.purged == before.purged
    && before.pending <= after.pending
    && ListsExactly(after.pending[|before.pending|..], before.roles.Keys - after.roles.Keys)
  }

  ghost predicate ListsExactly(list: seq<User>, users: set<User>) {
    && (forall u :: u in list <==> u in users)
    && (forall i, j | 0 <= i < j < |list| :: list[i] != list[j])
  }

  class Membership {
    var roles: map<User, Role>
    var grants: set<User>
    var pending: seq<User>
    var purged: seq<User>

    function State(): App
      reads this
    {
      App(roles, grants, pending, purged)
    }

    constructor (app: App)
      ensures State() == app
    {
      roles, grants, pending, purged := app.roles, app.grants, app.pending, app.purged;
    }

    /**
     * Up to the first await. `before` is the roster in the order SELECT returned it. A failed insert
     * (no such user) rolls the whole transaction back.
     */
    method Replace(req: Request, users: set<User>, before: seq<User>) returns (refusal: Option<Refusal>)
      requires (forall u :: u in before <==> u in roles) && forall i, j | 0 <= i < j < |before| :: before[i] != before[j]
      modifies this
      ensures refusal == Refused(old(State()), req, users)
      ensures refusal != None ==> State() == old(State())
      ensures refusal == None ==> Replaced(old(State()), Requested(req.entries).value, State())
    {
      if !req.caller.platformAdmin && !(req.caller.id in roles && roles[req.caller.id] == Owner) {
        return Some(Forbidden);
      }
      var requested := Requested(req.entries);
      if requested == None { return Some(NotFound); }
      var ids := requested.value;
      if HasOwner(State()) && forall u | u in roles && roles[u] == Owner :: u !in ids { return Some(LastOwner); }

      var saved := roles;
      var inserted := InsertMissing(ids, users);
      if !inserted {
        roles := saved;
        return Some(NoSuchUser);
      }
      DropOthers(before, ids);
      grants := grants * roles.Keys;
      QueueDropped(before, ids);
      return None;
    }

    method InsertMissing(ids: seq<User>, users: set<User>) returns (inserted: bool)
      modifies this`roles
      ensures inserted <==> forall id <- ids :: id in old(roles) || id in users
      ensures inserted ==> forall u :: u in roles <==> u in old(roles) || u in ids
      ensures forall u | u in roles :: roles[u] == if u in old(roles) then old(roles)[u] else Member
    {
      ghost var was := roles;
      var i := 0;
      while i < |ids|
        invariant 0 <= i <= |ids|
        invariant forall u :: u in roles <==> u in was || u in ids[..i]
        invariant forall u | u in roles :: roles[u] == if u in was then was[u] else Member
        invariant forall u | u in roles :: u in was || u in users
        invariant forall u | u in was :: u in roles
      {
        var id := ids[i];
        assert ids[..i + 1] == ids[..i] + [id];
        if id !in roles && id !in users { return false; }
        if id !in roles { roles := roles[id := Member]; }
        i := i + 1;
      }
      assert ids[..|ids|] == ids;
      return true;
    }

    method DropOthers(before: seq<User>, ids: seq<User>)
      modifies this`roles
      ensures forall u :: u in roles <==> u in old(roles) && (u in before ==> u in ids)
      ensures forall u | u in roles :: roles[u] == old(roles)[u]
    {
      var i := 0;
      while i < |before|
        invariant 0 <= i <= |before|
        invariant forall u :: u in roles <==> u in old(roles) && (u in before[..i] ==> u in ids)
        invariant forall u | u in roles :: roles[u] == old(roles)[u]
      {
        assert before[..i + 1] == before[..i] + [before[i]];
        if before[i] !in ids { roles := roles - {before[i]}; }
        i := i + 1;
      }
      assert before[..|before|] == before;
    }

    /** The purges this request goes on to make. */
    method QueueDropped(before: seq<User>, ids: seq<User>)
      requires forall i, j | 0 <= i < j < |before| :: before[i] != before[j]
      modifies this`pending
      ensures old(pending) <= pending
      ensures ListsExactly(pending[|old(pending)|..], set u <- before | u !in ids)
    {
      var i := 0;
      ghost var dropped: seq<User> := [];
      while i < |before|
        invariant 0 <= i <= |before|
        invariant pending == old(pending) + dropped
        invariant forall u :: u in dropped <==> u in before[..i] && u !in ids
        invariant forall k, l | 0 <= k < l < |dropped| :: dropped[k] != dropped[l]
      {
        assert before[..i + 1] == before[..i] + [before[i]];
        if before[i] !in ids {
          assert before[i] !in before[..i];
          dropped := dropped + [before[i]];
          pending := pending + [before[i]];
        }
        i := i + 1;
      }
      assert before[..|before|] == before && pending[|old(pending)|..] == dropped;
    }

    /** One awaited purge of some request; it does not look at the members again. */
    method PurgeOne(i: nat) returns (u: User)
      requires i < |pending|
      modifies this`pending, this`purged
      ensures u == old(pending)[i] && State() == AfterPurge(old(State()), i)
    {
      u := pending[i];
      pending := pending[..i] + pending[i + 1..];
      purged := purged + [u];
    }
  }

  // ---- over any run of requests and purges -----------------------------------------------------------

  function AfterPurge(app: App, i: nat): App
    requires i < |app.pending|
  {
    app.(pending := app.pending[..i] + app.pending[i + 1..], purged := app.purged + [app.pending[i]])
  }

  datatype Event =
    | Replace(req: Request, users: set<User>)
    | Purge(i: nat)
    | Crash // the purges still to be made are lost

  ghost predicate Accepts(before: App, e: Event) {
    e.Replace? && Refused(before, e.req, e.users) == None
  }

  ghost predicate Step(before: App, e: Event, after: App) {
    match e
    case Replace(req, users) =>
      if Accepts(before, e) then Replaced(before, Requested(req.entries).value, after) else after == before
    case Purge(i) => after == if i < |before.pending| then AfterPurge(before, i) else before
    case Crash => after == before.(pending := [])
  }

  ghost predicate History(apps: seq<App>, events: seq<Event>) {
    |apps| == |events| + 1 && forall i | 0 <= i < |events| :: Step(apps[i], events[i], apps[i + 1])
  }

  /** Once an app has an owner it has one for good, and its app-defined roles stay with members. */
  lemma {:induction false} OwnersNeverRunOut(apps: seq<App>, events: seq<Event>, from: nat)
    requires History(apps, events) && from < |apps| && HasOwner(apps[from])
    requires apps[from].grants <= apps[from].roles.Keys
    ensures forall i | from <= i < |apps| :: HasOwner(apps[i]) && apps[i].grants <= apps[i].roles.Keys
    decreases |apps| - from
  {
    if from + 1 < |apps| {
      var before, after, e := apps[from], apps[from + 1], events[from];
      assert Step(before, e, after);
      if Accepts(before, e) {
        var u :| u in before.roles && before.roles[u] == Owner && u in Requested(e.req.entries).value;
        assert after.roles[u] == Owner;
      }
      OwnersNeverRunOut(apps, events, from + 1);
    }
  }

  /** The list an accepted request asks for holds u. */
  ghost predicate Lists(before: App, e: Event, u: User) {
    Accepts(before, e) && u in Requested(e.req.entries).value
  }

  /** Some request was accepted between the two moments, and the last such one lists u. */
  ghost predicate ReAdded(apps: seq<App>, events: seq<Event>, u: User, k: nat, n: nat)
    requires |apps| == |events| + 1 && k <= n < |apps|
    decreases n
  {
    k < n && if Accepts(apps[n - 1], events[n - 1]) then Lists(apps[n - 1], events[n - 1], u)
             else ReAdded(apps, events, u, k, n - 1)
  }

  /** A user who is no member becomes one exactly by being listed, and by not being left out since. */
  lemma {:induction false} MemberIffReAdded(apps: seq<App>, events: seq<Event>, u: User, k: nat, n: nat)
    requires History(apps, events) && k <= n < |apps| && u !in apps[k].roles
    ensures u in apps[n].roles <==> ReAdded(apps, events, u, k, n)
    decreases n
  {
    if k < n {
      MemberIffReAdded(apps, events, u, k, n - 1);
      assert Step(apps[n - 1], events[n - 1], apps[n]);
    }
  }

  /** A purge deletes the data of somebody who is a member at that moment. */
  ghost predicate HitsAMember(before: App, e: Event) {
    e.Purge? && e.i < |before.pending| && before.pending[e.i] in before.roles
  }

  /** Every user still to be purged was dropped at some earlier moment, after which they were no member. */
  lemma {:induction false} PendingWereDropped(apps: seq<App>, events: seq<Event>, u: User, n: nat) returns (k: nat)
    requires History(apps, events) && n < |apps| && apps[0].pending == [] && u in apps[n].pending
    ensures k < n && u in apps[k].roles && Accepts(apps[k], events[k]) && u !in apps[k + 1].roles
    decreases n
  {
    var before, e := apps[n - 1], events[n - 1];
    assert Step(before, e, apps[n]);
    if u in before.pending {
      k := PendingWereDropped(apps, events, u, n - 1);
    } else {
      k := n - 1;
      if e.Replace? && Accepts(before, e) {
        var added := apps[n].pending[|before.pending|..];
        assert apps[n].pending == before.pending + added;
        assert u in before.roles.Keys - apps[n].roles.Keys;
      }
    }
  }

  /**
   * A purge deletes a member's data if and only if the user was put back on the list, and not left
   * out again, between being dropped and the purge: each request's purges run unguarded after it.
   */
  lemma PurgeHitsAMemberIff(apps: seq<App>, events: seq<Event>, n: nat) returns (k: nat)
    requires History(apps, events) && n < |events| && apps[0].pending == []
    requires events[n].Purge? && events[n].i < |apps[n].pending|
    ensures var u := apps[n].pending[events[n].i];
            && k < n && u in apps[k].roles && u !in apps[k + 1].roles
            && (HitsAMember(apps[n], events[n]) <==> ReAdded(apps, events, u, k + 1, n))
  {
    var u := apps[n].pending[events[n].i];
    k := PendingWereDropped(apps, events, u, n);
    MemberIffReAdded(apps, events, u, k + 1, n);
  }

  /**
   * A user left out loses role and grants for good, and coming back makes a plain member of them;
   * unless the server goes down, their purge is still to come or was made after the drop.
   */
  lemma {:induction false} DroppedMeansGone(apps: seq<App>, events: seq<Event>, k: nat, n: nat, u: User)
    requires History(apps, events) && k < n < |apps|
    requires u in apps[k].roles && u !in apps[k + 1].roles
    ensures u !in apps[n].grants && (u in apps[n].roles ==> apps[n].roles[u] == Member)
    ensures apps[k].purged <= apps[n].purged
    ensures (forall i | k < i < n :: !events[i].Crash?) ==>
      u in apps[n].pending || u in apps[n].purged[|apps[k].purged|..]
    decreases n
  {
    var before, e, after := apps[n - 1], events[n - 1], apps[n];
    assert Step(before, e, after);
    if n == k + 1 {
      assert u in before.roles.Keys - after.roles.Keys;
      assert u in after.pending[|before.pending|..];
    } else {
      DroppedMeansGone(apps, events, k, n - 1, u);
      if e.Purge? && e.i < |before.pending| { PurgeMoves(before, e.i, u, |apps[k].purged|); }
    }
  }

  lemma PurgeMoves(app: App, i: nat, u: User, from: nat)
    requires i < |app.pending| && from <= |app.purged|
    ensures u in app.pending || u in app.purged[from..] ==>
      u in AfterPurge(app, i).pending || u in AfterPurge(app, i).purged[from..]
  {
    assert app.pending == app.pending[..i] + [app.pending[i]] + app.pending[i + 1..];
    assert (app.purged + [app.pending[i]])[from..] == app.purged[from..] + [app.pending[i]];
  }

  /** Dropped and put back before the purge gets its turn: a current member's data is deleted. */
  lemma ReAddedMemberIsPurged(owner: User, u: User, users: set<User>)
    requires owner != u && u in users
    ensures var drop := Replace(Request(Caller(owner, false), [Id(owner)]), users);
            var back := Replace(Request(Caller(owner, false), [Id(owner), Id(u)]), users);
            var a0 := App(map[owner := Owner, u := Admin], {}, [], []);
            var a1 := App(map[owner := Owner], {}, [u], []);
            var a2 := App(map[owner := Owner, u := Member], {}, [u], []);
            && Step(a0, drop, a1) && Accepts(a0, drop) && Step(a1, back, a2) && Accepts(a1, back)
            && HitsAMember(a2, Purge(0)) && Step(a2, Purge(0), a2.(pending := [], purged := [u]))
  {
    var a0 := App(map[owner := Owner, u := Admin], {}, [], []);
    var a1 := App(map[owner := Owner], {}, [u], []);
    var a2 := App(map[owner := Owner, u := Member], {}, [u], []);
    OneOrTwo(owner, u);
    assert a0.roles[owner] == Owner && a1.roles[owner] == Owner;
    assert a1.pending[|a0.pending|..] == [u] && a0.roles.Keys - a1.roles.Keys == {u};
    assert a2.pending[|a1.pending|..] == [] && a1.roles.Keys - a2.roles.Keys == {};
    assert a2.pending[..0] + a2.pending[1..] == [] && a2.purged + [u] == [u];
  }

  lemma OneOrTwo(a: User, b: User)
    ensures Requested([Id(a)]) == Some([a]) && Requested([Id(a), Id(b)]) == Some([a, b])
  {
    var one, two := Requested([Id(a)]), Requested([Id(a), Id(b)]);
    assert Resolved([Id(a)][0]) == Some(a) && Resolved([Id(a), Id(b)][0]) == Some(a) && Resolved([Id(a), Id(b)][1]) == Some(b);
    assert one.value == [a] && two.value == [a, b];
  }
}
