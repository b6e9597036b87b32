/**
 * The shared prepared statements of server/db.js, cacheStatements: one Statement per SQL text in a
 * bounded LRU map, with the state-changing methods moved onto a fresh Statement.
 */
module StatementCache {

  const STATEMENT_CACHE_MAX := 500

  /** The methods that leave state behind on a Statement. */
  datatype Switch = Pluck | Raw | Expand | SafeIntegers | Bind | Iterate

  datatype Call = Call(kind: Switch, args: seq<string>)

  /**
   * A Statement object: its SQL, whether its stateful methods were replaced (it is or was cached),
   * and the stateful calls made on it, which with the arguments decide what a query returns.
   */
  datatype Statement = Statement(sql: string, shared: bool, applied: seq<Call>)

  // ---- the LRU map ----------------------------------------------------------------------------

  function Remove(keys: seq<string>, key: string): (r: seq<string>)
    ensures key !in r && |r| <= |keys|
    ensures forall k <- keys :: k == key || k in r
    ensures forall k <- r :: k in keys
  {
    if keys == [] then [] else (if keys[0] == key then [] else [keys[0]]) + Remove(keys[1..], key)
  }

  /** Map.delete and Map.set of a key, then dropping the oldest key if the map grew too big. */
  function Touch(keys: seq<string>, key: string, max: nat): seq<string> {
    var moved := Remove(keys, key) + [key];
    if key !in keys && |moved| > max then moved[1..] else moved
  }

  function Keys(history: seq<string>, max: nat): seq<string> {
    if history == [] then []
    else Touch(Keys(history[..|history| - 1], max), history[|history| - 1], max)
  }

  /** The distinct texts of a history, each at the place of its last use. */
  function LastUses(history: seq<string>): seq<string> {
    if history == [] then []
    else if history[0] in history[1..] then LastUses(history[1..])
    else [history[0]] + LastUses(history[1..])
  }

  function Newest(keys: seq<string>, max: nat): seq<string> {
    if |keys| <= max then keys else keys[|keys| - max..]
  }

  ghost predicate Distinct(keys: seq<string>) {
    forall i, j | 0 <= i < j < |keys| :: keys[i] != keys[j]
  }

  lemma {:induction false} LastUsesAreDistinct(history: seq<string>)
    ensures Distinct(LastUses(history))
    ensures forall t :: t in LastUses(history) <==> t in history
  {
    if history != [] { LastUsesAreDistinct(history[1..]); }
  }

  lemma {:induction false} RemoveAbsent(keys: seq<string>, key: string)
    requires key !in keys
    ensures Remove(keys, key) == keys
  {
    if keys != [] { RemoveAbsent(keys[1..], key); }
  }

  lemma {:induction false} RemoveConcat(a: seq<string>, b: seq<string>, key: string)
    ensures Remove(a + b, key) == Remove(a, key) + Remove(b, key)
  {
    if a == [] {
      assert a + b == b;
    } else {
      var first := if a[0] == key then [] else [a[0]];
      assert (a + b)[0] == a[0] && (a + b)[1..] == a[1..] + b;
      RemoveConcat(a[1..], b, key);
      assert first + (Remove(a[1..], key) + Remove(b, key)) == first + Remove(a[1..], key) + Remove(b, key);
    }
  }

  lemma {:induction false} RemoveOne(keys: seq<string>, key: string)
    requires Distinct(keys) && key in keys
    ensures |Remove(keys, key)| == |keys| - 1
  {
    if keys[0] == key { RemoveAbsent(keys[1..], key); } else { RemoveOne(keys[1..], key); }
  }

  lemma {:induction false} LastUsesSnoc(history: seq<string>, key: string)
    ensures LastUses(history + [key]) == Remove(LastUses(history), key) + [key]
  {
    if history == [] {
      assert history + [key] == [key];
    } else {
      assert (history + [key])[1..] == history[1..] + [key];
      LastUsesSnoc(history[1..], key);
    }
  }

  lemma NewestOfConcat(a: seq<string>, b: seq<string>, max: nat)
    requires |b| == max || (a == [] && |b| <= max)
    ensures Newest(a + b, max) == b
  {
    assert a == [] ==> a + b == b;
  }

  lemma TouchKnown(dropped: seq<string>, kept: seq<string>, key: string, max: nat)
    requires key in kept && key !in dropped && |Remove(kept, key)| == |kept| - 1
    requires |kept| == max || (dropped == [] && |kept| <= max)
    ensures Touch(kept, key, max) == Newest(Remove(dropped + kept, key) + [key], max)
  {
    RemoveConcat(dropped, kept, key);
    RemoveAbsent(dropped, key);
    NewestOfConcat(dropped, Remove(kept, key) + [key], max);
    assert dropped + (Remove(kept, key) + [key]) == Remove(dropped + kept, key) + [key];
  }

  lemma SplitHead(before: seq<string>, kept: seq<string>, key: string)
    requires kept != []
    ensures before + kept + [key] == before + [kept[0]] + (kept[1..] + [key])
    ensures (kept + [key])[1..] == kept[1..] + [key]
  {
    assert kept == [kept[0]] + kept[1..];
  }

  lemma TouchNew(dropped: seq<string>, kept: seq<string>, key: string, max: nat)
    requires key !in kept && max > 0
    requires |kept| == max || (dropped == [] && |kept| < max)
    ensures Touch(kept, key, max) == Newest(Remove(dropped + kept, key) + [key], max)
  {
    RemoveConcat(dropped, kept, key);
    RemoveAbsent(kept, key);
    if |kept| < max {
      assert dropped + kept == kept;
    } else {
      SplitHead(Remove(dropped, key), kept, key);
      NewestOfConcat(Remove(dropped, key) + [kept[0]], kept[1..] + [key], max);
    }
  }

  lemma TouchIsNewest(d: seq<string>, key: string, max: nat)
    requires max > 0 && Distinct(d)
    ensures Touch(Newest(d, max), key, max) == Newest(Remove(d, key) + [key], max)
  {
    var kept := Newest(d, max);
    var dropped := d[..|d| - |kept|];
    assert d == dropped + kept;
    if key in kept {
      DistinctHalves(dropped, kept, key);
      RemoveOne(kept, key);
      TouchKnown(dropped, kept, key, max);
    } else {
      TouchNew(dropped, kept, key, max);
    }
  }

  lemma DistinctHalves(a: seq<string>, b: seq<string>, key: string)
    requires Distinct(a + b) && key in b
    ensures key !in a && Distinct(b)
  {
    var j :| 0 <= j < |b| && b[j] == key;
    forall i | 0 <= i < |a| ensures a[i] != key {
      assert (a + b)[i] == a[i] && (a + b)[|a| + j] == b[j];
    }
    forall i, k | 0 <= i < k < |b| ensures b[i] != b[k] {
      assert (a + b)[|a| + i] == b[i] && (a + b)[|a| + k] == b[k];
    }
  }

  /**
   * After any history of prepare calls the map holds exactly the `max` most recently prepared
   * distinct texts, oldest first.
   */
  lemma {:induction false} CacheHoldsTheMostRecent(history: seq<string>, max: nat)
    requires max > 0
    ensures Keys(history, max) == Newest(LastUses(history), max)
  {
    if history != [] {
      var front, key := history[..|history| - 1], history[|history| - 1];
      CacheHoldsTheMostRecent(front, max);
      LastUsesAreDistinct(front);
      TouchIsNewest(LastUses(front), key, max);
      LastUsesSnoc(front, key);
      assert front + [key] == history;
    }
  }

  // ---- a connection and its callers -------------------------------------------------------------

  /** Statement objects by identity, the statement behind each handle a caller holds, and the map. */
  datatype Connection = Connection(heap: seq<Statement>, handles: seq<nat>, order: seq<string>, cache: map<string, nat>)

  datatype Op = Prepare(sql: string) | Configure(handle: nat, call: Call) | Exec(handle: nat, args: seq<string>)

  /** What the engine is asked: with the database content this decides what the caller is given. */
  datatype Outcome = Nothing | Query(sql: string, applied: seq<Call>, args: seq<string>)

  ghost predicate Valid(c: Connection) {
    && (forall h | 0 <= h < |c.handles| :: c.handles[h] < |c.heap|)
    && Distinct(c.order) && |c.order| <= STATEMENT_CACHE_MAX
    && (forall k :: k in c.order <==> k in c.cache)
    && (forall k | k in c.cache :: c.cache[k] < |c.heap| && c.heap[c.cache[k]] == Statement(k, true, []))
  }

  predicate Applies(c: Connection, op: Op) {
    match op
    case Prepare(_) => true
    case Configure(h, _) => h < |c.handles|
    case Exec(h, _) => h < |c.handles|
  }

  function Behind(c: Connection, h: nat): Statement
    requires h < |c.handles| && c.handles[h] < |c.heap|
  {
    c.heap[c.handles[h]]
  }

  function New(c: Connection, s: Statement): Connection {
    c.(heap := c.heap + [s], handles := c.handles + [|c.heap|])
  }

  /** better-sqlite3 as it is: every prepare compiles, every stateful method works in place. */
  function Direct(c: Connection, op: Op): (Connection, Outcome)
    requires Valid(c) && Applies(c, op)
  {
    match op
    case Prepare(sql) => (New(c, Statement(sql, false, [])), Nothing)
    case Configure(h, call) =>
      var s := Behind(c, h);
      (c.(heap := c.heap[c.handles[h] := s.(applied := s.applied + [call])], handles := c.handles + [c.handles[h]]),
       Nothing)
    case Exec(h, args) => (c, Query(Behind(c, h).sql, Behind(c, h).applied, args))
  }

  function PrepareCached(c: Connection, sql: string): Connection {
    var order := Touch(c.order, sql, STATEMENT_CACHE_MAX);
    if sql in c.cache then c.(handles := c.handles + [c.cache[sql]], order := order)
    else
      var cache := c.cache[sql := |c.heap|];
      New(c, Statement(sql, true, [])).(
        order := order,
        cache := if |c.order| < STATEMENT_CACHE_MAX then cache else cache - {(c.order + [sql])[0]})
  }

  function Cached(c: Connection, op: Op): (Connection, Outcome)
    requires Valid(c) && Applies(c, op)
  {
    if op.Prepare? then (PrepareCached(c, op.sql), Nothing)
    else if op.Configure? && Behind(c, op.handle).shared then
      (New(c, Statement(Behind(c, op.handle).sql, false, [op.call])), Nothing)
    else Direct(c, op)
  }

  lemma DropOldest(keys: seq<string>, key: string)
    requires Distinct(keys) && key !in keys && |keys| > 0
    ensures (keys + [key])[0] == keys[0] && (keys + [key])[1..] == keys[1..] + [key]
    ensures forall k :: k in (keys + [key])[1..] <==> k in keys + [key] && k != keys[0]
  {
    HeadIsAbsent(keys);
    assert keys == [keys[0]] + keys[1..];
  }

  lemma HeadIsAbsent(keys: seq<string>)
    requires Distinct(keys) && keys != []
    ensures keys[0] !in keys[1..]
  {
    forall i | 0 <= i < |keys[1..]| ensures keys[1..][i] != keys[0] {
      assert keys[1..][i] == keys[i + 1];
    }
  }

  ghost predicate SharedPristine(c: Connection) {
    forall i | 0 <= i < |c.heap| && c.heap[i].shared :: c.heap[i].applied == []
  }

  lemma {:induction false} RemoveKeepsDistinct(keys: seq<string>, key: string)
    requires Distinct(keys)
    ensures Distinct(Remove(keys, key))
  {
    if keys != [] {
      HeadIsAbsent(keys);
      RemoveKeepsDistinct(keys[1..], key);
    }
  }

  lemma TouchKeepsDistinct(keys: seq<string>, key: string)
    requires Distinct(keys) && |keys| <= STATEMENT_CACHE_MAX
    ensures Distinct(Touch(keys, key, STATEMENT_CACHE_MAX)) && |Touch(keys, key, STATEMENT_CACHE_MAX)| <= STATEMENT_CACHE_MAX
    ensures forall k :: k in Touch(keys, key, STATEMENT_CACHE_MAX) ==> k == key || k in keys
    ensures key in keys ==> forall k <- keys :: k in Touch(keys, key, STATEMENT_CACHE_MAX)
  {
    RemoveKeepsDistinct(keys, key);
    if key in keys { RemoveOne(keys, key); } else { RemoveAbsent(keys, key); }
  }

  lemma HitStaysPristine(c: Connection, sql: string)
    requires Valid(c) && SharedPristine(c) && sql in c.cache
    ensures Valid(PrepareCached(c, sql)) && SharedPristine(PrepareCached(c, sql))
  {
    var order := Touch(c.order, sql, STATEMENT_CACHE_MAX);
    TouchKeepsDistinct(c.order, sql);
    assert forall k :: k in order <==> k in c.order;
  }

  lemma MissOrder(order: seq<string>, sql: string)
    requires Distinct(order) && |order| <= STATEMENT_CACHE_MAX && sql !in order
    ensures var after := Touch(order, sql, STATEMENT_CACHE_MAX);
            && after == (if |order| < STATEMENT_CACHE_MAX then order else order[1..]) + [sql]
            && forall k :: k in after <==> k == sql || (k in order && (|order| < STATEMENT_CACHE_MAX || k != order[0]))
  {
    RemoveAbsent(order, sql);
    if |order| == STATEMENT_CACHE_MAX { DropOldest(order, sql); }
  }

  lemma MissKeys(c: Connection, sql: string)
    requires Valid(c) && sql !in c.cache
    ensures var c1 := PrepareCached(c, sql);
            && Distinct(c1.order) && |c1.order| <= STATEMENT_CACHE_MAX
            && forall k :: k in c1.order <==> k in c1.cache
  {
    TouchKeepsDistinct(c.order, sql);
    MissOrder(c.order, sql);
    if c.order != [] { assert (c.order + [sql])[0] == c.order[0]; }
  }

  lemma MissStaysPristine(c: Connection, sql: string)
    requires Valid(c) && SharedPristine(c) && sql !in c.cache
    ensures Valid(PrepareCached(c, sql)) && SharedPristine(PrepareCached(c, sql))
  {
    MissKeys(c, sql);
    var c1 := PrepareCached(c, sql);
    forall k | k in c1.cache ensures c1.cache[k] < |c1.heap| && c1.heap[c1.cache[k]] == Statement(k, true, []) {
      if k != sql { assert c1.heap[c1.cache[k]] == c.heap[c.cache[k]]; }
    }
  }

  /** Whatever callers do, every cached statement stays as it was compiled, under its own text. */
  lemma CacheStaysPristine(c: Connection, op: Op)
    requires Valid(c) && Applies(c, op) && SharedPristine(c)
    ensures Valid(Cached(c, op).0) && SharedPristine(Cached(c, op).0)
    ensures Cached(c, op).0.order == if op.Prepare? then Touch(c.order, op.sql, STATEMENT_CACHE_MAX) else c.order
  {
    if op.Prepare? {
      if op.sql in c.cache { HitStaysPristine(c, op.sql); } else { MissStaysPristine(c, op.sql); }
    }
  }

  // ---- the cached connection refines the direct one ----------------------------------------------

  /** Handles with the same Statement behind them. */
  function Aliases(c: Connection, h: nat): set<nat>
    requires h < |c.handles|
  {
    set g | 0 <= g < |c.handles| && c.handles[g] == c.handles[h]
  }

  /**
   * The handles whose queries the cache changes; `d` is the connection without it. A switch on a
   * prepared handle puts that handle off, since the caller goes on with what the switch returned. A
   * switch on a handle that is off also puts off what it returns, and every handle that without the
   * cache has the same Statement.
   */
  function Off(c: Connection, d: Connection, off: set<nat>, op: Op): set<nat>
    requires Valid(c) && Applies(c, op) && |c.handles| == |d.handles|
  {
    if !op.Configure? then off
    else if op.handle in off then off + Aliases(d, op.handle) + {|c.handles|}
    else if Behind(c, op.handle).shared then off + {op.handle}
    else off
  }

  /** One handle on both sides: asked the same, or off and with fewer switches behind it in the cache. */
  ghost predicate ViewAt(c: Connection, d: Connection, off: set<nat>, h: nat)
    requires h < |c.handles| == |d.handles| && c.handles[h] < |c.heap| && d.handles[h] < |d.heap|
  {
    && Behind(c, h).sql == Behind(d, h).sql
    && (h !in off ==> Behind(c, h).applied == Behind(d, h).applied)
    && (h in off ==> |Behind(c, h).applied| < |Behind(d, h).applied|)
  }

  /**
   * Two handles on both sides. Handles that are not off share a Statement without the cache exactly
   * when they share a private one with it; private sharing is real sharing; being off spreads from
   * private handles to whatever shares with them; and prepared handles never share without the cache.
   */
  ghost predicate AliasAt(c: Connection, d: Connection, off: set<nat>, g: nat, h: nat)
    requires g < |c.handles| == |d.handles| && h < |c.handles|
    requires c.handles[g] < |c.heap| && c.handles[h] < |c.heap|
  {
    && (g !in off && h !in off ==>
          (d.handles[g] == d.handles[h] <==> c.handles[g] == c.handles[h] && !Behind(c, h).shared))
    && (c.handles[g] == c.handles[h] && !Behind(c, h).shared ==> d.handles[g] == d.handles[h])
    && (h in off && !Behind(c, h).shared && d.handles[g] == d.handles[h] ==> g in off)
    && (Behind(c, g).shared && Behind(c, h).shared ==> d.handles[g] != d.handles[h])
  }

  ghost predicate Comparable(c: Connection, d: Connection, off: set<nat>) {
    && Valid(c) && SharedPristine(c)
    && Valid(d) && d.order == [] && |c.handles| == |d.handles|
    && forall h | h in off :: h < |c.handles|
  }

  ghost predicate InStep(c: Connection, d: Connection, off: set<nat>) {
    && Comparable(c, d, off)
    && (forall h | 0 <= h < |c.handles| :: ViewAt(c, d, off, h))
    && (forall g, h | 0 <= g < |c.handles| && 0 <= h < |c.handles| && g != h :: AliasAt(c, d, off, g, h))
  }

  lemma DirectStaysValid(d: Connection, op: Op)
    requires Valid(d) && Applies(d, op) && d.order == []
    ensures var d1 := Direct(d, op).0;
            Valid(d1) && d1.order == [] && |d1.handles| == |d.handles| + if op.Exec? then 0 else 1
  {
  }

  lemma StaysComparable(c: Connection, d: Connection, off: set<nat>, op: Op)
    requires Comparable(c, d, off) && Applies(c, op)
    ensures Comparable(Cached(c, op).0, Direct(d, op).0, Off(c, d, off, op))
  {
    CacheStaysPristine(c, op);
    DirectStaysValid(d, op);
  }

  /** What a prepare with the cache leaves at each handle. */
  lemma PrepareHandles(c: Connection, sql: string, g: nat)
    requires Valid(c) && g <= |c.handles|
    ensures var c1, n := PrepareCached(c, sql), |c.handles|;
            && |c1.handles| == n + 1 && c1.handles[g] < |c1.heap|
            && (g < n ==> c1.handles[g] == c.handles[g] && Behind(c1, g) == Behind(c, g))
            && (g == n ==> Behind(c1, g) == Statement(sql, true, []))
  {
  }

  /** What a switch with the cache leaves at each handle. */
  lemma SwitchHandles(c: Connection, h: nat, call: Call, g: nat)
    requires Valid(c) && h < |c.handles| && g <= |c.handles|
    ensures var c1, n, s := Cached(c, Configure(h, call)).0, |c.handles|, Behind(c, h);
            && |c1.handles| == n + 1 && c1.handles[g] < |c1.heap|
            && (g < n ==>
                  c1.handles[g] == c.handles[g] &&
                  Behind(c1, g) == if !s.shared && c.handles[g] == c.handles[h] then s.(applied := s.applied + [call])
                                   else Behind(c, g))
            && (g == n && s.shared ==> c1.handles[g] == |c.heap| && Behind(c1, g) == Statement(s.sql, false, [call]))
            && (g == n && !s.shared ==>
                  c1.handles[g] == c.handles[h] && Behind(c1, g) == s.(applied := s.applied + [call]))
  {
  }

  /** And without it. */
  lemma DirectSwitchHandles(d: Connection, h: nat, call: Call, g: nat)
    requires Valid(d) && h < |d.handles| && g <= |d.handles|
    ensures var d1, n, s := Direct(d, Configure(h, call)).0, |d.handles|, Behind(d, h);
            && |d1.handles| == n + 1 && d1.handles[g] < |d1.heap|
            && (g < n ==>
                  d1.handles[g] == d.handles[g] &&
                  Behind(d1, g) == if d.handles[g] == d.handles[h] then s.(applied := s.applied + [call]) else Behind(d, g))
            && (g == n ==> d1.handles[g] == d.handles[h] && Behind(d1, g) == s.(applied := s.applied + [call]))
  {
  }

  lemma PrepareKeepsStep(c: Connection, d: Connection, off: set<nat>, sql: string)
    requires InStep(c, d, off)
    ensures InStep(Cached(c, Op.Prepare(sql)).0, Direct(d, Op.Prepare(sql)).0, off)
  {
    var c1, d1, n := PrepareCached(c, sql), New(d, Statement(sql, false, [])), |c.handles|;
    StaysComparable(c, d, off, Op.Prepare(sql));
    forall h | 0 <= h <= n ensures ViewAt(c1, d1, off, h) {
      PrepareHandles(c, sql, h);
      if h < n { assert ViewAt(c, d, off, h); }
    }
    forall g, h | 0 <= g <= n && 0 <= h <= n && g != h ensures AliasAt(c1, d1, off, g, h) {
      PrepareHandles(c, sql, g);
      PrepareHandles(c, sql, h);
      if g < n && h < n { assert AliasAt(c, d, off, g, h); }
    }
  }

  lemma SwitchKeepsView(c: Connection, d: Connection, off: set<nat>, h: nat, call: Call, g: nat)
    requires InStep(c, d, off) && h < |c.handles| && g <= |c.handles|
    requires var op := Configure(h, call); Comparable(Cached(c, op).0, Direct(d, op).0, Off(c, d, off, op))
    ensures var op := Configure(h, call); ViewAt(Cached(c, op).0, Direct(d, op).0, Off(c, d, off, op), g)
  {
    SwitchHandles(c, h, call, g);
    DirectSwitchHandles(d, h, call, g);
    assert ViewAt(c, d, off, h);
    if g < |c.handles| {
      assert ViewAt(c, d, off, g);
      if g != h { assert AliasAt(c, d, off, g, h) && AliasAt(c, d, off, h, g); }
    }
  }

  lemma SwitchKeepsAlias(c: Connection, d: Connection, off: set<nat>, h: nat, call: Call, f: nat, g: nat)
    requires InStep(c, d, off) && h < |c.handles| && f <= |c.handles| && g <= |c.handles| && f != g
    requires var op := Configure(h, call); Comparable(Cached(c, op).0, Direct(d, op).0, Off(c, d, off, op))
    ensures var op := Configure(h, call); AliasAt(Cached(c, op).0, Direct(d, op).0, Off(c, d, off, op), f, g)
  {
    SwitchHandles(c, h, call, f);
    SwitchHandles(c, h, call, g);
    DirectSwitchHandles(d, h, call, f);
    DirectSwitchHandles(d, h, call, g);
    var n := |c.handles|;
    if f < n && g < n { assert AliasAt(c, d, off, f, g); }
    if f < n && f != h { assert AliasAt(c, d, off, f, h) && AliasAt(c, d, off, h, f); }
    if g < n && g != h { assert AliasAt(c, d, off, g, h) && AliasAt(c, d, off, h, g); }
  }

  lemma SwitchKeepsStep(c: Connection, d: Connection, off: set<nat>, h: nat, call: Call)
    requires InStep(c, d, off) && h < |c.handles|
    ensures var op := Configure(h, call); InStep(Cached(c, op).0, Direct(d, op).0, Off(c, d, off, op))
  {
    var op := Configure(h, call);
    StaysComparable(c, d, off, op);
    forall g | 0 <= g <= |c.handles| ensures ViewAt(Cached(c, op).0, Direct(d, op).0, Off(c, d, off, op), g) {
      SwitchKeepsView(c, d, off, h, call, g);
    }
    forall f, g | 0 <= f <= |c.handles| && 0 <= g <= |c.handles| && f != g
      ensures AliasAt(Cached(c, op).0, Direct(d, op).0, Off(c, d, off, op), f, g)
    {
      SwitchKeepsAlias(c, d, off, h, call, f, g);
    }
  }

  /** A query on a handle that is off. */
  predicate QueriesOff(off: set<nat>, op: Op) {
    op.Exec? && op.handle in off
  }

  /**
   * For every operation whatsoever: the engine is asked the same with and without the cache if and
   * only if it is no query on a handle that is off; and the two stay in step.
   */
  lemma AgreesIffNotOff(c: Connection, d: Connection, off: set<nat>, op: Op)
    requires InStep(c, d, off) && Applies(c, op)
    ensures Cached(c, op).1 == Direct(d, op).1 <==> !QueriesOff(off, op)
    ensures InStep(Cached(c, op).0, Direct(d, op).0, Off(c, d, off, op))
  {
    match op
    case Prepare(sql) => PrepareKeepsStep(c, d, off, sql);
    case Configure(h, call) => SwitchKeepsStep(c, d, off, h, call);
    case Exec(h, _) => assert ViewAt(c, d, off, h);
  }

  /** Chained use: once a prepared handle was switched, the caller goes on with what that returned. */
  predicate Chained(off: set<nat>, op: Op) {
    op.Prepare? || op.handle !in off
  }

  /** It cannot tell the two apart, and puts off only the prepared handles it has switched. */
  lemma ChainedUseAgrees(c: Connection, d: Connection, off: set<nat>, op: Op)
    requires InStep(c, d, off) && Applies(c, op) && Chained(off, op)
    ensures Cached(c, op).1 == Direct(d, op).1
    ensures InStep(Cached(c, op).0, Direct(d, op).0, Off(c, d, off, op))
    ensures Off(c, d, off, op) == if op.Configure? && Behind(c, op.handle).shared then off + {op.handle} else off
  {
    AgreesIffNotOff(c, d, off, op);
  }

  datatype Pair = Pair(c: Connection, d: Connection, off: set<nat>)

  ghost function Advance(p: Pair, op: Op): Pair
    requires Valid(p.c) && Valid(p.d) && |p.c.handles| == |p.d.handles| && Applies(p.c, op)
  {
    Pair(Cached(p.c, op).0, Direct(p.d, op).0, Off(p.c, p.d, p.off, op))
  }

  /** All callers' operations, interleaved in any order, each on handles that exist by then. */
  ghost predicate Program(p: Pair, ops: seq<Op>)
    decreases |ops|
  {
    ops == [] ||
    (Valid(p.c) && Valid(p.d) && |p.c.handles| == |p.d.handles| && Applies(p.c, ops[0])
     && Program(Advance(p, ops[0]), ops[1..]))
  }

  /** Which of a program's operations query a handle that is off by then. */
  ghost function OffQueries(p: Pair, ops: seq<Op>): (r: seq<bool>)
    requires Program(p, ops)
    ensures |r| == |ops|
    decreases |ops|
  {
    if ops == [] then [] else [QueriesOff(p.off, ops[0])] + OffQueries(Advance(p, ops[0]), ops[1..])
  }

  ghost function CachedOutcomes(c: Connection, ops: seq<Op>): seq<Outcome>
    decreases |ops|
  {
    if ops == [] || !Valid(c) || !Applies(c, ops[0]) then []
    else [Cached(c, ops[0]).1] + CachedOutcomes(Cached(c, ops[0]).0, ops[1..])
  }

  ghost function DirectOutcomes(d: Connection, ops: seq<Op>): seq<Outcome>
    decreases |ops|
  {
    if ops == [] || !Valid(d) || !Applies(d, ops[0]) then []
    else [Direct(d, ops[0]).1] + DirectOutcomes(Direct(d, ops[0]).0, ops[1..])
  }

  /** Two lists agree exactly where the marks say they do. */
  ghost predicate DifferAt(cached: seq<Outcome>, direct: seq<Outcome>, marks: seq<bool>) {
    |cached| == |direct| == |marks| && forall i | 0 <= i < |marks| :: cached[i] == direct[i] <==> !marks[i]
  }

  lemma DifferAtFirst(x: Outcome, cached: seq<Outcome>, y: Outcome, direct: seq<Outcome>, mark: bool, marks: seq<bool>)
    requires DifferAt(cached, direct, marks) && (x == y <==> !mark)
    ensures DifferAt([x] + cached, [y] + direct, [mark] + marks)
  {
  }

  /**
   * Over any interleaving of callers doing anything at all, the operations at which the engine is
   * asked something else than without the cache are exactly the queries on handles that are off.
   */
  lemma {:induction false} CacheShowsIffOff(p: Pair, ops: seq<Op>)
    requires InStep(p.c, p.d, p.off) && Program(p, ops)
    ensures DifferAt(CachedOutcomes(p.c, ops), DirectOutcomes(p.d, ops), OffQueries(p, ops))
    decreases |ops|
  {
    if ops != [] {
      var op, q := ops[0], Advance(p, ops[0]);
      AgreesIffNotOff(p.c, p.d, p.off, op);
      CacheShowsIffOff(q, ops[1..]);
      DifferAtFirst(
        Cached(p.c, op).1, CachedOutcomes(q.c, ops[1..]), Direct(p.d, op).1, DirectOutcomes(q.d, ops[1..]),
        QueriesOff(p.off, op), OffQueries(q, ops[1..]));
    }
  }

  /** Callers who never query a handle that is off cannot tell the cache from compiling every time. */
  lemma CacheIsInvisible(p: Pair, ops: seq<Op>)
    requires InStep(p.c, p.d, p.off) && Program(p, ops)
    requires forall i | 0 <= i < |ops| :: !OffQueries(p, ops)[i]
    ensures CachedOutcomes(p.c, ops) == DirectOutcomes(p.d, ops)
  {
    CacheShowsIffOff(p, ops);
  }

  /** Every program starts in step: an empty cache beside no cache. */
  lemma FreshConnectionsAreInStep()
    ensures var c := Connection([], [], [], map[]); InStep(c, c, {})
  {
  }

  /** With the cache a second switch on a prepared handle leaves what the first returned alone. */
  lemma CachedSecondSwitch(c: Connection, h: nat, first: Call, second: Call) returns (c1: Connection, c2: Connection)
    requires Valid(c) && SharedPristine(c) && h < |c.handles| && Behind(c, h).shared
    ensures c1 == Cached(c, Configure(h, first)).0 && Valid(c1) && h < |c1.handles|
    ensures c2 == Cached(c1, Configure(h, second)).0 && Valid(c2) && |c.handles| < |c2.handles|
    ensures Behind(c2, |c.handles|) == Statement(Behind(c, h).sql, false, [first])
  {
    c1 := Cached(c, Configure(h, first)).0;
    CacheStaysPristine(c, Configure(h, first));
    SwitchHandles(c, h, first, h);
    SwitchHandles(c, h, first, |c.handles|);
    c2 := Cached(c1, Configure(h, second)).0;
    CacheStaysPristine(c1, Configure(h, second));
    SwitchHandles(c1, h, second, |c.handles|);
  }

  /** Without the cache both handles have one Statement, and it takes both switches. */
  lemma DirectSecondSwitch(d: Connection, h: nat, first: Call, second: Call) returns (d1: Connection, d2: Connection)
    requires Valid(d) && d.order == [] && h < |d.handles| && Behind(d, h).applied == []
    ensures d1 == Direct(d, Configure(h, first)).0 && Valid(d1) && h < |d1.handles|
    ensures d2 == Direct(d1, Configure(h, second)).0 && Valid(d2) && |d.handles| < |d2.handles|
    ensures Behind(d2, |d.handles|).sql == Behind(d, h).sql && Behind(d2, |d.handles|).applied == [first, second]
  {
    d1 := Direct(d, Configure(h, first)).0;
    DirectStaysValid(d, Configure(h, first));
    DirectSwitchHandles(d, h, first, h);
    DirectSwitchHandles(d, h, first, |d.handles|);
    d2 := Direct(d1, Configure(h, second)).0;
    DirectStaysValid(d1, Configure(h, second));
    DirectSwitchHandles(d1, h, second, |d.handles|);
    assert [] + [first] == [first] && [first] + [second] == [first, second];
  }

  /**
   * A second switch on a prepared handle reaches into the chain of the first: the statement that one
   * returned is asked with both switches without the cache, with the first alone with it.
   */
  lemma SecondSwitchShows(c: Connection, d: Connection, off: set<nat>, h: nat, first: Call, second: Call, args: seq<string>)
    requires InStep(c, d, off) && h < |c.handles| && h !in off && Behind(c, h).shared
    ensures var ops, sql := [Configure(h, first), Configure(h, second), Exec(|c.handles|, args)], Behind(c, h).sql;
            && CachedOutcomes(c, ops) == [Nothing, Nothing, Query(sql, [first], args)]
            && DirectOutcomes(d, ops) == [Nothing, Nothing, Query(sql, [first, second], args)]
  {
    var op1, op2, op3 := Configure(h, first), Configure(h, second), Exec(|c.handles|, args);
    assert ViewAt(c, d, off, h);
    var c1, c2 := CachedSecondSwitch(c, h, first, second);
    var d1, d2 := DirectSecondSwitch(d, h, first, second);
    assert [op1, op2, op3] == [op1] + ([op2] + ([op3] + []));
    OutcomesOfFirst(c, d, op1, [op2] + ([op3] + []));
    OutcomesOfFirst(c1, d1, op2, [op3] + []);
    OutcomesOfFirst(c2, d2, op3, []);
  }

  lemma OutcomesOfFirst(c: Connection, d: Connection, op: Op, rest: seq<Op>)
    requires Valid(c) && Applies(c, op) && Valid(d) && Applies(d, op)
    ensures CachedOutcomes(c, [op] + rest) == [Cached(c, op).1] + CachedOutcomes(Cached(c, op).0, rest)
    ensures DirectOutcomes(d, [op] + rest) == [Direct(d, op).1] + DirectOutcomes(Direct(d, op).0, rest)
  {
    assert ([op] + rest)[1..] == rest;
  }

  // ---- the code ---------------------------------------------------------------------------------

  ghost predicate Tracks(c: Connection, history: seq<string>) {
    Valid(c) && SharedPristine(c) && c.order == Newest(LastUses(history), STATEMENT_CACHE_MAX)
  }

  lemma PrepareTracks(c: Connection, history: seq<string>, sql: string)
    requires Tracks(c, history)
    ensures Tracks(PrepareCached(c, sql), history + [sql])
    ensures var h := |c.handles|; Behind(PrepareCached(c, sql), h) == Statement(sql, true, [])
  {
    CacheStaysPristine(c, Op.Prepare(sql));
    LastUsesAreDistinct(history);
    TouchIsNewest(LastUses(history), sql, STATEMENT_CACHE_MAX);
    LastUsesSnoc(history, sql);
  }

  /** The map never holds anything but the 500 most recent distinct texts. */
  lemma FiveHundredNewest(c: Connection, history: seq<string>)
    requires Tracks(c, history)
    ensures |c.order| <= 500 && c.order == (if |LastUses(history)| <= 500 then LastUses(history)
                                           else LastUses(history)[|LastUses(history)| - 500..])
    ensures forall sql :: sql in c.cache <==> sql in c.order
  {
  }

  class Database {
    var heap: seq<Statement>
    var order: seq<string>
    var cache: map<string, nat>
    ghost var handles: seq<nat>
    ghost var history: seq<string>

    ghost function State(): Connection
      reads this
    {
      Connection(heap, handles, order, cache)
    }

    ghost predicate Invariant()
      reads this
    {
      Tracks(State(), history)
    }

    constructor ()
      ensures Invariant() && State() == Connection([], [], [], map[]) && history == []
    {
      heap, order, cache, handles, history := [], [], map[], [], [];
    }

    method Prepare(sql: string) returns (stmt: nat)
      requires Invariant()
      modifies this
      ensures Invariant() && history == old(history) + [sql]
      ensures State() == Cached(old(State()), Op.Prepare(sql)).0
      ensures stmt < |heap| && heap[stmt] == Statement(sql, true, [])
    {
      PrepareTracks(State(), history, sql);
      history := history + [sql];
      if sql in cache {
        stmt := cache[sql];
        order := Remove(order, sql) + [sql];
      } else {
        RemoveAbsent(order, sql);
        stmt := |heap|;
        heap := heap + [Statement(sql, true, [])];
        cache := cache[sql := stmt];
        order := order + [sql];
        if |order| > STATEMENT_CACHE_MAX {
          cache := cache - {order[0]};
          order := order[1..];
        }
      }
      handles := handles + [stmt];
      assert State() == PrepareCached(old(State()), sql);
    }

    /** A stateful method called on a statement, shared or not: returns the statement to go on with. */
    method CallStateful(stmt: nat, call: Call, ghost handle: nat) returns (next: nat)
      requires Invariant() && handle < |handles| && handles[handle] == stmt
      modifies this
      ensures Invariant() && history == old(history)
      ensures State() == Cached(old(State()), Configure(handle, call)).0
      ensures next < |heap| && heap[next].sql == old(heap[stmt].sql) && !heap[next].shared &&
              heap[next].applied == (if old(heap[stmt].shared) then [] else old(heap[stmt].applied)) + [call]
    {
      CacheStaysPristine(State(), Configure(handle, call));
      if heap[stmt].shared {
        next := |heap|;
        heap := heap + [Statement(heap[stmt].sql, false, [call])];
      } else {
        next := stmt;
        heap := heap[stmt := heap[stmt].(applied := heap[stmt].applied + [call])];
      }
      handles := handles + [next];
    }
  }
}
