/**
 * Lazy schema upgrades of tenant files (packages/tenant, migrate): any number of openers of one
 * SQLite file, each with its own release's list of steps, race through an unlocked version check,
 * a wait for the IMMEDIATE lock, a second check, the steps, and one commit.
 *
 * Steps are only ever appended between releases, so an opener's list is a prefix of `all`.
 */
module TenantMigration {
  import opened Text

  /** Runs one step on the file's content; None where the step throws. */
  type Runner<!S, !D> = (S, D) -> Option<D>

  /** `log` is the history of steps whose effect is committed in `data`. */
  datatype File<S, D> = File(version: nat, data: D, log: seq<S>)

  datatype Phase<S, D> =
    | Checking
    | Waiting
    | Upgrading(i: nat, data: D, ran: seq<S>)
    | Opened
    | Failed

  datatype Opener<S, D> = Opener(length: nat, phase: Phase<S, D>)

  datatype State<S, D> = State(file: File<S, D>, lock: Option<nat>, openers: seq<Opener<S, D>>)

  datatype Event =
    | Check(k: nat)
    | Lock(k: nat)
    | RunStep(k: nat)
    | Commit(k: nat)
    | GiveUp(k: nat) // lock timeout, or the process dies: SQLite rolls the transaction back

  function SetPhase<S, D>(s: State<S, D>, k: nat, phase: Phase<S, D>): State<S, D>
    requires k < |s.openers|
  {
    s.(openers := s.openers[k := s.openers[k].(phase := phase)])
  }

  predicate Enabled<S, D>(s: State<S, D>, e: Event) {
    e.k < |s.openers| &&
    var me := s.openers[e.k];
    match e
    case Check(_) => me.phase.Checking?
    case Lock(_) => me.phase.Waiting? && s.lock == None
    case RunStep(_) => me.phase.Upgrading? && me.phase.i < me.length
    case Commit(_) => me.phase.Upgrading? && me.phase.i >= me.length
    case GiveUp(_) => me.phase.Waiting? || me.phase.Upgrading?
  }

  function Next<S, D>(run: Runner<S, D>, all: seq<S>, s: State<S, D>, e: Event): State<S, D> {
    if !Enabled(s, e) then s
    else
      var me := s.openers[e.k];
      match e
      case Check(k) => SetPhase(s, k, if s.file.version >= me.length then Opened else Waiting)
      case Lock(k) => SetPhase(s.(lock := Some(k)), k, Upgrading(s.file.version, s.file.data, []))
      case RunStep(k) =>
        if me.phase.i >= |all| then s
        else
          (match run(all[me.phase.i], me.phase.data)
           case None => SetPhase(s.(lock := None), k, Failed)
           case Some(d) => SetPhase(s, k, Upgrading(me.phase.i + 1, d, me.phase.ran + [all[me.phase.i]])))
      case Commit(k) =>
        SetPhase(s.(lock := None, file := File(me.length, me.phase.data, s.file.log + me.phase.ran)), k, Opened)
      case GiveUp(k) =>
        SetPhase(if me.phase.Upgrading? then s.(lock := None) else s, k, Failed)
  }

  function Run<S, D>(run: Runner<S, D>, all: seq<S>, s: State<S, D>, es: seq<Event>): State<S, D> {
    if es == [] then s else Next(run, all, Run(run, all, s, es[..|es| - 1]), es[|es| - 1])
  }

  // ---- what a file at version v holds -----------------------------------------------------------

  /** The content after the given steps, run once each and in order on an empty file. */
  function Replay<S, D>(run: Runner<S, D>, steps: seq<S>, empty: D): Option<D> {
    if steps == [] then Some(empty)
    else
      match Replay(run, steps[..|steps| - 1], empty)
      case None => None
      case Some(d) => run(steps[|steps| - 1], d)
  }

  /** The committed log is exactly the first `version` steps, and the content is their replay. */
  ghost predicate Sound<S, D>(run: Runner<S, D>, all: seq<S>, empty: D, f: File<S, D>) {
    && f.version <= |all|
    && f.log == all[..f.version]
    && Replay(run, all[..f.version], empty) == Some(f.data)
  }

  ghost predicate InTransaction<S, D>(run: Runner<S, D>, all: seq<S>, empty: D, f: File<S, D>, o: Opener<S, D>)
    requires o.phase.Upgrading?
  {
    && f.version <= o.phase.i <= |all|
    && (o.phase.i <= o.length || o.phase.i == f.version)
    && o.phase.ran == all[f.version..o.phase.i]
    && Replay(run, all[..o.phase.i], empty) == Some(o.phase.data)
  }

  ghost predicate Good<S, D>(run: Runner<S, D>, all: seq<S>, empty: D, s: State<S, D>) {
    && Sound(run, all, empty, s.file)
    && (forall k | 0 <= k < |s.openers| :: s.openers[k].length <= |all|)
    && (forall k | 0 <= k < |s.openers| :: s.openers[k].phase.Upgrading? <==> s.lock == Some(k))
    && (forall k | 0 <= k < |s.openers| && s.openers[k].phase.Upgrading? ::
          InTransaction(run, all, empty, s.file, s.openers[k]))
  }

  /** The one unsafe moment: committing under a lock whose re-read found the file ahead of the list. */
  predicate CommitsBehind<S, D>(s: State<S, D>, e: Event) {
    e.Commit? && Enabled(s, e) && s.file.version > s.openers[e.k].length
  }

  lemma RunStepStaysGood<S, D>(run: Runner<S, D>, all: seq<S>, empty: D, s: State<S, D>, k: nat)
    requires Good(run, all, empty, s) && Enabled(s, RunStep(k))
    ensures Good(run, all, empty, Next(run, all, s, RunStep(k)))
  {
    var i := s.openers[k].phase.i;
    assert all[..i + 1][..i] == all[..i];
    assert all[s.file.version..i] + [all[i]] == all[s.file.version..i + 1];
  }

  lemma CommitGoodIff<S, D>(run: Runner<S, D>, all: seq<S>, empty: D, s: State<S, D>, k: nat)
    requires Good(run, all, empty, s) && Enabled(s, Commit(k))
    ensures var t := Next(run, all, s, Commit(k));
            && (Good(run, all, empty, t) <==> s.file.version <= s.openers[k].length)
            && s.file.log <= t.file.log
  {
    var me, t := s.openers[k], Next(run, all, s, Commit(k));
    assert InTransaction(run, all, empty, s.file, me);
    assert all[..s.file.version] + all[s.file.version..me.phase.i] == all[..me.phase.i];
    if s.file.version > me.length {
      assert |t.file.log| == me.phase.i;
    } else {
      assert me.phase.i == me.length;
      forall j | 0 <= j < |t.openers| ensures !t.openers[j].phase.Upgrading? {
        assert j != k ==> t.openers[j] == s.openers[j];
      }
    }
  }

  lemma OtherStepsStayGood<S, D>(run: Runner<S, D>, all: seq<S>, empty: D, s: State<S, D>, e: Event)
    requires Good(run, all, empty, s) && Enabled(s, e) && (e.Check? || e.Lock? || e.GiveUp?)
    ensures Good(run, all, empty, Next(run, all, s, e)) && Next(run, all, s, e).file == s.file
  {
    if e.Lock? { assert all[s.file.version..s.file.version] == []; }
  }

  /** One event keeps the file exact if and only if it is not a commit from a shorter list. */
  lemma StepSoundIff<S, D>(run: Runner<S, D>, all: seq<S>, empty: D, s: State<S, D>, e: Event)
    requires Good(run, all, empty, s)
    ensures Good(run, all, empty, Next(run, all, s, e)) <==> !CommitsBehind(s, e)
    ensures !CommitsBehind(s, e) ==> s.file.log <= Next(run, all, s, e).file.log
  {
    if Enabled(s, e) {
      match e
      case RunStep(k) => RunStepStaysGood(run, all, empty, s, k);
      case Commit(k) => CommitGoodIff(run, all, empty, s, k);
      case Check(_) => OtherStepsStayGood(run, all, empty, s, e);
      case Lock(_) => OtherStepsStayGood(run, all, empty, s, e);
      case GiveUp(_) => OtherStepsStayGood(run, all, empty, s, e);
    }
  }

  /** No step of the run commits from a list shorter than the locked version. */
  predicate NeverBehind<S, D>(run: Runner<S, D>, all: seq<S>, s: State<S, D>, es: seq<Event>) {
    es == [] ||
    (NeverBehind(run, all, s, es[..|es| - 1]) && !CommitsBehind(Run(run, all, s, es[..|es| - 1]), es[|es| - 1]))
  }

  /** In every state the run goes through. */
  ghost predicate GoodThroughout<S, D>(run: Runner<S, D>, all: seq<S>, empty: D, s: State<S, D>, es: seq<Event>) {
    Good(run, all, empty, Run(run, all, s, es)) && (es != [] ==> GoodThroughout(run, all, empty, s, es[..|es| - 1]))
  }

  /** Openers of any mix of releases keep the file exact throughout a run if and only if none commits behind. */
  lemma {:induction false} RunSoundIff<S, D>(run: Runner<S, D>, all: seq<S>, empty: D, s: State<S, D>, es: seq<Event>)
    requires Good(run, all, empty, s)
    ensures GoodThroughout(run, all, empty, s, es) <==> NeverBehind(run, all, s, es)
  {
    if es != [] {
      var front := es[..|es| - 1];
      RunSoundIff(run, all, empty, s, front);
      if GoodThroughout(run, all, empty, s, front) { StepSoundIff(run, all, empty, Run(run, all, s, front), es[|es| - 1]); }
    }
  }

  /** Openers of one release share a list: they can never commit behind. */
  ghost predicate Shared<S, D>(n: nat, s: State<S, D>) {
    && s.file.version <= n
    && (forall k | 0 <= k < |s.openers| :: s.openers[k].length == n)
    && (forall k | 0 <= k < |s.openers| && s.openers[k].phase.Opened? :: s.file.version == n)
  }

  ghost predicate Fresh<S, D>(s: State<S, D>) {
    s.lock == None && forall k | 0 <= k < |s.openers| :: s.openers[k].phase == Checking
  }

  /**
   * Any number of openers of one list, under every interleaving, failure and crash: the log is
   * always exactly the first `version` steps, so each step is committed at most once and in order;
   * the file is at its old version or fully upgraded, never between; and an opener that got its
   * handle got it on an upgraded file.
   */
  lemma {:induction false} SharedListUpgradesOnce<S, D>(
    run: Runner<S, D>, all: seq<S>, empty: D, s: State<S, D>, n: nat, es: seq<Event>)
    requires Good(run, all, empty, s) && Shared(n, s) && Fresh(s)
    ensures var t := Run(run, all, s, es);
            && Good(run, all, empty, t) && Shared(n, t)
            && t.file.version in {s.file.version, n}
            && (t.file.version == s.file.version ==> t.file == s.file)
            && s.file.log <= t.file.log
  {
    if es != [] {
      var front := es[..|es| - 1];
      SharedListUpgradesOnce(run, all, empty, s, n, front);
      var mid := Run(run, all, s, front);
      StepSoundIff(run, all, empty, mid, es[|es| - 1]);
    }
  }

  /** A file at or past every opener's list is opened unchanged, whatever the interleaving. */
  lemma {:induction false} AheadIsUntouched<S, D>(
    run: Runner<S, D>, all: seq<S>, s: State<S, D>, es: seq<Event>)
    requires Fresh(s) && forall k | 0 <= k < |s.openers| :: s.openers[k].length <= s.file.version
    ensures var t := Run(run, all, s, es);
            && t.file == s.file && t.lock == None && |t.openers| == |s.openers|
            && forall k | 0 <= k < |s.openers| ::
                 t.openers[k].length == s.openers[k].length && t.openers[k].phase in {Checking, Opened}
  {
    if es != [] { AheadIsUntouched(run, all, s, es[..|es| - 1]); }
  }

  /**
   * Openers of different releases break the promise: both see a file behind, the newer one
   * upgrades it, and the older one, now holding the lock with nothing to run, writes its shorter
   * length back. The next opener runs the last step a second time.
   */
  lemma OlderReleaseRepeatsAStep()
    ensures var race := [Check(0), Check(1), Lock(1), RunStep(1)] + [RunStep(1), Commit(1), Lock(0), Commit(0)];
            var next := [Check(2), Lock(2), RunStep(2), Commit(2)];
            && Run(CountSteps, [7, 8], TwoReleases(), race).file == File(1, 2, [7, 8])
            && Run(CountSteps, [7, 8], Run(CountSteps, [7, 8], TwoReleases(), race), next).file == File(2, 3, [7, 8, 8])
  {
    var t := RunFour(CountSteps, [7, 8], TwoReleases(), Check(0), Check(1), Lock(1), RunStep(1));
    assert [] + [7] == [7];
    assert t == State(File(0, 0, []), Some(1), [Opener(1, Waiting), Opener(2, Upgrading(1, 1, [7])), Opener(2, Checking)]);
    var u := ShorterListCommits(t);
    RunConcat(CountSteps, [7, 8], TwoReleases(),
      [Check(0), Check(1), Lock(1), RunStep(1)], [RunStep(1), Commit(1), Lock(0), Commit(0)]);
    var v := RunFour(CountSteps, [7, 8], u, Check(2), Lock(2), RunStep(2), Commit(2));
    assert [] + [8] == [8] && [7, 8] + [8] == [7, 8, 8];
  }

  function CountSteps(step: int, d: int): Option<int> {
    Some(d + 1)
  }

  function TwoReleases(): State<int, int> {
    State(File(0, 0, []), None, [Opener(1, Checking), Opener(2, Checking), Opener(2, Checking)])
  }

  lemma ShorterListCommits(t: State<int, int>) returns (u: State<int, int>)
    requires t == State(File(0, 0, []), Some(1), [Opener(1, Waiting), Opener(2, Upgrading(1, 1, [7])), Opener(2, Checking)])
    ensures u == Run(CountSteps, [7, 8], t, [RunStep(1), Commit(1), Lock(0), Commit(0)])
    ensures u == State(File(1, 2, [7, 8]), None, [Opener(1, Opened), Opener(2, Opened), Opener(2, Checking)])
  {
    u := RunFour(CountSteps, [7, 8], t, RunStep(1), Commit(1), Lock(0), Commit(0));
    assert [7] + [8] == [7, 8] && [] + [7, 8] == [7, 8] && [7, 8] + [] == [7, 8];
  }

  lemma RunFour<S, D>(run: Runner<S, D>, all: seq<S>, s: State<S, D>, e1: Event, e2: Event, e3: Event, e4: Event)
    returns (t: State<S, D>)
    ensures t == Run(run, all, s, [e1, e2, e3, e4])
    ensures t == Next(run, all, Next(run, all, Next(run, all, Next(run, all, s, e1), e2), e3), e4)
  {
    t := Run(run, all, s, [e1, e2, e3, e4]);
    assert [e1, e2, e3, e4][..3] == [e1, e2, e3];
    assert [e1, e2, e3][..2] == [e1, e2];
    assert [e1, e2][..1] == [e1];
    assert [e1][..0] == [];
    assert Run(run, all, s, []) == s;
    assert Run(run, all, s, [e1]) == Next(run, all, s, e1);
    assert Run(run, all, s, [e1, e2]) == Next(run, all, Run(run, all, s, [e1]), e2);
    assert Run(run, all, s, [e1, e2, e3]) == Next(run, all, Run(run, all, s, [e1, e2]), e3);
  }

  lemma {:induction false} RunConcat<S, D>(
    run: Runner<S, D>, all: seq<S>, s: State<S, D>, es1: seq<Event>, es2: seq<Event>)
    ensures Run(run, all, s, es1 + es2) == Run(run, all, Run(run, all, s, es1), es2)
  {
    if es2 == [] {
      assert es1 + es2 == es1;
    } else {
      assert (es1 + es2)[..|es1 + es2| - 1] == es1 + es2[..|es2| - 1];
      RunConcat(run, all, s, es1, es2[..|es2| - 1]);
    }
  }

  // ---- an opener gets through, or out of the way ----------------------------------------------------------

  /** A step that throws, a lock timeout and a crash leave the file as it was and nobody else waiting for long. */
  lemma FailureFreesTheLock<S, D>(run: Runner<S, D>, all: seq<S>, empty: D, s: State<S, D>, e: Event)
    requires Good(run, all, empty, s) && Enabled(s, e)
    requires e.GiveUp? || (e.RunStep? && run(all[s.openers[e.k].phase.i], s.openers[e.k].phase.data) == None)
    ensures var t := Next(run, all, s, e);
            && t.file == s.file && t.openers[e.k].phase == Failed && t.lock != Some(e.k)
            && (s.openers[e.k].phase.Upgrading? ==> t.lock == None)
            && forall k | 0 <= k < |s.openers| && k != e.k :: t.openers[k] == s.openers[k]
  {
  }

  function RunSteps(k: nat, n: nat): seq<Event> {
    if n == 0 then [] else [RunStep(k)] + RunSteps(k, n - 1)
  }

  lemma RunFirst<S, D>(run: Runner<S, D>, all: seq<S>, s: State<S, D>, e: Event, es: seq<Event>)
    ensures Run(run, all, s, [e] + es) == Run(run, all, Next(run, all, s, e), es)
  {
    RunConcat(run, all, s, [e], es);
    assert [e][..0] == [] && Run(run, all, s, []) == s;
    assert Run(run, all, s, [e]) == Next(run, all, s, e);
  }

  lemma SetPhaseTwice<S, D>(s: State<S, D>, k: nat, a: Phase<S, D>, b: Phase<S, D>)
    requires k < |s.openers|
    ensures SetPhase(SetPhase(s, k, a), k, b) == SetPhase(s, k, b)
  {
    var me := s.openers[k];
    assert s.openers[k := me.(phase := a)][k := me.(phase := b)] == s.openers[k := me.(phase := b)];
  }

  /** One step that does not throw: the transaction moves on towards the same result. */
  lemma StepOnce<S, D>(run: Runner<S, D>, all: seq<S>, s: State<S, D>, k: nat) returns (next: Phase<S, D>)
    requires k < |s.openers| && s.openers[k].phase.Upgrading?
    requires s.openers[k].phase.i < s.openers[k].length <= |all| && Remaining(run, all, s.openers[k]) != None
    ensures next.Upgrading? && next.i == s.openers[k].phase.i + 1
    ensures Next(run, all, s, RunStep(k)) == SetPhase(s, k, next)
    ensures Remaining(run, all, s.openers[k].(phase := next)) == Remaining(run, all, s.openers[k])
  {
    var me := s.openers[k];
    assert all[..me.length][me.phase.i] == all[me.phase.i];
    var d := run(all[me.phase.i], me.phase.data);
    next := Upgrading(me.phase.i + 1, d.value, me.phase.ran + [all[me.phase.i]]);
  }

  lemma OneStepMore<S, D>(
    run: Runner<S, D>, all: seq<S>, s: State<S, D>, k: nat, next: Phase<S, D>, es: seq<Event>, end: Phase<S, D>)
    requires k < |s.openers| && Next(run, all, s, RunStep(k)) == SetPhase(s, k, next)
    requires Run(run, all, SetPhase(s, k, next), es) == SetPhase(SetPhase(s, k, next), k, end)
    ensures Run(run, all, s, [RunStep(k)] + es) == SetPhase(s, k, end)
  {
    RunFirst(run, all, s, RunStep(k), es);
    SetPhaseTwice(s, k, next, end);
  }

  /** Where the transaction ends when no step throws. */
  ghost function Finished<S, D>(run: Runner<S, D>, all: seq<S>, o: Opener<S, D>): Phase<S, D>
    requires o.length <= |all| && o.phase.Upgrading? && Remaining(run, all, o) != None
  {
    Upgrading(o.length, Remaining(run, all, o).value.0, Remaining(run, all, o).value.1)
  }

  lemma {:induction false} StepsRun<S, D>(run: Runner<S, D>, all: seq<S>, s: State<S, D>, k: nat, n: nat)
    requires k < |s.openers| && s.openers[k].phase.Upgrading?
    requires s.openers[k].phase.i + n == s.openers[k].length <= |all| && Remaining(run, all, s.openers[k]) != None
    ensures Run(run, all, s, RunSteps(k, n)) == SetPhase(s, k, Finished(run, all, s.openers[k]))
    decreases n
  {
    if n == 0 {
      assert s.openers[k := s.openers[k]] == s.openers;
    } else {
      var next := StepOnce(run, all, s, k);
      var t := SetPhase(s, k, next);
      assert t.openers[k] == s.openers[k].(phase := next);
      StepsRun(run, all, t, k, n - 1);
      OneStepMore(run, all, s, k, next, RunSteps(k, n - 1), Finished(run, all, s.openers[k]));
    }
  }

  /** What an opener that meets nobody does, from its check to its commit. */
  function UpgradeOf(k: nat, n: nat): seq<Event> {
    [Check(k)] + ([Lock(k)] + (RunSteps(k, n) + [Commit(k)]))
  }

  /**
   * An opener that finds the file behind, the lock free and no step throwing upgrades it all the way
   * and gets its handle; the lock is free again.
   */
  lemma UndisturbedOpenerUpgrades<S, D>(run: Runner<S, D>, all: seq<S>, s: State<S, D>, k: nat)
    requires k < |s.openers| && s.openers[k].phase == Checking && s.lock == None
    requires s.file.version < s.openers[k].length <= |all|
    requires Outcome(run, all, s.file, s.openers[k].length) != None
    ensures var n := s.openers[k].length;
            var r := Outcome(run, all, s.file, n).value;
            Run(run, all, s, UpgradeOf(k, n - s.file.version)) ==
              SetPhase(s.(file := File(n, r.0, s.file.log + r.1)), k, Opened)
  {
    var n := s.openers[k].length;
    var steps := RunSteps(k, n - s.file.version);
    var start := Upgrading(s.file.version, s.file.data, []);
    var locked := SetPhase(s.(lock := Some(k)), k, start);
    CheckAndLock(run, all, s, k, steps + [Commit(k)]);
    StepsRun(run, all, locked, k, n - s.file.version);
    RunConcat(run, all, locked, steps, [Commit(k)]);
    CommitEnds(run, all, s, k, start, Outcome(run, all, s.file, n).value);
  }

  lemma CheckAndLock<S, D>(run: Runner<S, D>, all: seq<S>, s: State<S, D>, k: nat, es: seq<Event>)
    requires k < |s.openers| && s.openers[k].phase == Checking && s.lock == None
    requires s.file.version < s.openers[k].length
    ensures Run(run, all, s, [Check(k)] + ([Lock(k)] + es)) ==
      Run(run, all, SetPhase(s.(lock := Some(k)), k, Upgrading(s.file.version, s.file.data, [])), es)
  {
    RunFirst(run, all, s, Check(k), [Lock(k)] + es);
    SetPhaseTwice(s.(lock := Some(k)), k, Waiting, Upgrading(s.file.version, s.file.data, []));
    RunFirst(run, all, SetPhase(s, k, Waiting), Lock(k), es);
  }

  lemma CommitEnds<S, D>(run: Runner<S, D>, all: seq<S>, s: State<S, D>, k: nat, start: Phase<S, D>, r: (D, seq<S>))
    requires k < |s.openers| && s.lock == None
    ensures var n := s.openers[k].length;
            var ready := SetPhase(SetPhase(s.(lock := Some(k)), k, start), k, Upgrading(n, r.0, r.1));
            Run(run, all, ready, [Commit(k)]) == SetPhase(s.(file := File(n, r.0, s.file.log + r.1)), k, Opened)
  {
    var n := s.openers[k].length;
    SetPhaseTwice(s.(lock := Some(k)), k, start, Upgrading(n, r.0, r.1));
    var ready := SetPhase(s.(lock := Some(k)), k, Upgrading(n, r.0, r.1));
    assert [Commit(k)] == [Commit(k)] + [];
    RunFirst(run, all, ready, Commit(k), []);
    SetPhaseTwice(s.(file := File(n, r.0, s.file.log + r.1)), k, Upgrading(n, r.0, r.1), Opened);
  }

  // ---- the opener's own code ---------------------------------------------------------------------

  /** The locked part: the pending steps from i, in one transaction; None when a step throws. */
  function RunFrom<S, D>(run: Runner<S, D>, steps: seq<S>, i: nat, data: D, ran: seq<S>): Option<(D, seq<S>)>
    decreases |steps| - i
  {
    if i >= |steps| then Some((data, ran))
    else
      match run(steps[i], data)
      case None => None
      case Some(d) => RunFrom(run, steps, i + 1, d, ran + [steps[i]])
  }

  class TenantDb<S, D> {
    var file: File<S, D>

    constructor (file: File<S, D>)
      ensures this.file == file
    {
      this.file := file;
    }

    /** `locked` is the file as it is when the lock is granted: a rival may have upgraded it. */
    method Migrate(run: Runner<S, D>, steps: seq<S>, locked: File<S, D>) returns (ok: bool)
      modifies this
      ensures old(file).version >= |steps| ==> ok && file == old(file)
      ensures old(file).version < |steps| ==>
        match RunFrom(run, steps, locked.version, locked.data, [])
        case None => !ok && file == locked
        case Some(r) => ok && file == File(|steps|, r.0, locked.log + r.1)
    {
      if file.version >= |steps| { return true; }
      file := locked;
      var data, ran, i := file.data, [], file.version;
      while i < |steps|
        invariant file == locked && i >= locked.version
        invariant RunFrom(run, steps, i, data, ran) == RunFrom(run, steps, locked.version, locked.data, [])
      {
        var r := run(steps[i], data);
        if r == None { return false; }
        data, ran, i := r.value, ran + [steps[i]], i + 1;
      }
      file := File(|steps|, data, file.log + ran);
      return true;
    }
  }

  /** Every opener inside its transaction is on the way to the outcome of that code. */
  ghost predicate OnCourse<S, D>(run: Runner<S, D>, all: seq<S>, s: State<S, D>) {
    forall k | 0 <= k < |s.openers| :: s.openers[k].length <= |all|
      && (s.openers[k].phase.Upgrading? <==> s.lock == Some(k))
      && (s.openers[k].phase.Upgrading? ==>
            Remaining(run, all, s.openers[k]) == Outcome(run, all, s.file, s.openers[k].length))
  }

  ghost function Outcome<S, D>(run: Runner<S, D>, all: seq<S>, f: File<S, D>, length: nat): Option<(D, seq<S>)>
    requires length <= |all|
  {
    RunFrom(run, all[..length], f.version, f.data, [])
  }

  ghost function Remaining<S, D>(run: Runner<S, D>, all: seq<S>, o: Opener<S, D>): Option<(D, seq<S>)>
    requires o.length <= |all| && o.phase.Upgrading?
  {
    RunFrom(run, all[..o.length], o.phase.i, o.phase.data, o.phase.ran)
  }

  /**
   * Under any interleaving, what an opener commits is what Migrate computes from the file as it
   * was when the lock was granted, and the file does not change before that.
   */
  lemma InterleavedOpenerIsMigrate<S, D>(run: Runner<S, D>, all: seq<S>, s: State<S, D>, e: Event)
    requires OnCourse(run, all, s)
    ensures OnCourse(run, all, Next(run, all, s, e))
    ensures e.Commit? && Enabled(s, e) ==>
      var r := Outcome(run, all, s.file, s.openers[e.k].length);
      r != None && Next(run, all, s, e).file == File(s.openers[e.k].length, r.value.0, s.file.log + r.value.1)
    ensures !(e.Commit? && Enabled(s, e)) ==> Next(run, all, s, e).file == s.file
    ensures e.RunStep? && Enabled(s, e) && run(all[s.openers[e.k].phase.i], s.openers[e.k].phase.data) == None ==>
      Outcome(run, all, s.file, s.openers[e.k].length) == None
  {
    if Enabled(s, e) && e.RunStep? {
      var me := s.openers[e.k];
      assert all[..me.length][me.phase.i] == all[me.phase.i];
      assert Remaining(run, all, me) ==
        match run(all[me.phase.i], me.phase.data)
        case None => None
        case Some(d) => RunFrom(run, all[..me.length], me.phase.i + 1, d, me.phase.ran + [all[me.phase.i]]);
    }
  }
}
