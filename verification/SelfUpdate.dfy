/**
 * The pending-update record of a self-update (server/index.js): written by /api/self-update,
 * read by a failing boot to roll back, and completed by the first healthy boot.
 */
module SelfUpdate {
  import opened Text

  type Version = string
  type Sha = string

  datatype Record = Record(
    previousVersion: Version, previousSha: Option<Sha>, targetVersion: Version, attempts: nat,
    completed: bool, success: bool, finalVersion: Option<Version>)

  /** The file; a write that dies or fails halfway leaves it unreadable. */
  datatype File = Missing | Unreadable | Pending(record: Record)

  datatype Process =
    | Down
    | Booting(version: Version)
    | Serving(version: Version)
    | Deciding(version: Version, read: Record) // inside maybeAutoRollback, before its write
    | Resetting(version: Version, read: Record) // the attempt is on record, the reset is not done

  /** `resets` are the rollback resets since the record was last written by a self-update. */
  datatype State = State(file: File, disk: Sha, process: Process, resets: seq<Sha>)

  /**
   * How a write to the file went. One that throws does not take the process down: a self-update
   * answers 500 and goes on serving on the old code, a reconcile is logged.
   */
  datatype Write = Written | Torn | NotWritten

  datatype Event =
    | Start
    | BootFails
    | BootSucceeds(write: Write)
    | RecordAttempt(write: Write)
    | Reset(moved: bool)
    | Update(to: Sha, previousSha: Option<Sha>, write: Write)
    | Crash

  const ROLLBACK_BUDGET := 3

  predicate MayRollBack(file: File) {
    file.Pending? && !file.record.completed && file.record.previousSha != None && file.record.attempts < ROLLBACK_BUDGET
  }

  function After(file: File, write: Write, record: Record): File {
    match write
    case Written => Pending(record)
    case Torn => Unreadable
    case NotWritten => file
  }

  function Completed(r: Record, running: Version): Record {
    r.(completed := true, success := r.targetVersion == running, finalVersion := Some(running))
  }

  function NewRecord(from: Version, previousSha: Option<Sha>, target: Version): Record {
    Record(from, previousSha, target, 0, false, false, None)
  }

  /** `versionOf` is the package version checked out at a commit. */
  function Next(versionOf: Sha -> Version, s: State, e: Event): State {
    match e
    case Start => if s.process.Down? then s.(process := Booting(versionOf(s.disk))) else s
    case BootFails =>
      if !s.process.Booting? then s
      else if MayRollBack(s.file) then s.(process := Deciding(s.process.version, s.file.record))
      else s.(process := Down)
    case BootSucceeds(write) =>
      if !s.process.Booting? then s
      else
        s.(process := Serving(s.process.version),
           file := if s.file.Pending? && !s.file.record.completed
                   then After(s.file, write, Completed(s.file.record, s.process.version))
                   else s.file)
    case RecordAttempt(write) =>
      if !s.process.Deciding? then s
      else
        var r := s.process.read;
        s.(file := After(s.file, write, r.(attempts := r.attempts + 1)),
           process := if write == Written then Resetting(s.process.version, r) else Down)
    case Reset(moved) =>
      if !s.process.Resetting? then s
      else if moved && s.process.read.previousSha != None then
        var sha := s.process.read.previousSha.value;
        s.(disk := sha, process := Down, resets := s.resets + [sha])
      else s.(process := Down)
    case Update(to, previousSha, write) =>
      if !s.process.Serving? then s
      else
        s.(disk := to, process := if write == Written then Down else s.process,
           file := After(s.file, write, NewRecord(s.process.version, previousSha, versionOf(to))),
           resets := if write == NotWritten then s.resets else [])
    case Crash => s.(process := Down)
  }

  function Run(versionOf: Sha -> Version, s: State, es: seq<Event>): State {
    if es == [] then s else Next(versionOf, Run(versionOf, s, es[..|es| - 1]), es[|es| - 1])
  }

  // ---- safety -------------------------------------------------------------------------------------------

  /** All resets since the record was written went to one commit, the record's while it is readable. */
  ghost predicate ResetsTo(s: State, sha: Option<Sha>) {
    forall i | 0 <= i < |s.resets| :: Some(s.resets[i]) == sha
  }

  ghost predicate AllAlike(resets: seq<Sha>) {
    forall i, j | 0 <= i < j < |resets| :: resets[i] == resets[j]
  }

  ghost predicate Inv(s: State) {
    && |s.resets| <= ROLLBACK_BUDGET && AllAlike(s.resets)
    && (s.file.Pending? ==>
          && |s.resets| <= s.file.record.attempts <= ROLLBACK_BUDGET
          && ResetsTo(s, s.file.record.previousSha)
          && (s.file.record.success ==>
                s.file.record.completed && s.file.record.finalVersion == Some(s.file.record.targetVersion)))
    && (s.process.Deciding? ==>
          s.file == Pending(s.process.read) && MayRollBack(s.file))
    && (s.process.Resetting? ==>
          && MayRollBack(Pending(s.process.read)) && |s.resets| <= s.process.read.attempts
          && s.file == Pending(s.process.read.(attempts := s.process.read.attempts + 1)))
  }

  lemma StepKeepsInv(versionOf: Sha -> Version, s: State, e: Event)
    requires Inv(s)
    ensures Inv(Next(versionOf, s, e))
  {
  }

  /** Between two writes of the record at most three resets happen, all to its previous commit. */
  lemma {:induction false} AtMostThreeResets(versionOf: Sha -> Version, s: State, es: seq<Event>)
    requires Inv(s)
    ensures Inv(Run(versionOf, s, es))
  {
    if es != [] {
      AtMostThreeResets(versionOf, s, es[..|es| - 1]);
      StepKeepsInv(versionOf, Run(versionOf, s, es[..|es| - 1]), es[|es| - 1]);
    }
  }

  predicate Updates(e: Event) {
    e.Update? && e.write != NotWritten
  }

  /**
   * Once a healthy boot has completed the record, no boot failure, crash or torn write leads to
   * another reset until a self-update writes a new one, and its verdict stays as it was recorded.
   */
  lemma {:induction false} CompletedNeverResets(versionOf: Sha -> Version, s: State, es: seq<Event>)
    requires Inv(s) && s.file.Pending? && s.file.record.completed
    requires forall i | 0 <= i < |es| :: !Updates(es[i])
    ensures var t := Run(versionOf, s, es);
            Inv(t) && t.resets == s.resets && t.file == s.file
  {
    if es != [] {
      CompletedNeverResets(versionOf, s, es[..|es| - 1]);
      StepKeepsInv(versionOf, Run(versionOf, s, es[..|es| - 1]), es[|es| - 1]);
    }
  }

  /** Success is written only by a process that runs the target version. */
  lemma SuccessMeansTarget(versionOf: Sha -> Version, s: State, e: Event)
    requires Inv(s) && !(s.file.Pending? && s.file.record.success)
    requires Next(versionOf, s, e).file.Pending? && Next(versionOf, s, e).file.record.success
    ensures s.process == Booting(s.file.record.targetVersion) && Next(versionOf, s, e).process == Serving(s.process.version)
  {
  }

  /**
   * A failing boot with budget left resets once to the previous commit and spends one attempt; when
   * that was the last one, another failing boot changes nothing.
   */
  lemma FailingBootsSpendTheBudget(versionOf: Sha -> Version, s: State)
    requires Inv(s) && s.process == Down && MayRollBack(s.file)
    ensures var t := FailOnce(versionOf, s);
            && t.process == Down && t.disk == s.file.record.previousSha.value
            && t.resets == s.resets + [t.disk]
            && t.file == Pending(s.file.record.(attempts := s.file.record.attempts + 1))
    ensures s.file.record.attempts + 1 == ROLLBACK_BUDGET ==>
      FailOnce(versionOf, FailOnce(versionOf, s)) == FailOnce(versionOf, s)
  {
  }

  function FailOnce(versionOf: Sha -> Version, s: State): State {
    Next(versionOf, Next(versionOf, Next(versionOf, Next(versionOf, s, Start), BootFails), RecordAttempt(Written)), Reset(true))
  }

  // ---- whole updates, event by event ------------------------------------------------------------------------

  /** A boot that fails and rolls back undisturbed. */
  const FAILING_BOOT: seq<Event> := [Start, BootFails, RecordAttempt(Written), Reset(true)]

  lemma {:induction false} RunConcat(versionOf: Sha -> Version, s: State, a: seq<Event>, b: seq<Event>)
    ensures Run(versionOf, s, a + b) == Run(versionOf, Run(versionOf, s, a), b)
  {
    if b == [] {
      assert a + b == a;
    } else {
      assert (a + b)[..|a + b| - 1] == a + b[..|b| - 1];
      RunConcat(versionOf, s, a, b[..|b| - 1]);
    }
  }

  lemma RunTwo(versionOf: Sha -> Version, s: State, a: Event, b: Event)
    ensures Run(versionOf, s, [a, b]) == Next(versionOf, Next(versionOf, s, a), b)
  {
    assert [a, b][..1] == [a] && [a][..0] == [];
    assert Run(versionOf, s, []) == s && Run(versionOf, s, [a]) == Next(versionOf, s, a);
  }

  lemma RunFailingBoot(versionOf: Sha -> Version, s: State)
    ensures Run(versionOf, s, FAILING_BOOT) ==
      Next(versionOf, Next(versionOf, Next(versionOf, Next(versionOf, s, Start), BootFails), RecordAttempt(Written)), Reset(true))
  {
    assert FAILING_BOOT == [Start, BootFails] + [RecordAttempt(Written), Reset(true)];
    RunConcat(versionOf, s, [Start, BootFails], [RecordAttempt(Written), Reset(true)]);
    RunTwo(versionOf, s, Start, BootFails);
    RunTwo(versionOf, Run(versionOf, s, [Start, BootFails]), RecordAttempt(Written), Reset(true));
  }

  /** Down with an open record that allows resets to prev, some of which were made. */
  ghost predicate OpenWith(s: State, prev: Sha, attempts: nat) {
    && s.process == Down && s.file.Pending? && !s.file.record.completed
    && s.file.record.previousSha == Some(prev) && s.file.record.attempts == attempts
  }

  lemma FailingBootResets(versionOf: Sha -> Version, s: State, prev: Sha, attempts: nat)
    requires OpenWith(s, prev, attempts)
    ensures var t := Run(versionOf, s, FAILING_BOOT);
            && (attempts < 3 ==> OpenWith(t, prev, attempts + 1) && t.disk == prev && t.resets == s.resets + [prev])
            && (attempts >= 3 ==> t == s)
  {
    RunFailingBoot(versionOf, s);
  }

  /** After a written update: down, with a fresh open record that names what was left behind. */
  lemma UpdateOpensRecord(versionOf: Sha -> Version, s: State, to: Sha, prev: Option<Sha>)
    requires s.process.Serving?
    ensures var t := Next(versionOf, s, Update(to, prev, Written));
            && t.process == Down && t.disk == to && t.resets == []
            && t.file.Pending? && !t.file.record.completed && !t.file.record.success
            && t.file.record.previousSha == prev && t.file.record.attempts == 0
            && t.file.record.previousVersion == s.process.version && t.file.record.targetVersion == versionOf(to)
  {
  }

  /**
   * An update to a release that cannot boot is taken back: three failing boots reset three times to
   * the commit it came from, and a fourth changes nothing.
   */
  lemma BadUpdateIsRolledBack(versionOf: Sha -> Version, s: State, to: Sha, prev: Sha)
    requires s.process.Serving?
    ensures var update := [Update(to, Some(prev), Written)];
            var one := Run(versionOf, s, update + FAILING_BOOT);
            var two := Run(versionOf, s, update + FAILING_BOOT + FAILING_BOOT);
            var three := Run(versionOf, s, update + FAILING_BOOT + FAILING_BOOT + FAILING_BOOT);
            && one.disk == prev && one.resets == [prev]
            && two.disk == prev && two.resets == [prev, prev]
            && three.disk == prev && three.resets == [prev, prev, prev]
            && Run(versionOf, s, update + FAILING_BOOT + FAILING_BOOT + FAILING_BOOT + FAILING_BOOT) == three
  {
    var update := [Update(to, Some(prev), Written)];
    assert update[..0] == [] && Run(versionOf, s, []) == s;
    var start := Run(versionOf, s, update);
    assert start == Next(versionOf, s, Update(to, Some(prev), Written));
    UpdateOpensRecord(versionOf, s, to, Some(prev));
    var one := Run(versionOf, start, FAILING_BOOT);
    var two := Run(versionOf, one, FAILING_BOOT);
    var three := Run(versionOf, two, FAILING_BOOT);
    FailingBootResets(versionOf, start, prev, 0);
    FailingBootResets(versionOf, one, prev, 1);
    FailingBootResets(versionOf, two, prev, 2);
    FailingBootResets(versionOf, three, prev, 3);
    RunConcat(versionOf, s, update, FAILING_BOOT);
    RunConcat(versionOf, s, update + FAILING_BOOT, FAILING_BOOT);
    RunConcat(versionOf, s, update + FAILING_BOOT + FAILING_BOOT, FAILING_BOOT);
    RunConcat(versionOf, s, update + FAILING_BOOT + FAILING_BOOT + FAILING_BOOT, FAILING_BOOT);
  }

  /** Without a commit to go back to, a failing boot resets nothing, however often it is tried. */
  lemma NoCommitNoReset(versionOf: Sha -> Version, s: State)
    requires s.process == Down
    requires s.file.Pending? && !s.file.record.completed ==> s.file.record.previousSha == None
    ensures Run(versionOf, s, FAILING_BOOT) == s
  {
    RunFailingBoot(versionOf, s);
  }

  /**
   * The next healthy boot closes an open record with what it runs, as a success exactly when that is
   * the target; a closed record, and any other file, it leaves as it is.
   */
  lemma HealthyBootCloses(versionOf: Sha -> Version, s: State)
    requires s.process == Down
    ensures var t := Run(versionOf, s, [Start, BootSucceeds(Written)]);
            && t.process == Serving(versionOf(s.disk)) && t.disk == s.disk && t.resets == s.resets
            && (s.file.Pending? && !s.file.record.completed ==>
                  t.file == Pending(s.file.record.(
                    completed := true, success := versionOf(s.disk) == s.file.record.targetVersion,
                    finalVersion := Some(versionOf(s.disk)))))
            && (!(s.file.Pending? && !s.file.record.completed) ==> t.file == s.file)
  {
    RunTwo(versionOf, s, Start, BootSucceeds(Written));
  }

  /** A good update is recorded a success; one that was rolled back to another version is not. */
  lemma VerdictTellsWhatRuns(versionOf: Sha -> Version, s: State, to: Sha, prev: Sha)
    requires s.process.Serving?
    ensures var good := Run(versionOf, s, [Update(to, Some(prev), Written)] + [Start, BootSucceeds(Written)]);
            good.file.Pending? && good.file.record.completed && good.file.record.success && good.disk == to
    ensures var bad := Run(versionOf, s, [Update(to, Some(prev), Written)] + FAILING_BOOT + [Start, BootSucceeds(Written)]);
            && bad.file.Pending? && bad.file.record.completed && bad.disk == prev
            && (bad.file.record.success <==> versionOf(prev) == versionOf(to))
  {
    var update := [Update(to, Some(prev), Written)];
    assert update[..0] == [] && Run(versionOf, s, []) == s;
    var start := Run(versionOf, s, update);
    assert start == Next(versionOf, s, Update(to, Some(prev), Written));
    UpdateOpensRecord(versionOf, s, to, Some(prev));
    FailingBootResets(versionOf, start, prev, 0);
    FailingBootKeepsTarget(versionOf, start);
    RunConcat(versionOf, s, update, [Start, BootSucceeds(Written)]);
    RunConcat(versionOf, s, update, FAILING_BOOT);
    RunConcat(versionOf, s, update + FAILING_BOOT, [Start, BootSucceeds(Written)]);
    HealthyBootCloses(versionOf, start);
    HealthyBootCloses(versionOf, Run(versionOf, start, FAILING_BOOT));
  }

  lemma FailingBootKeepsTarget(versionOf: Sha -> Version, s: State)
    requires s.process == Down && s.file.Pending?
    ensures var t := Run(versionOf, s, FAILING_BOOT);
            t.file.Pending? && t.file.record.targetVersion == s.file.record.targetVersion
  {
    RunFailingBoot(versionOf, s);
  }

  // ---- the code -----------------------------------------------------------------------------------------

  /** Where maybeAutoRollback stops: killed or failing at one of its steps, or through. */
  datatype Cut = BeforeWrite | DuringWrite | BeforeReset | ResetFailed | Through

  /** The failing boot's events, up to the cut. */
  function RolledBack(versionOf: Sha -> Version, s: State, cut: Cut): State {
    var decided := Next(versionOf, s, BootFails);
    match cut
    case BeforeWrite => Next(versionOf, decided, Crash)
    case DuringWrite => Next(versionOf, decided, RecordAttempt(Torn))
    case BeforeReset => Next(versionOf, Next(versionOf, decided, RecordAttempt(Written)), Crash)
    case ResetFailed => Next(versionOf, Next(versionOf, decided, RecordAttempt(Written)), Reset(false))
    case Through => Next(versionOf, Next(versionOf, decided, RecordAttempt(Written)), Reset(true))
  }

  class Host {
    var file: File
    var disk: Sha
    var process: Process
    ghost var resets: seq<Sha>

    ghost function Now(): State
      reads this
    {
      State(file, disk, process, resets)
    }

    constructor (disk: Sha)
      ensures Now() == State(Missing, disk, Down, [])
    {
      file, this.disk, process, resets := Missing, disk, Down, [];
    }

    method MaybeAutoRollback(versionOf: Sha -> Version, cut: Cut)
      requires process.Booting? && Inv(Now())
      modifies this
      ensures Now() == RolledBack(versionOf, old(Now()), cut) && Inv(Now()) && process == Down
    {
      StepKeepsInv(versionOf, Now(), BootFails);
      ghost var version := process.version;
      process := Down;
      if !file.Pending? || file.record.completed || file.record.previousSha == None { return; }
      var pending := file.record;
      if pending.attempts >= ROLLBACK_BUDGET || cut == BeforeWrite { return; }
      if cut == DuringWrite {
        file := Unreadable;
        return;
      }
      file := Pending(pending.(attempts := pending.attempts + 1));
      if cut == BeforeReset || cut == ResetFailed { return; }
      disk := pending.previousSha.value;
      resets := resets + [disk];
    }

    /** The reconcile step of a healthy boot. */
    method Reconcile(versionOf: Sha -> Version, write: Write)
      requires process.Booting? && Inv(Now())
      modifies this
      ensures Now() == Next(versionOf, old(Now()), BootSucceeds(write)) && Inv(Now())
    {
      StepKeepsInv(versionOf, Now(), BootSucceeds(write));
      var version := process.version;
      process := Serving(version);
      if file.Pending? && !file.record.completed {
        var success := file.record.targetVersion == version;
        match write
        case Written => file := Pending(file.record.(completed := true, success := success, finalVersion := Some(version)));
        case Torn => file := Unreadable;
        case NotWritten =>
      }
    }

    method WriteUpdate(versionOf: Sha -> Version, to: Sha, previousSha: Option<Sha>, write: Write)
      requires process.Serving? && Inv(Now())
      modifies this
      ensures Now() == Next(versionOf, old(Now()), Update(to, previousSha, write)) && Inv(Now())
    {
      StepKeepsInv(versionOf, Now(), Update(to, previousSha, write));
      var version := process.version;
      disk := to;
      match write
      case Written =>
        process := Down;
        file, resets := Pending(NewRecord(version, previousSha, versionOf(to))), [];
      case Torn =>
        file, resets := Unreadable, [];
      case NotWritten =>
    }
  }
}
