/** The crash-safe upgrade: a write-ahead record, a directory move, a rebuild, a commit
    byte and a cleanup, with a recovery that may itself be interrupted.

    The state machine takes one durable disk operation per step. Moving a directory,
    creating or deleting the record and writing the commit byte are atomic; a tree is
    deleted and built one file at a time. A crash may come between any two steps.
 */
module Upgrade {
  import opened Common
  import UserFiles

  type Path = UserFiles.Path
  type Tree = UserFiles.Tree

  const LOG_FILE: Path := ["install.log"]

  /** The upgrade record: its commit byte and the registration to go back to. */
  datatype Record = Record(committed: bool, registration: Option<string>)

  /** The installation directory, the backup beside it, the record, and the registry key;
      each may be absent. */
  datatype Disk = Disk(live: Option<Tree>, backup: Option<Tree>, record: Option<Record>, registration: Option<string>)

  datatype Installation = Installation(files: Tree, registration: Option<string>)

  /** How far the running process has come; Idle when none runs. */
  datatype Phase =
    | Idle
    | Moving                      // record written, directory not moved
    | Creating                    // moved, new directory not created
    | Building(touched: bool)     // new files and registration being written
    | Cleaning                    // committed, backup being deleted
    | Unregistering | Reregistering | Discarding   // rollback: old registration, then old directory
    | Emptying | Resetting | Setting               // recovery: old directory, then old registration
    | Closing                     // everything restored, record not yet deleted

  /** `owed` is the installation a completed recovery must leave. */
  datatype State = State(disk: Disk, phase: Phase, owed: Installation)

  datatype Action =
    | WriteRecord | MoveAway | MoveFails | CreateFolder | CreateFails
    | WriteFile(path: Path, content: UserFiles.File) | RemoveFile(path: Path) | Register(value: Option<string>)
    | CommitByte | LogWarning(content: UserFiles.File) | Fail
    | DeleteKey | RestoreKey
    | DeleteLiveFile(path: Path) | DeleteLiveFolder | MoveBack
    | DeleteBackupFile(path: Path) | DeleteBackupFolder | DeleteRecord
    | Recover | Crash

  // ----- transitions ---------------------------------------------------------------

  predicate Deleting(p: Phase) { p.Discarding? || p.Emptying? }

  predicate Uncommitted(d: Disk) { d.record.Some? && !d.record.value.committed }

  /** When the code gets to perform an action. */
  predicate Allowed(s: State, a: Action) {
    var d := s.disk;
    match a
    case WriteRecord => s.phase.Idle? && d.record.None? && d.live.Some?
    case MoveAway => s.phase.Moving? && d.live.Some? && d.backup.None?
    case MoveFails => s.phase.Moving?
    case CreateFolder => s.phase.Creating? && d.live.None?
    case CreateFails => s.phase.Creating? && d.live.None? && d.backup.Some?
    case WriteFile(_, _) => s.phase.Building? && d.live.Some?
    case RemoveFile(_) => s.phase.Building? && d.live.Some?
    case Register(_) => s.phase.Building?
    case CommitByte => s.phase.Building? && d.live.Some? && d.record.Some?
    case LogWarning(_) => s.phase.Cleaning? && d.live.Some?
    case Fail => s.phase.Building?
    case DeleteKey => s.phase.Unregistering? || s.phase.Resetting?
    case RestoreKey => (s.phase.Reregistering? || s.phase.Setting?) && d.record.Some?
    case DeleteLiveFile(p) => Deleting(s.phase) && d.live.Some? && p in d.live.value
    case DeleteLiveFolder => Deleting(s.phase) && d.live == Some(map[])
    case MoveBack => Deleting(s.phase) && d.live.None? && d.backup.Some?
    case DeleteBackupFile(p) => s.phase.Cleaning? && d.backup.Some? && p in d.backup.value
    case DeleteBackupFolder => s.phase.Cleaning? && d.backup == Some(map[])
    case DeleteRecord => s.phase.Closing? || (s.phase.Cleaning? && d.backup.None?)
    case Recover => s.phase.Idle? && d.record.Some?
    case Crash => true
  }

  function Step(s: State, a: Action): State
    requires Allowed(s, a)
  {
    var d := s.disk;
    match a
    case WriteRecord => s.(disk := d.(record := Some(Record(false, d.registration))), phase := Moving)
    case MoveAway => s.(disk := d.(live := None, backup := d.live), phase := Creating)
    case MoveFails => s.(phase := Closing)
    case CreateFolder => s.(disk := d.(live := Some(map[])), phase := Building(false))
    case CreateFails => s.(disk := d.(live := d.backup, backup := None), phase := Closing)
    case WriteFile(p, c) => s.(disk := d.(live := Some(d.live.value[p := c])))
    case RemoveFile(p) => s.(disk := d.(live := Some(d.live.value - {p})))
    case Register(v) => s.(disk := d.(registration := v), phase := Building(true))
    case CommitByte => State(d.(record := Some(d.record.value.(committed := true))), Cleaning,
                             Installation(d.live.value, d.registration))
    case LogWarning(c) =>
      var files := d.live.value[LOG_FILE := c];
      State(d.(live := Some(files)), Idle, s.owed.(files := s.owed.files[LOG_FILE := c]))
    case Fail => s.(phase := if s.phase.touched then Unregistering else Discarding)
    case DeleteKey =>
      s.(disk := d.(registration := None), phase := if s.phase.Unregistering? then Reregistering else Setting)
    case RestoreKey => s.(disk := d.(registration := d.record.value.registration),
                          phase := if s.phase.Reregistering? then Discarding else Closing)
    case DeleteLiveFile(p) => s.(disk := d.(live := Some(d.live.value - {p})))
    case DeleteLiveFolder => s.(disk := d.(live := None))
    case MoveBack =>
      s.(disk := d.(live := d.backup, backup := None), phase := if s.phase.Discarding? then Closing else Resetting)
    case DeleteBackupFile(p) => s.(disk := d.(backup := Some(d.backup.value - {p})))
    case DeleteBackupFolder => s.(disk := d.(backup := None))
    case DeleteRecord => s.(disk := d.(record := None), phase := Idle)
    case Recover =>
      s.(phase := if d.record.value.committed then Cleaning else if d.backup.Some? then Emptying else Resetting)
    case Crash => s.(phase := Idle)
  }

  ghost predicate Next(s: State, a: Action, t: State) { Allowed(s, a) && t == Step(s, a) }

  // ----- what every reachable state has --------------------------------------------

  /** Whatever happens to the process now, what is owed can still be delivered. */
  ghost predicate CrashSafe(d: Disk, owed: Installation) {
    if d.record.None? then
      d.live == Some(owed.files) && d.backup.None? && d.registration == owed.registration
    else if d.record.value.committed then
      d.live == Some(owed.files) && d.registration == owed.registration
    else
      && d.record.value.registration == owed.registration
      && (if d.backup.Some? then d.backup.value == owed.files else d.live == Some(owed.files))
  }

  /** What the process has achieved so far. */
  ghost predicate OnTrack(s: State) {
    var d := s.disk;
    match s.phase
    case Idle => true
    case Moving => Uncommitted(d) && d.backup.None? && d.registration == s.owed.registration
    case Creating => Uncommitted(d) && d.backup.Some? && d.live.None? && d.registration == s.owed.registration
    case Building(touched) =>
      Uncommitted(d) && d.backup.Some? && d.live.Some? && (touched || d.registration == s.owed.registration)
    case Cleaning => d.record.Some? && d.record.value.committed
    case Unregistering => Uncommitted(d) && d.backup.Some?
    case Reregistering => Uncommitted(d) && d.backup.Some?
    case Discarding => Uncommitted(d) && d.backup.Some? && d.registration == s.owed.registration
    case Emptying => Uncommitted(d) && d.backup.Some?
    case Resetting => Uncommitted(d) && d.backup.None?
    case Setting => Uncommitted(d) && d.backup.None?
    case Closing => Uncommitted(d) && d.backup.None? && d.registration == s.owed.registration
  }

  ghost predicate Inv(s: State) { CrashSafe(s.disk, s.owed) && OnTrack(s) }

  lemma StepKeeps(s: State, a: Action)
    requires Inv(s) && Allowed(s, a)
    ensures Inv(Step(s, a))
  {
    match a {
      case WriteRecord => case MoveAway => case MoveFails => case CreateFolder => case CreateFails =>
      case WriteFile(p, c) => case RemoveFile(p) => case Register(v) => case CommitByte => case LogWarning(c) =>
      case Fail => case DeleteKey => case RestoreKey => case DeleteLiveFile(p) => case DeleteLiveFolder =>
      case MoveBack => case DeleteBackupFile(p) => case DeleteBackupFolder =>
      case DeleteRecord => case Recover => case Crash =>
    }
  }

  /** A machine with an installation, no upgrade under way. */
  ghost predicate Settled(s: State) {
    && s.phase.Idle? && s.disk.record.None?
    && s.disk == Disk(Some(s.owed.files), None, None, s.owed.registration)
  }

  ghost predicate Execution(states: seq<State>, actions: seq<Action>) {
    Chain(Next, states, actions) && Settled(states[0])
  }

  lemma EveryStateSafe(states: seq<State>, actions: seq<Action>, i: nat)
    requires Execution(states, actions) && i <= |actions|
    ensures Inv(states[i])
  {
    forall s, a, t | Next(s, a, t) && Inv(s) ensures Inv(t) { StepKeeps(s, a); }
    ChainInvariant(Next, Inv, states, actions, i);
  }

  // ----- the guarantees ------------------------------------------------------------

  /** Two trees that differ at most in the installation log. */
  ghost predicate SameButLog(a: Tree, b: Tree) { a - {LOG_FILE} == b - {LOG_FILE} }

  /** Only the commit byte changes which installation is owed, except that a warning about
      leftovers is appended to the committed installation's own log. */
  lemma OwedChangesAtCommit(s: State, a: Action)
    requires Inv(s) && Allowed(s, a)
    ensures a.CommitByte? ==> Step(s, a).owed == Installation(s.disk.live.value, s.disk.registration)
    ensures !a.CommitByte? ==> SameButLog(Step(s, a).owed.files, s.owed.files)
    ensures !a.CommitByte? ==> Step(s, a).owed.registration == s.owed.registration
    ensures !a.CommitByte? && !a.LogWarning? ==> Step(s, a).owed == s.owed
  {
    if a.LogWarning? {
      assert s.owed.files[LOG_FILE := a.content] - {LOG_FILE} == s.owed.files - {LOG_FILE};
    }
  }

  /** A recovery, rollback or cleanup that runs to its end (the record is gone) leaves
      exactly the owed installation and registration, and no backup. */
  lemma FinishedMeansDelivered(states: seq<State>, actions: seq<Action>, i: nat)
    requires Execution(states, actions) && i < |actions| && actions[i].DeleteRecord?
    ensures Settled(states[i + 1]) && states[i + 1].owed == states[i].owed
  {
    EveryStateSafe(states, actions, i);
    ChainLink(Next, states, actions, i);
  }

  /** Without a commit byte the same installation is owed, up to its log. */
  lemma {:induction false} OwedIsStable(states: seq<State>, actions: seq<Action>, i: nat, j: nat)
    requires Execution(states, actions) && i <= j <= |actions|
    requires forall k :: i <= k < j ==> !actions[k].CommitByte?
    ensures SameButLog(states[j].owed.files, states[i].owed.files)
    ensures states[j].owed.registration == states[i].owed.registration
  {
    if i < j {
      OwedIsStable(states, actions, i, j - 1);
      ChainLink(Next, states, actions, j - 1);
      EveryStateSafe(states, actions, j - 1);
      OwedChangesAtCommit(states[j - 1], actions[j - 1]);
    }
  }

  /** Before the first commit byte no record is committed and the old installation is owed. */
  lemma {:induction false} OldIsOwed(states: seq<State>, actions: seq<Action>, j: nat)
    requires Execution(states, actions) && j <= |actions|
    requires forall k :: 0 <= k < j ==> !actions[k].CommitByte?
    ensures states[j].owed == states[0].owed
    ensures states[j].disk.record.Some? ==> !states[j].disk.record.value.committed
  {
    if j > 0 {
      OldIsOwed(states, actions, j - 1);
      ChainLink(Next, states, actions, j - 1);
      EveryStateSafe(states, actions, j - 1);
    }
  }

  ghost predicate SameInstallation(d: Disk, e: Disk) {
    d.live.Some? && e.live.Some? && SameButLog(d.live.value, e.live.value) && d.registration == e.registration
  }

  /** The headline: from a settled machine, through any interleaving of upgrade, rollback,
      recovery and crashes that ends with the record deleted, what remains is exactly the
      old installation if no commit byte was written on the way, and otherwise what was
      live when the last one was written, up to warnings in its log. */
  lemma RecoveryIsAtomic(states: seq<State>, actions: seq<Action>, c: int)
    requires Execution(states, actions) && |actions| > 0 && actions[|actions| - 1].DeleteRecord?
    requires -1 <= c < |actions| && (c >= 0 ==> actions[c].CommitByte?)
    requires forall k :: c < k < |actions| ==> !actions[k].CommitByte?
    ensures var s := states[|actions|].disk;
            && s.record.None? && s.backup.None?
            && (c == -1 ==> s == states[0].disk)
            && (c >= 0 ==> SameInstallation(s, states[c].disk))
  {
    var n := |actions|;
    FinishedMeansDelivered(states, actions, n - 1);
    if c >= 0 {
      ChainLink(Next, states, actions, c);
      OwedIsStable(states, actions, c + 1, n);
    } else {
      OldIsOwed(states, actions, n);
    }
  }

  /** The directory that stands for the installation while a record is pending. */
  function PendingUpgradeDirectory(d: Disk): Option<Tree> {
    if d.record.None? then d.live
    else if !d.record.value.committed && d.backup.Some? then d.backup else d.live
  }

  /** At every moment, also in the middle of a recovery, that directory holds the owed
      installation complete. */
  lemma PendingDirectoryComplete(states: seq<State>, actions: seq<Action>, i: nat)
    requires Execution(states, actions) && i <= |actions|
    ensures PendingUpgradeDirectory(states[i].disk) == Some(states[i].owed.files)
  {
    EveryStateSafe(states, actions, i);
  }

  // ----- the user's files ----------------------------------------------------------

  /** Each commit comes after an upgrade of the files as `UserFiles` has it. */
  ghost predicate CommitsUpgrades(states: seq<State>, actions: seq<Action>)
    requires Execution(states, actions)
  {
    forall k :: 0 <= k < |actions| && actions[k].CommitByte? ==> CommitsUpgrade(states[k])
  }

  ghost predicate CommitsUpgrade(s: State) {
    s.disk.live.Some? && UserFiles.Upgraded(s.owed.files, s.disk.live.value)
  }

  lemma WarningKeeps(tree: Tree, p: Path, contents: UserFiles.File, warning: UserFiles.File)
    requires UserFiles.Keeps(tree, p, contents) && UserFiles.SafePath(p) && p != LOG_FILE
    ensures UserFiles.Keeps(tree[LOG_FILE := warning], p, contents)
  {
    var t := tree[LOG_FILE := warning];
    assert |LOG_FILE[0]| == 11 && |UserFiles.FILES_FILE[0]| == 17;
    assert UserFiles.ManifestLines(t) == UserFiles.ManifestLines(tree);
    assert p in UserFiles.Claimed(t) <==> p in UserFiles.Claimed(tree);
  }

  /** Through any upgrades, rollbacks, recoveries and crashes, at every moment the directory that
      stands for the installation holds each user file at a safe path, contents and kind. */
  lemma UserFilesAlwaysThere(states: seq<State>, actions: seq<Action>, i: nat, p: Path)
    requires Execution(states, actions) && i <= |actions| && CommitsUpgrades(states, actions)
    requires var first := states[0].owed.files; p in first && UserFiles.KindOf(first, p) == UserFiles.UserData
    requires UserFiles.SafePath(p) && p != LOG_FILE
    ensures var pending := PendingUpgradeDirectory(states[i].disk);
            pending.Some? && UserFiles.Keeps(pending.value, p, states[0].owed.files[p])
  {
    OwedKeeps(states, actions, i, p);
    PendingDirectoryComplete(states, actions, i);
  }

  lemma {:induction false} OwedKeeps(states: seq<State>, actions: seq<Action>, i: nat, p: Path)
    requires Execution(states, actions) && i <= |actions| && CommitsUpgrades(states, actions)
    requires var first := states[0].owed.files; p in first && UserFiles.KindOf(first, p) == UserFiles.UserData
    requires UserFiles.SafePath(p) && p != LOG_FILE
    ensures UserFiles.Keeps(states[i].owed.files, p, states[0].owed.files[p])
  {
    if i > 0 {
      OwedKeeps(states, actions, i - 1, p);
      ChainLink(Next, states, actions, i - 1);
      OwedStepKeeps(states[i - 1], actions[i - 1], p, states[0].owed.files[p]);
    }
  }

  lemma OwedStepKeeps(s: State, a: Action, p: Path, contents: UserFiles.File)
    requires Allowed(s, a) && (a.CommitByte? ==> CommitsUpgrade(s))
    requires UserFiles.Keeps(s.owed.files, p, contents) && UserFiles.SafePath(p) && p != LOG_FILE
    ensures UserFiles.Keeps(Step(s, a).owed.files, p, contents)
  {
    if a.CommitByte? {
      UserFiles.UserFileSurvivesUpgrade(s.owed.files, s.disk.live.value, p);
    } else if a.LogWarning? {
      WarningKeeps(s.owed.files, p, contents, a.content);
    }
  }

  // ----- the installer -------------------------------------------------------------

  /** What goes wrong around an upgrade: moving the directory, making the new one, the build, or, after
      so many deletions, the cleanup. */
  datatype Faults = Faults(move: bool, create: bool, build: bool, cleanup: Option<nat>, warning: UserFiles.File)

  datatype Outcome = Installed | InstalledWithLeftovers | NotStarted | RolledBack | Crashed

  datatype Opening = Opened | Refused | Interrupted

  datatype Cleanup = Done | Stuck | CutShort

  /** What the build leaves in a fresh directory and in the registry. */
  function Built(script: seq<Action>, files: Tree): Tree
    decreases |script|
  {
    if script == [] then files
    else Built(script[1..], match script[0]
      case WriteFile(p, c) => files[p := c]
      case RemoveFile(p) => files - {p}
      case _ => files)
  }

  function Registered(script: seq<Action>, value: Option<string>): Option<string>
    decreases |script|
  {
    if script == [] then value
    else Registered(script[1..], if script[0].Register? then script[0].value else value)
  }

  /** The installation an upgrade replaces `old` by. */
  function Replacement(script: seq<Action>, before: Installation): Installation {
    Installation(Built(script, map[]), Registered(script, before.registration))
  }

  function Logged(i: Installation, warning: UserFiles.File): Installation { i.(files := i.files[LOG_FILE := warning]) }

  ghost predicate IsBuild(script: seq<Action>) {
    forall i :: 0 <= i < |script| ==> script[i].WriteFile? || script[i].RemoveFile? || script[i].Register?
  }

  /** The installer. `budget` is the number of disk operations until the machine stops. */
  class Installer {
    var disk: Disk
    var phase: Phase
    var budget: nat
    ghost var owed: Installation

    ghost function Abs(): State
      reads this
    {
      State(disk, phase, owed)
    }

    constructor (files: Tree, registration: Option<string>, budget: nat)
      ensures Settled(Abs()) && owed == Installation(files, registration)
    {
      disk := Disk(Some(files), None, None, registration);
      phase := Idle;
      this.budget := budget;
      owed := Installation(files, registration);
    }

    /** One durable disk operation, or the crash that comes instead. */
    method Perform(a: Action) returns (alive: bool)
      requires Inv(Abs()) && Allowed(Abs(), a)
      modifies this
      ensures Inv(Abs())
      ensures alive ==> Abs() == Step(old(Abs()), a)
      ensures !alive ==> Abs() == Step(old(Abs()), Crash) && budget == 0
    {
      StepKeeps(Abs(), a);
      StepKeeps(Abs(), Crash);
      if budget == 0 {
        phase := Idle;
        return false;
      }
      budget := budget - 1;
      owed := Step(Abs(), a).owed;
      var t := Step(State(disk, phase, Installation(map[], None)), a);
      disk, phase := t.disk, t.phase;
      alive := true;
    }

    /** `DeleteTree` of the installation directory. */
    method DeleteLive() returns (alive: bool)
      requires Inv(Abs()) && Deleting(phase)
      modifies this
      ensures Inv(Abs()) && owed == old(owed)
      ensures alive ==> Abs() == old(Abs()).(disk := old(disk).(live := None))
      ensures !alive ==> phase.Idle? && budget == 0
    {
      if disk.live.None? { return true; }
      while disk.live.value != map[]
        invariant disk.live.Some? && Inv(Abs())
        invariant Abs() == old(Abs()).(disk := old(disk).(live := disk.live))
        decreases disk.live.value.Keys
      {
        var p :| p in disk.live.value;
        alive := Perform(DeleteLiveFile(p));
        if !alive { return; }
      }
      alive := Perform(DeleteLiveFolder);
    }

    /** Deletes the backup of a committed upgrade, then its record. With a fault it gets stuck after
        so many deletions, at the latest at the record, and the process goes on. */
    method CleanUp(fault: Option<nat>) returns (end: Cleanup)
      requires Inv(Abs()) && phase.Cleaning?
      modifies this
      ensures Inv(Abs()) && owed == old(owed)
      ensures end.Done? ==> Settled(Abs()) && fault.None?
      ensures end.Stuck? ==> fault.Some? && Abs() == old(Abs()).(disk := old(disk).(backup := disk.backup))
      ensures end.CutShort? ==> phase.Idle? && budget == 0
    {
      var k := 0;
      while disk.backup.Some?
        invariant Inv(Abs()) && Abs() == old(Abs()).(disk := old(disk).(backup := disk.backup))
        decreases disk.backup.Some?, if disk.backup.Some? then disk.backup.value.Keys else {}
      {
        if fault == Some(k) { return Stuck; }
        var next := DeleteBackupFolder;
        if disk.backup.value != map[] {
          var p :| p in disk.backup.value;
          next := DeleteBackupFile(p);
        }
        var alive := Perform(next);
        if !alive { return CutShort; }
        k := k + 1;
      }
      if fault.Some? { return Stuck; }
      var alive := Perform(DeleteRecord);
      return if alive then Done else CutShort;
    }

    /** `RecoverUpgrade`: whatever state a crash left behind, a recovery that is not itself
        cut short delivers what is owed; one that is leaves a state it can start from again. */
    method RecoverUpgrade() returns (done: bool)
      requires Inv(Abs()) && phase.Idle?
      modifies this
      ensures Inv(Abs()) && phase.Idle? && owed == old(owed)
      ensures done ==> Settled(Abs())
      ensures !done ==> budget == 0
    {
      if disk.record.None? { return true; }
      done := Perform(Recover);
      if !done { return; }
      if disk.record.value.committed {
        var end := CleanUp(None);
        return end.Done?;
      }
      done := GoBack();
    }

    /** The recovery of an uncommitted upgrade. */
    method GoBack() returns (done: bool)
      requires Inv(Abs()) && (phase.Emptying? || phase.Resetting?)
      modifies this
      ensures Inv(Abs()) && phase.Idle? && owed == old(owed)
      ensures done ==> Settled(Abs())
      ensures !done ==> budget == 0
    {
      if disk.backup.Some? {
        done := DeleteLive();
        if !done { return; }
        done := Perform(MoveBack);
        if !done { return; }
      }
      done := PutKeyBack();
      if !done { return; }
      done := Perform(DeleteRecord);
    }

    /** The old registration, in two steps. */
    method PutKeyBack() returns (done: bool)
      requires Inv(Abs()) && (phase.Unregistering? || phase.Resetting?)
      modifies this
      ensures Inv(Abs()) && owed == old(owed)
      ensures done ==> phase == if old(phase).Unregistering? then Discarding else Closing
      ensures done ==> disk == old(disk).(registration := owed.registration)
      ensures !done ==> phase.Idle? && budget == 0
    {
      done := Perform(DeleteKey);
      if !done { return; }
      done := Perform(RestoreKey);
    }

    /** `Transaction.Dispose` without a commit. */
    method RollBack() returns (done: bool)
      requires Inv(Abs()) && phase.Building?
      modifies this
      ensures Inv(Abs()) && phase.Idle? && owed == old(owed)
      ensures done ==> Settled(Abs())
      ensures !done ==> budget == 0
    {
      done := Perform(Fail);
      if !done { return; }
      if phase.Unregistering? {
        done := PutKeyBack();
        if !done { return; }
      }
      done := DeleteLive();
      if !done { return; }
      done := Perform(MoveBack);
      if !done { return; }
      done := Perform(DeleteRecord);
    }

    /** Recovers what an earlier run left, then moves the installation aside. When the move or the new
        directory fails, everything is put back at once. */
    method OpenTransaction(faults: Faults) returns (opening: Opening)
      requires Inv(Abs()) && phase.Idle?
      modifies this
      ensures Inv(Abs()) && owed == old(owed)
      ensures opening.Opened? ==> phase.Building? && disk.live == Some(map[]) && disk.registration == owed.registration
      ensures opening.Opened? ==> !faults.move && !faults.create
      ensures opening.Refused? ==> Settled(Abs()) && (faults.move || faults.create)
      ensures opening.Interrupted? ==> phase.Idle? && budget == 0
    {
      var alive := RecoverUpgrade();
      if !alive { return Interrupted; }
      alive := Perform(WriteRecord);
      if !alive { return Interrupted; }
      if faults.move {
        alive := Perform(MoveFails);
        if !alive { return Interrupted; }
        alive := Perform(DeleteRecord);
        return if alive then Refused else Interrupted;
      }
      alive := Perform(MoveAway);
      if !alive { return Interrupted; }
      if faults.create {
        alive := Perform(CreateFails);
        if !alive { return Interrupted; }
        alive := Perform(DeleteRecord);
        return if alive then Refused else Interrupted;
      }
      alive := Perform(CreateFolder);
      return if alive then Opened else Interrupted;
    }

    /** Builds the new installation one file or registration at a time. */
    method RunBuild(script: seq<Action>) returns (alive: bool)
      requires Inv(Abs()) && phase.Building? && disk.live.Some? && IsBuild(script)
      modifies this
      ensures Inv(Abs()) && owed == old(owed)
      ensures alive ==> phase.Building? && disk.live == Some(Built(script, old(disk.live.value)))
      ensures alive ==> disk.registration == Registered(script, old(disk.registration))
      ensures !alive ==> phase.Idle? && budget == 0
    {
      var i := 0;
      while i < |script|
        invariant 0 <= i <= |script| && phase.Building? && Inv(Abs()) && owed == old(owed) && disk.live.Some?
        invariant Built(script[i..], disk.live.value) == Built(script, old(disk.live.value))
        invariant Registered(script[i..], disk.registration) == Registered(script, old(disk.registration))
      {
        assert script[i..][1..] == script[i + 1..];
        alive := Perform(script[i]);
        if !alive { return; }
        i := i + 1;
      }
      alive := true;
    }

    /** `Commit`: the commit byte, then the cleanup, and a line in the log if that got stuck. */
    method Commit(faults: Faults) returns (outcome: Outcome)
      requires Inv(Abs()) && phase.Building? && disk.live.Some?
      modifies this
      ensures Inv(Abs()) && phase.Idle?
      ensures var built := Installation(old(disk.live.value), old(disk.registration));
              match outcome
              case Installed => Settled(Abs()) && owed == built
              case InstalledWithLeftovers =>
                && faults.cleanup.Some? && disk.record.Some? && disk.record.value.committed
                && owed == Logged(built, faults.warning)
              case Crashed => budget == 0 && (owed == old(owed) || owed == built)
              case _ => false
    {
      var alive := Perform(CommitByte);
      if !alive { return Crashed; }
      var end := CleanUp(faults.cleanup);
      if end.Stuck? {
        alive := Perform(LogWarning(faults.warning));
        return if alive then InstalledWithLeftovers else Crashed;
      }
      return if end.Done? then Installed else Crashed;
    }

    /** `Install` for an upgrade: recover, open the transaction, run the build, then commit and clean
        up or, when the build fails, roll back. */
    method Upgrade(script: seq<Action>, faults: Faults) returns (outcome: Outcome)
      requires Inv(Abs()) && phase.Idle? && IsBuild(script)
      modifies this
      ensures Inv(Abs()) && phase.Idle?
      ensures outcome.Installed? ==> Settled(Abs()) && owed == Replacement(script, old(owed))
      ensures outcome.InstalledWithLeftovers? ==>
        faults.cleanup.Some? && disk.record.Some? && disk.record.value.committed
      ensures outcome.InstalledWithLeftovers? ==> owed == Logged(Replacement(script, old(owed)), faults.warning)
      ensures outcome.Installed? || outcome.InstalledWithLeftovers? ==> !faults.move && !faults.create && !faults.build
      ensures outcome.RolledBack? || outcome.NotStarted? ==> Settled(Abs()) && owed == old(owed)
      ensures outcome.RolledBack? ==> faults.build
      ensures outcome.NotStarted? ==> faults.move || faults.create
      ensures outcome.Crashed? ==> budget == 0 && (owed == old(owed) || owed == Replacement(script, old(owed)))
    {
      var opening := OpenTransaction(faults);
      if !opening.Opened? { return if opening.Refused? then NotStarted else Crashed; }
      var alive := RunBuild(script);
      if !alive { return Crashed; }
      if faults.build {
        alive := RollBack();
        return if alive then RolledBack else Crashed;
      }
      outcome := Commit(faults);
    }
  }
}
