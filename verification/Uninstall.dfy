/** The resumable uninstall: a plan file written first and deleted last, one planned file
    deleted per step, with a crash possible between any two steps.
 */
module Uninstall {
  import opened Common
  import opened UserFiles

  /** Where a running uninstall stands; Idle when none runs. */
  datatype Phase = Idle | Moving | Deleting(next: nat) | DroppingManifest | DroppingState | Finishing | Done

  /** The directory's files, whether it was moved aside, whether the system entries
      (shortcuts, autostart, registration) are gone, and the files when the plan was made. */
  datatype State = State(tree: Tree, moved: bool, unlinked: bool, phase: Phase, start: Tree)

  datatype Action =
    | StrandPlan(path: Path, content: File) | WritePlan(files: seq<Path>) | ReadPlan
    | MoveAside | DeleteNext | RemoveEntries | DeleteManifest | DeleteState | DeletePlan | Crash

  function PlanOf(tree: Tree): seq<Path> {
    if UNINSTALL_FILE in tree && tree[UNINSTALL_FILE].UninstallPlan? then tree[UNINSTALL_FILE].files else []
  }

  /** `ReadUninstallPlan` accepts a plan only if no line names the plan file or user data. */
  predicate ValidPlan(files: seq<Path>) {
    forall i :: 0 <= i < |files| ==> files[i] != UNINSTALL_FILE && ClassifyFile(files[i], true) != UserData
  }

  /** The plan lists exactly the files that are not the user's. */
  ghost predicate PlanFor(tree: Tree, files: seq<Path>) {
    forall p :: p in files <==> p in tree && KindOf(tree, p) != UserData
  }

  predicate Kept(p: Path) { p == STATE_FILE || p == FILES_FILE }

  const TEMPORARY := ".notmyfault-uninstall.tmp-"

  /** The plan is written under a fresh name of this form, then moved into place. */
  ghost predicate Temporary(p: Path, tree: Tree) {
    |p| == 1 && TEMPORARY <= p[0] && p !in tree && p !in Claimed(tree)
  }

  /** `StrandPlan` is a crash between writing the plan under its temporary name and moving it. */
  ghost predicate Allowed(s: State, a: Action) {
    match a
    case StrandPlan(p, _) => s.phase.Idle? && UNINSTALL_FILE !in s.tree && Temporary(p, s.tree)
    case WritePlan(files) => s.phase.Idle? && UNINSTALL_FILE !in s.tree && PlanFor(s.tree, files)
    case ReadPlan => s.phase.Idle? && UNINSTALL_FILE in s.tree && ValidPlan(PlanOf(s.tree))
    case MoveAside => s.phase.Moving?
    case DeleteNext => s.phase.Deleting? && s.phase.next < |PlanOf(s.tree)|
    case RemoveEntries => s.phase.Deleting? && s.phase.next == |PlanOf(s.tree)|
    case DeleteManifest => s.phase.DroppingManifest?
    case DeleteState => s.phase.DroppingState?
    case DeletePlan => s.phase.Finishing?
    case Crash => !s.phase.Done?
  }

  ghost function Step(s: State, a: Action): State
    requires Allowed(s, a)
  {
    match a
    case StrandPlan(p, c) => s.(tree := s.tree[p := c], start := s.tree[p := c])
    case WritePlan(files) =>
      s.(tree := s.tree[UNINSTALL_FILE := UninstallPlan(files)], phase := Moving, start := s.tree)
    case ReadPlan => s.(phase := Moving)
    case MoveAside => s.(moved := true, phase := Deleting(0))
    case DeleteNext =>
      var p := PlanOf(s.tree)[s.phase.next];
      s.(tree := if Kept(p) then s.tree else s.tree - {p}, phase := Deleting(s.phase.next + 1))
    case RemoveEntries => s.(unlinked := true, phase := DroppingManifest)
    case DeleteManifest => s.(tree := s.tree - {FILES_FILE}, phase := DroppingState)
    case DeleteState => s.(tree := s.tree - {STATE_FILE}, phase := Finishing)
    case DeletePlan => s.(tree := s.tree - {UNINSTALL_FILE}, phase := Done)
    case Crash => s.(phase := Idle)
  }

  ghost predicate Next(s: State, a: Action, t: State) { Allowed(s, a) && t == Step(s, a) }

  // ----- what every reachable state has --------------------------------------------

  /** Nothing has happened yet. */
  ghost predicate Untouched(s: State) {
    s.tree == s.start && !s.moved && !s.unlinked && s.phase.Idle? && UNINSTALL_FILE !in s.tree
  }

  /** The plan is on disk, nothing outside it is missing, nothing has changed. */
  ghost predicate Resumable(s: State) {
    && UNINSTALL_FILE in s.tree && s.tree[UNINSTALL_FILE].UninstallPlan?
    && UNINSTALL_FILE !in s.start && PlanFor(s.start, PlanOf(s.tree))
    && (forall p :: p in s.tree && p != UNINSTALL_FILE ==> p in s.start && s.tree[p] == s.start[p])
    && (forall p :: p in s.start && p !in PlanOf(s.tree) ==> p in s.tree)
  }

  ghost predicate Gone(s: State, upTo: nat)
    requires upTo <= |PlanOf(s.tree)|
  {
    forall i :: 0 <= i < upTo && !Kept(PlanOf(s.tree)[i]) ==> PlanOf(s.tree)[i] !in s.tree
  }

  ghost predicate OnTrack(s: State) {
    match s.phase
    case Idle => true
    case Moving => true
    case Deleting(next) => s.moved && next <= |PlanOf(s.tree)| && Gone(s, next)
    case DroppingManifest => s.moved && s.unlinked && Gone(s, |PlanOf(s.tree)|)
    case DroppingState => s.moved && s.unlinked && Gone(s, |PlanOf(s.tree)|) && FILES_FILE !in s.tree
    case Finishing =>
      s.moved && s.unlinked && Gone(s, |PlanOf(s.tree)|) && FILES_FILE !in s.tree && STATE_FILE !in s.tree
    case Done => false
  }

  /** The user's files and nothing else. */
  ghost predicate Finished(s: State) {
    && s.phase.Done? && s.moved && s.unlinked
    && s.tree == map p | p in s.start && KindOf(s.start, p) == UserData :: s.start[p]
  }

  ghost predicate Inv(s: State) {
    Untouched(s) || (Resumable(s) && OnTrack(s)) || Finished(s)
  }

  lemma MarkersDiffer()
    ensures STATE_FILE != FILES_FILE && STATE_FILE != UNINSTALL_FILE && FILES_FILE != UNINSTALL_FILE
  {
    assert |STATE_FILE[0]| == 19 && |FILES_FILE[0]| == 17 && |UNINSTALL_FILE[0]| == 21;
  }

  /** A plan made here is one that will be accepted when it is read back. */
  lemma OwnPlanIsValid(tree: Tree, files: seq<Path>)
    requires PlanFor(tree, files) && UNINSTALL_FILE !in tree
    ensures ValidPlan(files)
  {
    forall i | 0 <= i < |files| ensures files[i] != UNINSTALL_FILE && ClassifyFile(files[i], true) != UserData {
      assert files[i] in files;
    }
  }

  lemma TemporaryDiffers(p: Path)
    requires |p| == 1 && TEMPORARY <= p[0]
    ensures p != STATE_FILE && p != FILES_FILE && p != UNINSTALL_FILE
    ensures !LegacyProgramFile(p) && !IsSigningKey(p) && !IsUserFolder(p)
  {
    assert |TEMPORARY| == 26 && |STATE_FILE[0]| == 19 && |FILES_FILE[0]| == 17 && |UNINSTALL_FILE[0]| == 21;
    assert p[0][0] == TEMPORARY[0] == '.';
    assert "notmyfault.vbs"[0] == 'n' && "install.log"[0] == 'i' && "user_plugins"[0] == 'u';
    assert ["notmyfault.vbs"][0] == "notmyfault.vbs" && ["install.log"][0] == "install.log";
    assert ["user_plugins"][0] == "user_plugins";
  }

  /** A stranded temporary plan counts as the user's, and changes the kind of no other file. */
  lemma StrandedIsUserData(tree: Tree, p: Path, c: File)
    requires Temporary(p, tree)
    ensures p != UNINSTALL_FILE && KindOf(tree[p := c], p) == UserData
    ensures forall q :: q in tree ==> KindOf(tree[p := c], q) == KindOf(tree, q)
  {
    TemporaryDiffers(p);
    var t := tree[p := c];
    assert ManifestLines(t) == ManifestLines(tree);
    assert Claimed(t) == Claimed(tree);
  }

  lemma DeleteKeeps(s: State, p: Path)
    requires Resumable(s) && p in PlanOf(s.tree)
    ensures Resumable(s.(tree := s.tree - {p}))
    ensures PlanOf(s.tree - {p}) == PlanOf(s.tree)
  {
    assert p in s.start && p != UNINSTALL_FILE;
  }

  lemma MarkerIsPlanned(s: State, p: Path)
    requires Resumable(s) && Kept(p)
    ensures p in PlanOf(s.tree) <==> p in s.start
    ensures p !in s.start ==> p !in s.tree
  {
    StateFilesAreProgram(s.start);
    MarkersDiffer();
  }

  lemma DropMarkerKeeps(s: State, p: Path)
    requires Resumable(s) && Kept(p)
    ensures Resumable(s.(tree := s.tree - {p})) && PlanOf(s.tree - {p}) == PlanOf(s.tree)
  {
    MarkerIsPlanned(s, p);
    MarkersDiffer();
    if p in PlanOf(s.tree) { DeleteKeeps(s, p); } else { assert s.tree - {p} == s.tree; }
  }

  lemma LastStepFinishes(s: State)
    requires Resumable(s) && s.phase.Finishing? && OnTrack(s)
    ensures Finished(Step(s, DeletePlan))
  {
    var t := s.tree - {UNINSTALL_FILE};
    var plan := PlanOf(s.tree);
    forall i | 0 <= i < |plan| ensures plan[i] !in t {}
    forall p ensures p in t <==> p in s.start && KindOf(s.start, p) == UserData {
      assert p in plan ==> p !in t;
    }
  }

  lemma StepKeeps(s: State, a: Action)
    requires Inv(s) && Allowed(s, a)
    ensures Inv(Step(s, a))
  {
    match a
    case StrandPlan(p, c) => StrandedIsUserData(s.tree, p, c);
    case WritePlan(files) =>
    case ReadPlan =>
    case MoveAside =>
    case DeleteNext => DeleteNextKeeps(s);
    case RemoveEntries =>
    case DeleteManifest => DropMarkerKeeps(s, FILES_FILE);
    case DeleteState => DropMarkerKeeps(s, STATE_FILE);
    case DeletePlan => LastStepFinishes(s);
    case Crash =>
  }

  lemma DeleteNextKeeps(s: State)
    requires Resumable(s) && OnTrack(s) && Allowed(s, DeleteNext)
    ensures Resumable(Step(s, DeleteNext)) && OnTrack(Step(s, DeleteNext))
  {
    var p := PlanOf(s.tree)[s.phase.next];
    if Kept(p) {
      GoneNext(s, s.tree, s.phase.next);
    } else {
      DeleteKeeps(s, p);
      GoneNext(s, s.tree - {p}, s.phase.next);
    }
  }

  lemma GoneNext(s: State, tree: Tree, next: nat)
    requires PlanOf(tree) == PlanOf(s.tree) && next < |PlanOf(s.tree)| && Gone(s, next)
    requires tree.Keys <= s.tree.Keys && (!Kept(PlanOf(tree)[next]) ==> PlanOf(tree)[next] !in tree)
    ensures Gone(s.(tree := tree, phase := Deleting(next + 1)), next + 1)
  {
  }

  ghost predicate Execution(states: seq<State>, actions: seq<Action>) {
    Chain(Next, states, actions) && Untouched(states[0])
  }

  lemma EveryStateSafe(states: seq<State>, actions: seq<Action>, i: nat)
    requires Execution(states, actions) && i <= |actions|
    ensures Untouched(states[i]) || (Resumable(states[i]) && OnTrack(states[i])) || Finished(states[i])
  {
    forall s, a, t | Next(s, a, t) && Inv(s) ensures Inv(t) { StepKeeps(s, a); }
    ChainInvariant(Next, Inv, states, actions, i);
  }

  // ----- the guarantees ------------------------------------------------------------

  /** The temporary plans that crashes left behind. */
  function Stranded(actions: seq<Action>): Tree {
    if actions == [] then map[]
    else
      var last := actions[|actions| - 1];
      var before := Stranded(actions[..|actions| - 1]);
      if last.StrandPlan? then before[last.path := last.content] else before
  }

  lemma StrandedNext(actions: seq<Action>, i: nat)
    requires i < |actions|
    ensures Stranded(actions[..i + 1]) ==
      if actions[i].StrandPlan? then Stranded(actions[..i])[actions[i].path := actions[i].content]
      else Stranded(actions[..i])
  {
    assert actions[..i + 1][..i] == actions[..i];
  }

  /** The original tree and the stranded plans, which count as the user's. */
  ghost predicate Grown(first: Tree, left: Tree, tree: Tree) {
    && tree == first + left && first.Keys !! left.Keys
    && (forall p :: p in first ==> KindOf(tree, p) == KindOf(first, p))
    && (forall p :: p in left ==> KindOf(tree, p) == UserData)
  }

  /** The tree the plan is made for never changes once work has begun: it is the original one and
      whatever was stranded before. */
  lemma {:induction false} StartIsOriginal(states: seq<State>, actions: seq<Action>, i: nat)
    requires Execution(states, actions) && i <= |actions|
    ensures Grown(states[0].tree, Stranded(actions[..i]), states[i].start)
  {
    if i == 0 {
      assert actions[..0] == [] && states[0].tree + map[] == states[0].tree;
    } else {
      StartIsOriginal(states, actions, i - 1);
      EveryStateSafe(states, actions, i - 1);
      ChainLink(Next, states, actions, i - 1);
      StrandedNext(actions, i - 1);
      GrownStep(states[i - 1], actions[i - 1], states[0].tree, Stranded(actions[..i - 1]));
    }
  }

  lemma GrownStep(s: State, a: Action, first: Tree, left: Tree)
    requires Inv(s) && Allowed(s, a) && Grown(first, left, s.start)
    ensures Grown(first, if a.StrandPlan? then left[a.path := a.content] else left, Step(s, a).start)
  {
    if a.StrandPlan? {
      StrandedIsUserData(s.tree, a.path, a.content);
      assert first + left[a.path := a.content] == (first + left)[a.path := a.content];
    }
  }

  /** Through any interruptions and resumptions, at every moment, each file that was the
      user's is still there with its contents. */
  lemma UserFilesAlwaysThere(states: seq<State>, actions: seq<Action>, i: nat, p: Path)
    requires Execution(states, actions) && i <= |actions|
    requires p in states[0].tree && KindOf(states[0].tree, p) == UserData
    ensures p in states[i].tree && states[i].tree[p] == states[0].tree[p]
  {
    EveryStateSafe(states, actions, i);
    StartIsOriginal(states, actions, i);
  }

  /** An interrupted uninstall can always be taken up again: the directory is untouched, or
      its plan is there and will be accepted. */
  lemma AlwaysResumable(states: seq<State>, actions: seq<Action>, i: nat)
    requires Execution(states, actions) && i <= |actions| && states[i].phase.Idle?
    ensures Untouched(states[i]) || Allowed(states[i], ReadPlan)
  {
    EveryStateSafe(states, actions, i);
    if Resumable(states[i]) {
      OwnPlanIsValid(states[i].start, PlanOf(states[i].tree));
    }
  }

  ghost function UsersOf(tree: Tree): Tree { map p | p in tree && KindOf(tree, p) == UserData :: tree[p] }

  /** A completed uninstall leaves exactly the user's files of the original installation and the
      temporary plans that crashes stranded. */
  lemma CompletionIsExact(states: seq<State>, actions: seq<Action>, i: nat)
    requires Execution(states, actions) && i <= |actions| && states[i].phase.Done?
    ensures states[i].tree == UsersOf(states[0].tree) + Stranded(actions[..i])
    ensures states[i].unlinked
  {
    EveryStateSafe(states, actions, i);
    StartIsOriginal(states, actions, i);
  }

  /** A user file outlives everything: any upgrades, then an uninstall interrupted and resumed any
      number of times, at every moment of it. */
  lemma UserFilesOutliveAll(trees: seq<Tree>, states: seq<State>, actions: seq<Action>, i: nat, p: Path)
    requires |trees| > 0 && forall j :: 0 < j < |trees| ==> Upgraded(trees[j - 1], trees[j])
    requires Execution(states, actions) && i <= |actions| && states[0].tree == trees[|trees| - 1]
    requires p in trees[0] && KindOf(trees[0], p) == UserData && SafePath(p)
    ensures p in states[i].tree && states[i].tree[p] == trees[0][p]
  {
    UserFileSurvivesUpgrades(trees, |trees| - 1, p);
    UserFilesAlwaysThere(states, actions, i, p);
  }

  // ----- the uninstaller -----------------------------------------------------------

  /** What an interruption while the plan is written leaves, if the temporary file was there. */
  ghost function Left(s: State, temporary: Path, stranded: Option<File>): State {
    if stranded.None? then s
    else s.(tree := s.tree[temporary := stranded.value], start := s.tree[temporary := stranded.value])
  }

  /** The uninstaller. `budget` is the number of operations until it is interrupted. */
  class Uninstaller {
    var tree: Tree
    var moved: bool
    var unlinked: bool
    var budget: nat
    ghost var phase: Phase
    ghost var start: Tree

    ghost function Abs(): State
      reads this
    {
      State(tree, moved, unlinked, phase, start)
    }

    constructor (tree: Tree, budget: nat)
      requires UNINSTALL_FILE !in tree
      ensures Untouched(Abs()) && Abs().tree == tree
    {
      this.tree, start := tree, tree;
      moved, unlinked, phase := false, false, Idle;
      this.budget := budget;
    }

    /** The interruption that may come before any operation. */
    method Interrupted() returns (stop: bool)
      requires Inv(Abs()) && !phase.Done?
      modifies this`budget, this`phase
      ensures Inv(Abs())
      ensures stop ==> Abs() == Step(old(Abs()), Crash) && budget == 0
      ensures !stop ==> Abs() == old(Abs())
    {
      StepKeeps(Abs(), Crash);
      if budget == 0 {
        phase := Idle;
        return true;
      }
      budget := budget - 1;
      stop := false;
    }

    /** Collects what is not the user's. */
    method MakePlan() returns (files: seq<Path>)
      ensures PlanFor(tree, files)
    {
      var kinds := ReadInstallationFiles(tree);
      files := [];
      var todo := tree.Keys;
      while todo != {}
        invariant todo <= tree.Keys
        invariant forall p :: p in files <==> p in tree.Keys - todo && KindOf(tree, p) != UserData
        decreases todo
      {
        var p :| p in todo;
        todo := todo - {p};
        if kinds[p] != UserData { files := files + [p]; }
      }
    }

    /** Reads the plan back, or makes and writes one. An interruption while the plan is written may
        leave it under its temporary name. */
    method Prepare(temporary: Path, stranded: Option<File>) returns (stop: bool)
      requires Inv(Abs()) && phase.Idle? && Temporary(temporary, tree)
      modifies this
      ensures Inv(Abs()) && (start == old(start) || (stop && Abs() == Left(old(Abs()), temporary, stranded)))
      ensures !stop ==> phase.Moving? && Resumable(Abs())
      ensures stop ==> phase.Idle? && budget == 0
    {
      if UNINSTALL_FILE in tree {
        OwnPlanIsValid(start, PlanOf(tree));
        stop := Interrupted();
        if stop { return; }
        StepKeeps(Abs(), ReadPlan);
        phase := Moving;
      } else {
        var files := MakePlan();
        stop := Interrupted();
        if stop {
          if stranded.Some? {
            StepKeeps(Abs(), StrandPlan(temporary, stranded.value));
            start := tree[temporary := stranded.value];
            tree := tree[temporary := stranded.value];
          }
          return;
        }
        StepKeeps(Abs(), WritePlan(files));
        tree := tree[UNINSTALL_FILE := UninstallPlan(files)];
        phase := Moving;
      }
    }

    /** Deletes the planned file at position `i`, unless it is one of the two markers. */
    method DeleteOne(i: nat)
      requires Resumable(Abs()) && OnTrack(Abs()) && phase == Deleting(i) && i < |PlanOf(tree)|
      modifies this`tree, this`phase
      ensures Resumable(Abs()) && OnTrack(Abs()) && phase == Deleting(i + 1) && PlanOf(tree) == old(PlanOf(tree))
    {
      var p := tree[UNINSTALL_FILE].files[i];
      DeleteNextKeeps(Abs());
      DeleteKeeps(Abs(), p);
      if !Kept(p) { tree := tree - {p}; }
      phase := Deleting(i + 1);
    }

    /** Deletes the planned files except the two markers. */
    method DeletePlanned() returns (stop: bool)
      requires Resumable(Abs()) && OnTrack(Abs()) && phase == Deleting(0)
      modifies this
      ensures Inv(Abs()) && start == old(start)
      ensures !stop ==> phase == Deleting(|PlanOf(tree)|) && Resumable(Abs())
      ensures stop ==> phase.Idle? && budget == 0
    {
      var n := |tree[UNINSTALL_FILE].files|;
      var i := 0;
      while i < n
        invariant 0 <= i <= n == |PlanOf(tree)| && phase == Deleting(i)
        invariant Resumable(Abs()) && OnTrack(Abs()) && start == old(start)
      {
        stop := Interrupted();
        if stop { return; }
        DeleteOne(i);
        i := i + 1;
      }
      stop := false;
    }

    /** Removes the system entries, then the markers, then the plan file. */
    method Finish() returns (stop: bool)
      requires Inv(Abs()) && phase == Deleting(|PlanOf(tree)|) && Resumable(Abs())
      modifies this
      ensures Inv(Abs()) && start == old(start)
      ensures !stop ==> Finished(Abs())
      ensures stop ==> phase.Idle? && budget == 0
    {
      stop := Interrupted();
      if stop { return; }
      StepKeeps(Abs(), RemoveEntries);
      unlinked, phase := true, DroppingManifest;
      stop := DropMarkers();
      if stop { return; }
      stop := Interrupted();
      if stop { return; }
      StepKeeps(Abs(), DeletePlan);
      tree, phase := tree - {UNINSTALL_FILE}, Done;
    }

    method DropMarkers() returns (stop: bool)
      requires Inv(Abs()) && phase.DroppingManifest?
      modifies this
      ensures Inv(Abs()) && start == old(start)
      ensures !stop ==> phase.Finishing?
      ensures stop ==> phase.Idle? && budget == 0
    {
      stop := Interrupted();
      if stop { return; }
      StepKeeps(Abs(), DeleteManifest);
      tree, phase := tree - {FILES_FILE}, DroppingState;
      stop := Interrupted();
      if stop { return; }
      StepKeeps(Abs(), DeleteState);
      tree, phase := tree - {STATE_FILE}, Finishing;
    }

    /** `UninstallAsync`: from the installed state or any interrupted one, either it completes
        and exactly the user's files are left, or it is interrupted and can be run again. */
    method Run(temporary: Path, stranded: Option<File>) returns (done: bool)
      requires Inv(Abs()) && phase.Idle? && Temporary(temporary, tree)
      modifies this
      ensures Inv(Abs()) && (start == old(start) || (!done && Abs() == Left(old(Abs()), temporary, stranded)))
      ensures done ==> Finished(Abs())
      ensures !done ==> phase.Idle? && budget == 0
    {
      var stop := Prepare(temporary, stranded);
      if stop { return false; }
      stop := Interrupted();
      if stop { return false; }
      StepKeeps(Abs(), MoveAside);
      moved, phase := true, Deleting(0);
      stop := DeletePlanned();
      if stop { return false; }
      stop := Finish();
      done := !stop;
    }
  }
}
