/** Which files of an installation belong to the user, and that they survive: through
    upgrades, which copy them over, and through an uninstall that may be interrupted and
    resumed any number of times.

    Paths are relative to the installation directory, split at the separators and case-folded.
 */
module UserFiles {
  import opened Common

  type Path = seq<string>

  /** File contents, as far as the installer reads them back. */
  datatype File = Data(text: string) | Manifest(lines: seq<Path>) | UninstallPlan(files: seq<Path>)
  type Tree = map<Path, File>

  const STATE_FILE: Path := [".notmyfault-install"]
  const FILES_FILE: Path := [".notmyfault-files"]
  const UNINSTALL_FILE: Path := [".notmyfault-uninstall"]

  datatype Kind = Program | UserData | SigningKey

  // ----- classification ------------------------------------------------------------

  predicate IsSigningKey(p: Path) {
    p == ["app", ".private", "signing_private_key.pem"] || p == ["app", ".private", "signing_public.pem"]
  }

  predicate IsUserFolder(p: Path) {
    ["app", ".private"] <= p || ["app", "user_plugins"] <= p || ["user_plugins"] <= p
  }

  function ClassifyFile(p: Path, installerOwned: bool): Kind {
    if IsSigningKey(p) then SigningKey
    else if IsUserFolder(p) then UserData
    else if installerOwned then Program else UserData
  }

  /** The files of installations that predate the manifest. */
  predicate LegacyProgramFile(p: Path) {
    || (|p| > 1 && p[0] in {"runtime", ".venv", "wheels", ".setup-data"})
    || (|p| > 2 && p[0] == "app" && p[1] in {"notmyfault", "dashboard", "win_toaster"})
    || p == ["notmyfault.vbs"] || p == ["install.log"]
    || (|p| == 2 && p[0] == "app" && p[1] in {"build.py", "nmf.py", "dashboard.pyw", "notmyfault.pyw",
         "requirements.txt", "build.json", "build.json.sig", "installer-build.json", "license", "logo.ico", "logo.png"})
  }

  predicate EndsWith(s: string, tail: string) { |tail| <= |s| && s[|s| - |tail|..] == tail }

  function IndexOf(s: string, sub: string): (r: Option<nat>)
    ensures r.Some? ==> r.value <= |s|
  {
    if sub <= s then Some(0)
    else if s == "" then None
    else
      var r := IndexOf(s[1..], sub);
      if r.Some? then Some(r.value + 1) else None
  }

  /** The source file whose bytecode cache `p` is named after. */
  function CachedSource(p: Path): Option<Path> {
    if |p| < 2 || p[|p| - 2] != "__pycache__" || !EndsWith(p[|p| - 1], ".pyc") then None
    else
      var tag := IndexOf(p[|p| - 1], ".cpython-");
      if tag.None? then None else Some(p[..|p| - 2] + [p[|p| - 1][..tag.value] + ".py"])
  }

  function ManifestLines(tree: Tree): seq<Path> {
    if FILES_FILE in tree && tree[FILES_FILE].Manifest? then tree[FILES_FILE].lines else []
  }

  /** What the manifest, or without one the legacy list, claims for the installer. */
  function Claimed(tree: Tree): set<Path> {
    if FILES_FILE in tree then set p | p in ManifestLines(tree)
    else set p | p in tree && LegacyProgramFile(p)
  }

  predicate IsCacheOf(p: Path, claimed: set<Path>) {
    CachedSource(p).Some? && CachedSource(p).value in claimed
  }

  predicate Owned(tree: Tree, p: Path) {
    p in Claimed(tree) || (p in tree && IsCacheOf(p, Claimed(tree))) || p == STATE_FILE || p == FILES_FILE
  }

  function KindOf(tree: Tree, p: Path): Kind { ClassifyFile(p, Owned(tree, p)) }

  // ----- what the classification means ---------------------------------------------

  predicate OccursAt(s: string, sub: string, j: nat) { j <= |s| && sub <= s[j..] }

  lemma {:induction false} IndexIsFirst(s: string, sub: string)
    ensures IndexOf(s, sub).Some? ==> OccursAt(s, sub, IndexOf(s, sub).value)
    ensures forall j: nat :: OccursAt(s, sub, j) ==> IndexOf(s, sub).Some? && IndexOf(s, sub).value <= j
    decreases |s|
  {
    if !(sub <= s) && s != "" {
      IndexIsFirst(s[1..], sub);
      forall j: nat | OccursAt(s, sub, j)
        ensures IndexOf(s, sub).Some? && IndexOf(s, sub).value <= j
      {
        if j > 0 { assert s[1..][j - 1..] == s[j..] && OccursAt(s[1..], sub, j - 1); }
      }
      if IndexOf(s, sub).Some? { assert s[1..][IndexOf(s, sub).value - 1..] == s[IndexOf(s, sub).value..]; }
    }
  }

  /** The file is a bytecode cache of this source: in `__pycache__` beside it, named after it up to the
      first `.cpython-`, and ending in `.pyc`. */
  ghost predicate CacheOf(p: Path, q: Path, stem: string) {
    && |p| >= 2 && p[|p| - 2] == "__pycache__" && q == p[..|p| - 2] + [stem + ".py"]
    && stem <= p[|p| - 1] && FirstAt(p[|p| - 1], ".cpython-", |stem|) && EndsWith(p[|p| - 1], ".pyc")
  }

  ghost predicate FirstAt(s: string, sub: string, n: nat) {
    OccursAt(s, sub, n) && forall j: nat :: OccursAt(s, sub, j) ==> n <= j
  }

  lemma CachedSourceIs(p: Path, q: Path)
    ensures CachedSource(p) == Some(q) <==> exists stem :: CacheOf(p, q, stem)
  {
    if |p| >= 2 {
      var name := p[|p| - 1];
      IndexIsFirst(name, ".cpython-");
      var tag := IndexOf(name, ".cpython-");
      if CachedSource(p) == Some(q) { assert CacheOf(p, q, name[..tag.value]); }
      if stem :| CacheOf(p, q, stem) {
        assert tag.Some? && tag.value == |stem|;
        assert name[..tag.value] == stem;
      }
    }
  }

  /** In a folder that is the user's whatever the manifest says. */
  predicate InUserFolder(p: Path) {
    || (|p| >= 1 && p[0] == "user_plugins")
    || (|p| >= 2 && p[0] == "app" && (p[1] == ".private" || p[1] == "user_plugins"))
  }

  lemma UserFolderIs(p: Path)
    ensures IsUserFolder(p) <==> InUserFolder(p)
  {
    assert ["user_plugins"] <= p <==> |p| >= 1 && p[0] == "user_plugins";
    assert ["app", ".private"] <= p <==> |p| >= 2 && p[0] == "app" && p[1] == ".private";
    assert ["app", "user_plugins"] <= p <==> |p| >= 2 && p[0] == "app" && p[1] == "user_plugins";
  }

  /** The installer's by its own books: in the manifest, or the cache of a file in it, or one of the two
      marker files. */
  ghost predicate Listed(tree: Tree, p: Path) {
    || p in ManifestLines(tree) || p == STATE_FILE || p == FILES_FILE
    || (p in tree && exists q, stem :: q in ManifestLines(tree) && CacheOf(p, q, stem))
  }

  /** With a manifest, a file is the user's exactly if it lies in a user folder or is not listed, the two
      signing keys apart. */
  lemma KindIff(tree: Tree, p: Path)
    requires FILES_FILE in tree
    ensures KindOf(tree, p) == SigningKey <==>
      p == ["app", ".private", "signing_private_key.pem"] || p == ["app", ".private", "signing_public.pem"]
    ensures KindOf(tree, p) != SigningKey ==> (KindOf(tree, p) == UserData <==> InUserFolder(p) || !Listed(tree, p))
  {
    UserFolderIs(p);
    CacheIsListed(tree, p);
  }

  lemma CacheIsListed(tree: Tree, p: Path)
    requires FILES_FILE in tree
    ensures IsCacheOf(p, Claimed(tree)) <==> exists q, stem :: q in ManifestLines(tree) && CacheOf(p, q, stem)
  {
    if IsCacheOf(p, Claimed(tree)) {
      CachedSourceIs(p, CachedSource(p).value);
      var stem :| CacheOf(p, CachedSource(p).value, stem);
      assert CachedSource(p).value in ManifestLines(tree);
    }
    if q, stem :| q in ManifestLines(tree) && CacheOf(p, q, stem) { CachedSourceIs(p, q); }
  }

  /** `ReadInstallationFiles`. */
  method ReadInstallationFiles(tree: Tree) returns (kinds: map<Path, Kind>)
    ensures kinds == map p | p in tree :: KindOf(tree, p)
  {
    var claimed := Claimed(tree);
    var owned := claimed;
    var todo := tree.Keys;
    while todo != {}
      invariant todo <= tree.Keys
      invariant owned == claimed + set p | p in tree.Keys - todo && IsCacheOf(p, claimed)
      decreases todo
    {
      var p :| p in todo;
      todo := todo - {p};
      if IsCacheOf(p, claimed) { owned := owned + {p}; }
    }
    owned := owned + {STATE_FILE, FILES_FILE};
    kinds := map p | p in tree :: ClassifyFile(p, p in owned);
  }

  // ----- upgrades ------------------------------------------------------------------

  /** What an upgrade must carry over. */
  function Preserved(tree: Tree): set<Path> { set p | p in tree && KindOf(tree, p) != Program }

  /** `RestoreUserFiles`: fails when the new program already has a file of that name. */
  method RestoreUserFiles(backup: Tree, live: Tree, preserved: set<Path>) returns (r: Result<Tree, Path>)
    requires preserved <= backup.Keys
    ensures r.Ok? <==> preserved !! live.Keys
    ensures r.Ok? ==> r.value == live + (map p | p in preserved :: backup[p])
    ensures r.Err? ==> r.error in preserved && r.error in live
  {
    var todo := preserved;
    var result := live;
    while todo != {}
      invariant todo <= preserved && (preserved - todo) !! live.Keys
      invariant result == live + (map p | p in preserved - todo :: backup[p])
      decreases todo
    {
      var p :| p in todo;
      if p in result { return Err(p); }
      result := result[p := backup[p]];
      todo := todo - {p};
    }
    r := Ok(result);
  }

  /** The paths the new manifest lists. */
  function ManifestPaths(tree: Tree, preserved: set<Path>): set<Path> {
    (set p | p in tree.Keys + {STATE_FILE} && ClassifyFile(p, true) == Program && p !in preserved && p != FILES_FILE)
    + {FILES_FILE}
  }

  /** `WriteState`: the marker file, then the manifest of everything that is the installer's. */
  method WriteState(tree: Tree, version: string, preserved: set<Path>) returns (r: Tree)
    ensures FILES_FILE in r && r[FILES_FILE].Manifest?
    ensures (set p | p in r[FILES_FILE].lines) == ManifestPaths(tree, preserved)
    ensures r == tree[STATE_FILE := Data(version)][FILES_FILE := r[FILES_FILE]]
  {
    r := tree[STATE_FILE := Data(version)];
    var todo := r.Keys;
    var lines: seq<Path> := [];
    while todo != {}
      invariant todo <= r.Keys
      invariant (set p | p in lines) == set p | p in r.Keys - todo
        && ClassifyFile(p, true) == Program && p !in preserved && p != FILES_FILE
      decreases todo
    {
      var p :| p in todo;
      todo := todo - {p};
      if ClassifyFile(p, true) == Program && p !in preserved && p != FILES_FILE {
        ghost var before := set q | q in lines;
        lines := lines + [p];
        assert (set q | q in lines) == before + {p};
      }
    }
    ghost var before := set q | q in lines;
    lines := lines + [FILES_FILE];
    assert (set q | q in lines) == before + {FILES_FILE};
    r := r[FILES_FILE := Manifest(lines)];
  }

  /** The scratch directories of an installation, which are deleted when it is done. */
  predicate Scratch(p: Path) { |p| > 1 && (p[0] == "wheels" || p[0] == ".setup-data") }

  const LAUNCHER: Path := ["notmyfault.vbs"]
  const UNINSTALLER: Path := ["notmyfault-uninstall.exe"]

  /** What an upgrade brings: the files unpacked, the tree that the build leaves, and the contents
      of the two files written afterwards. */
  datatype Delivery = Delivery(extracted: Tree, built: Tree, launcher: File, uninstaller: File)

  /** The unpacked files with the preserved ones put back. */
  function Restored(before: Tree, extracted: Tree): Tree { extracted + (map p | p in Preserved(before) :: before[p]) }

  /** The tree that the build starts from: every file of the old one that is the user's or a signing key,
      with its contents, and the unpacked files of other names. */
  lemma RestoredIs(before: Tree, extracted: Tree, p: Path)
    ensures p in before && KindOf(before, p) in {UserData, SigningKey} ==>
      p in Restored(before, extracted) && Restored(before, extracted)[p] == before[p]
    ensures !(p in before && KindOf(before, p) in {UserData, SigningKey}) ==>
      && (p in Restored(before, extracted) <==> p in extracted)
      && (p in extracted ==> Restored(before, extracted)[p] == extracted[p])
  {
    assert KindOf(before, p) in {UserData, SigningKey} <==> KindOf(before, p) != Program;
  }

  /** The build may write what it likes, but leaves the user's data as it found it. Signing keys may
      be rewritten. */
  ghost predicate Spares(before: Tree, restored: Tree, built: Tree) {
    forall p :: p in before && KindOf(before, p) == UserData && p in restored ==> p in built && built[p] == restored[p]
  }

  /** After the build: launcher and uninstaller written, scratch directories gone. */
  function Tidied(d: Delivery): Tree {
    map p | p in d.built[LAUNCHER := d.launcher][UNINSTALLER := d.uninstaller] && !Scratch(p) ::
      d.built[LAUNCHER := d.launcher][UNINSTALLER := d.uninstaller][p]
  }

  /** The contract of `WriteState`. */
  ghost predicate StateWritten(tree: Tree, preserved: set<Path>, after: Tree) {
    && FILES_FILE in after && after[FILES_FILE].Manifest? && STATE_FILE in after
    && (set p | p in after[FILES_FILE].lines) == ManifestPaths(tree, preserved)
    && after == tree[STATE_FILE := after[STATE_FILE]][FILES_FILE := after[FILES_FILE]]
  }

  ghost predicate UpgradedVia(before: Tree, d: Delivery, after: Tree) {
    && Preserved(before) !! d.extracted.Keys
    && Spares(before, Restored(before, d.extracted), d.built)
    && StateWritten(Tidied(d), Preserved(before), after)
  }

  /** `after` replaced `before` in an upgrade that went through. */
  ghost predicate Upgraded(before: Tree, after: Tree) { exists d: Delivery :: UpgradedVia(before, d, after) }

  /** The upgrade from the classification of the old files to the new manifest. */
  method UpgradeFiles(
      before: Tree, extracted: Tree, build: Tree -> Tree, launcher: File, uninstaller: File, version: string)
      returns (r: Result<Tree, Path>)
    ensures r.Ok? <==> Preserved(before) !! extracted.Keys
    ensures r.Err? ==> r.error in before && KindOf(before, r.error) != Program && r.error in extracted
    ensures r.Ok? && Spares(before, Restored(before, extracted), build(Restored(before, extracted))) ==>
      UpgradedVia(before, Delivery(extracted, build(Restored(before, extracted)), launcher, uninstaller), r.value)
  {
    var kinds := ReadInstallationFiles(before);
    var preserved := set p | p in kinds && kinds[p] != Program;
    assert preserved == Preserved(before);
    var restored := RestoreUserFiles(before, extracted, preserved);
    if restored.Err? { return restored; }
    var d := Delivery(extracted, build(restored.value), launcher, uninstaller);
    var tree := d.built[LAUNCHER := launcher][UNINSTALLER := uninstaller];
    tree := DeleteTree(tree, "wheels");
    tree := DeleteTree(tree, ".setup-data");
    assert tree == Tidied(d);
    var after := WriteState(tree, version, preserved);
    r := Ok(after);
  }

  /** `DeleteTree` of a directory at the root. */
  method DeleteTree(tree: Tree, directory: string) returns (r: Tree)
    ensures r == map p | p in tree && !(|p| > 1 && p[0] == directory) :: tree[p]
  {
    r := tree;
    var todo := tree.Keys;
    while todo != {}
      invariant todo <= tree.Keys
      invariant r == map p | p in tree && (p in todo || !(|p| > 1 && p[0] == directory)) :: tree[p]
      decreases todo
    {
      var p :| p in todo;
      todo := todo - {p};
      if |p| > 1 && p[0] == directory { r := r - {p}; }
    }
  }

  /** The installer's own files are never the user's. */
  lemma StateFilesAreProgram(tree: Tree)
    ensures KindOf(tree, STATE_FILE) == Program && KindOf(tree, FILES_FILE) == Program
    ensures !IsSigningKey(UNINSTALL_FILE) && !IsUserFolder(UNINSTALL_FILE)
  {
    assert |STATE_FILE[0]| == 19 && |FILES_FILE[0]| == 17 && |UNINSTALL_FILE[0]| == 21;
    assert |"user_plugins"| == 12;
    assert ["user_plugins"][0] == "user_plugins";
  }

  /** The paths at which an upgrade loses what was there. */
  predicate Lost(p: Path, before: Tree, d: Delivery)
    requires p in before
  {
    || Scratch(p)
    || (p == LAUNCHER && before[p] != d.launcher)
    || (p == UNINSTALLER && before[p] != d.uninstaller)
  }

  /** An upgrade keeps a user file with its contents exactly unless it lies in a scratch directory,
      or is named like the launcher or the uninstaller and overwritten. */
  lemma UserFileSurvivesIff(before: Tree, d: Delivery, after: Tree, p: Path)
    requires UpgradedVia(before, d, after) && p in before && KindOf(before, p) == UserData
    ensures p in after && after[p] == before[p] <==> !Lost(p, before, d)
  {
    StateFilesAreProgram(before);
    assert p in Preserved(before);
    assert p in Restored(before, d.extracted) && Restored(before, d.extracted)[p] == before[p];
    assert |LAUNCHER| == |UNINSTALLER| == 1 && |LAUNCHER[0]| != |UNINSTALLER[0]|;
  }

  /** A user file that is still there stays the user's if and only if it lies in a user folder or is
      not the bytecode cache of a program file the new version brings. */
  lemma UserFileStaysIff(before: Tree, d: Delivery, after: Tree, p: Path)
    requires UpgradedVia(before, d, after) && p in before && KindOf(before, p) == UserData && p in after
    ensures KindOf(after, p) == UserData <==>
      IsUserFolder(p) || !IsCacheOf(p, ManifestPaths(Tidied(d), Preserved(before)))
  {
    assert p in Preserved(before);
    StateFilesAreProgram(before);
    assert ManifestLines(after) == after[FILES_FILE].lines;
    assert Claimed(after) == ManifestPaths(Tidied(d), Preserved(before));
  }

  /** A path at which nothing the upgrade does can touch a user file. */
  predicate SafePath(p: Path) {
    IsUserFolder(p) || (CachedSource(p).None? && !Scratch(p) && p != LAUNCHER && p != UNINSTALLER)
  }

  lemma UserFoldersAreApart(p: Path)
    requires IsUserFolder(p)
    ensures !Scratch(p) && p != LAUNCHER && p != UNINSTALLER
  {
    assert p[0] == "app" || p[0] == "user_plugins";
    assert |"app"| == 3 && |"user_plugins"| == 12 && |"wheels"| == 6 && |".setup-data"| == 11;
    assert |LAUNCHER[0]| == 14 && |UNINSTALLER[0]| == 24;
  }

  /** The file is there with these contents, and is the user's. */
  ghost predicate Keeps(tree: Tree, p: Path, contents: File) {
    p in tree && tree[p] == contents && KindOf(tree, p) == UserData
  }

  /** An upgrade keeps a user file at a safe path: contents and kind. */
  lemma UserFileSurvivesUpgrade(before: Tree, after: Tree, p: Path)
    requires Upgraded(before, after) && p in before && KindOf(before, p) == UserData && SafePath(p)
    ensures Keeps(after, p, before[p])
  {
    var d: Delivery :| UpgradedVia(before, d, after);
    if IsUserFolder(p) { UserFoldersAreApart(p); }
    UserFileSurvivesIff(before, d, after, p);
    UserFileStaysIff(before, d, after, p);
  }

  /** Over any number of upgrades, a user file at a safe path keeps its contents and its kind. */
  lemma {:induction false} UserFileSurvivesUpgrades(trees: seq<Tree>, i: nat, p: Path)
    requires i < |trees| && forall j :: 0 < j < |trees| ==> Upgraded(trees[j - 1], trees[j])
    requires p in trees[0] && KindOf(trees[0], p) == UserData && SafePath(p)
    ensures Keeps(trees[i], p, trees[0][p])
  {
    if i > 0 {
      UserFileSurvivesUpgrades(trees, i - 1, p);
      UserFileSurvivesUpgrade(trees[i - 1], trees[i], p);
    }
  }

  lemma {:induction false} AsLines(paths: set<Path>) returns (lines: seq<Path>)
    ensures (set p | p in lines) == paths
    decreases |paths|
  {
    lines := [];
    if paths != {} {
      var p :| p in paths;
      var rest := AsLines(paths - {p});
      lines := [p] + rest;
      assert (set q | q in lines) == {p} + (set q | q in rest);
    }
  }

  /** An upgrade whose files do not collide can be completed. */
  lemma Complete(before: Tree, d: Delivery) returns (after: Tree)
    requires Preserved(before) !! d.extracted.Keys && Spares(before, Restored(before, d.extracted), d.built)
    ensures UpgradedVia(before, d, after)
  {
    var lines := AsLines(ManifestPaths(Tidied(d), Preserved(before)));
    after := Tidied(d)[STATE_FILE := Data("")][FILES_FILE := Manifest(lines)];
    assert |STATE_FILE[0]| != |FILES_FILE[0]|;
  }

  ghost predicate LostInUpgrade(before: Tree, after: Tree, p: Path) {
    Upgraded(before, after) && p in before && KindOf(before, p) == UserData && p !in after
  }

  const WHEEL: Path := ["wheels", "mine.whl"]

  /** A file the user put into a directory named `wheels` is lost in an upgrade that goes through. */
  lemma WheelsFileIsLost()
    ensures exists before, after, p :: LostInUpgrade(before, after, p)
  {
    var before: Tree := map[FILES_FILE := Manifest([]), WHEEL := Data("")];
    StateFilesAreProgram(before);
    WheelIsOrdinary();
    assert |FILES_FILE| == |STATE_FILE| == 1 && |WHEEL| == 2;
    assert Claimed(before) == {};
    assert KindOf(before, WHEEL) == UserData;
    var built := Restored(before, map[]);
    var d := Delivery(map[], built, Data(""), Data(""));
    var after := Complete(before, d);
    UserFileSurvivesIff(before, d, after, WHEEL);
    assert LostInUpgrade(before, after, WHEEL);
  }

  lemma WheelIsOrdinary()
    ensures !IsSigningKey(WHEEL) && !IsUserFolder(WHEEL) && Scratch(WHEEL)
  {
    assert |WHEEL[0]| == 6 && |"user_plugins"| == 12 && |"app"| == 3;
    assert ["app", ".private"][0] == "app" && ["app", "user_plugins"][0] == "app";
    assert ["user_plugins"][0] == "user_plugins";
  }

  const CACHE: Path := ["app", "__pycache__", "x.cpython-312.pyc"]
  const SOURCE: Path := ["app", "x.py"]

  lemma CacheNamesSource()
    ensures CachedSource(CACHE) == Some(SOURCE)
  {
    var name := "x.cpython-312.pyc";
    assert name[1..][..9] == ".cpython-";
    assert IndexOf(name[1..], ".cpython-") == Some(0);
    assert name[0] != ".cpython-"[0];
    assert IndexOf(name, ".cpython-") == Some(1);
    assert name[..1] + ".py" == "x.py";
    assert CACHE[..1] + ["x.py"] == SOURCE;
    assert name[|name| - 4..] == ".pyc";
  }

  lemma CacheIsOrdinary()
    ensures forall p :: p == CACHE || p == SOURCE ==> !IsSigningKey(p) && !IsUserFolder(p)
  {
    assert CACHE[1] == "__pycache__" && |CACHE[1]| == 11 && |SOURCE[1]| == 4 && |CACHE[0]| == 3;
    assert ["app", ".private"][1] == ".private" && |".private"| == 8;
    assert ["app", "user_plugins"][1] == "user_plugins" && |"user_plugins"| == 12;
    assert ["user_plugins"][0] == "user_plugins";
  }

  ghost predicate Reclassified(before: Tree, after: Tree, p: Path) {
    Upgraded(before, after) && p in before && KindOf(before, p) == UserData && KindOf(after, p) == Program
  }

  const EXAMPLE: Tree := map[FILES_FILE := Manifest([]), CACHE := Data("")]

  lemma ExampleBefore()
    ensures CACHE in EXAMPLE && KindOf(EXAMPLE, CACHE) == UserData
    ensures Preserved(EXAMPLE) == {CACHE}
  {
    CacheIsOrdinary();
    StateFilesAreProgram(EXAMPLE);
    assert |FILES_FILE| == |STATE_FILE| == 1 && |CACHE| == 3;
    assert Claimed(EXAMPLE) == {};
  }

  lemma ExampleManifest(d: Delivery)
    requires SOURCE in d.built
    ensures SOURCE in ManifestPaths(Tidied(d), {CACHE})
  {
    CacheIsOrdinary();
    assert |FILES_FILE| == |LAUNCHER| == |UNINSTALLER| == 1 && |CACHE| == 3 && |SOURCE| == 2;
    assert SOURCE[0] == "app" && |"app"| == 3 && |"wheels"| == 6 && |".setup-data"| == 11;
  }

  /** A cache file the user left beside an own script becomes program data when the new version
      ships a script of that name. */
  lemma CacheFileIsReclassified()
    ensures exists before, after, p :: Reclassified(before, after, p)
  {
    ExampleBefore();
    var extracted: Tree := map[SOURCE := Data("")];
    assert |CACHE| != |SOURCE|;
    var d := Delivery(extracted, Restored(EXAMPLE, extracted), Data(""), Data(""));
    var after := Complete(EXAMPLE, d);
    ExampleManifest(d);
    CacheNamesSource();
    CacheIsOrdinary();
    assert CACHE[0] == "app" && |"app"| == 3 && |"wheels"| == 6 && |".setup-data"| == 11;
    UserFileSurvivesIff(EXAMPLE, d, after, CACHE);
    UserFileStaysIff(EXAMPLE, d, after, CACHE);
    assert Reclassified(EXAMPLE, after, CACHE);
  }
}
