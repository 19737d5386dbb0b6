/** The registry of custom data types: availability is withdrawn from every type that depends,
    directly or not, on one that is missing or unavailable.
 */
module TypeRegistry {
  import opened Common
  import opened DataTypes

  type Definitions = map<string, Definition>

  /** The custom types a schema mentions. */
  function References(t: Type): set<string> {
    match t.kind
    case CustomKind(name) => {name}
    case ArrayKind(items) => References(items)
    case ObjectKind(properties, _, extra) =>
      (set k, n | k in properties && n in References(properties[k]) :: n)
      + (match extra case Typed(e) => References(e) case _ => {})
    case UnionKind(variants) => set i, n | 0 <= i < |variants| && n in References(variants[i]) :: n
    case _ => {}
  }

  function Dependencies(defs: Definitions, name: string): set<string> {
    if name in defs then References(defs[name].schema) else {}
  }

  // ----- what availability means ---------------------------------------------------

  /** `path` leads from its first name to its last, each a dependency of the one before. */
  ghost predicate IsPath(defs: Definitions, path: seq<string>) {
    && path != []
    && forall i :: 0 <= i < |path| - 1 ==> path[i] in defs && path[i + 1] in Dependencies(defs, path[i])
  }

  ghost predicate Reaches(defs: Definitions, a: string, b: string) {
    exists path :: IsPath(defs, path) && path[0] == a && path[|path| - 1] == b
  }

  /** Everything the type depends on, itself included, is defined and was declared available. */
  ghost predicate Usable(defs: Definitions, name: string) {
    forall b :: Reaches(defs, name, b) ==> b in defs && defs[b].available
  }

  /** A registry with the same types as `before`, some of them made unavailable. */
  ghost predicate Withdrawn(before: Definitions, after: Definitions) {
    && after.Keys == before.Keys
    && (forall n :: n in after ==> after[n].schema == before[n].schema && after[n].shared == before[n].shared)
    && (forall n :: n in after && after[n].available ==> before[n].available)
    && (forall n :: n in after && !after[n].available ==> !Usable(before, n))
  }

  /** Available types depend on available types, shared types on shared ones. */
  ghost predicate Consistent(defs: Definitions) {
    forall n, d :: n in defs && d in Dependencies(defs, n) ==>
      && (defs[n].available ==> d in defs && defs[d].available)
      && (defs[n].shared && d in defs ==> defs[d].shared)
  }

  lemma SelfReached(defs: Definitions, name: string)
    ensures Reaches(defs, name, name)
  {
    assert IsPath(defs, [name]);
  }

  lemma StepReached(defs: Definitions, a: string, b: string, c: string)
    requires a in defs && b in Dependencies(defs, a) && Reaches(defs, b, c)
    ensures Reaches(defs, a, c)
  {
    var path :| IsPath(defs, path) && path[0] == b && path[|path| - 1] == c;
    var longer := [a] + path;
    forall i | 0 <= i < |longer| - 1 ensures longer[i] in defs && longer[i + 1] in Dependencies(defs, longer[i]) {
      if i > 0 { assert longer[i] == path[i - 1] && longer[i + 1] == path[i]; }
    }
    assert IsPath(defs, longer);
  }

  lemma UnusableSpreads(defs: Definitions, a: string, b: string)
    requires a in defs && b in Dependencies(defs, a) && (b !in defs || !Usable(defs, b))
    ensures !Usable(defs, a)
  {
    if b !in defs {
      SelfReached(defs, b);
      StepReached(defs, a, b, b);
    } else {
      var c :| Reaches(defs, b, c) && !(c in defs && defs[c].available);
      StepReached(defs, a, b, c);
    }
  }

  lemma SelfUnavailable(defs: Definitions, name: string)
    requires name in defs && !defs[name].available
    ensures !Usable(defs, name)
  {
    SelfReached(defs, name);
  }

  /** In a closed registry every type reached from an available one is available. */
  lemma {:induction false} ClosedPath(before: Definitions, after: Definitions, path: seq<string>)
    requires Withdrawn(before, after) && IsPath(before, path) && path[0] in after && after[path[0]].available
    requires Supported(after)
    ensures path[|path| - 1] in after && after[path[|path| - 1]].available
  {
    if |path| > 1 {
      assert Dependencies(before, path[0]) == Dependencies(after, path[0]) && NameSupported(after, path[0]);
      assert path[1] in Dependencies(before, path[0]);
      forall i | 0 <= i < |path[1..]| - 1
        ensures path[1..][i] in before && path[1..][i + 1] in Dependencies(before, path[1..][i])
      {
        assert path[1..][i] == path[i + 1] && path[1..][i + 1] == path[i + 2];
      }
      ClosedPath(before, after, path[1..]);
    }
  }

  /** The greatest fixpoint: a type stays available exactly when it is usable. */
  lemma AvailableIffUsable(before: Definitions, after: Definitions, name: string)
    requires Withdrawn(before, after) && name in before
    requires Supported(after)
    ensures after[name].available <==> Usable(before, name)
  {
    if after[name].available {
      forall b | Reaches(before, name, b) ensures b in before && before[b].available {
        var path :| IsPath(before, path) && path[0] == name && path[|path| - 1] == b;
        ClosedPath(before, after, path);
      }
    }
  }

  // ----- the registry --------------------------------------------------------------

  class TypeRegistry {
    var definitions: Definitions

    constructor (definitions: Definitions)
      ensures this.definitions == definitions
    {
      this.definitions := definitions;
    }

    /** The first pass for one type: a missing dependency withdraws it, and a shared type on a
        private one is an error. */
    method CheckDirect(name: string) returns (r: Result<(), Error>)
      requires name in definitions
      modifies this
      ensures r.Ok? ==> DirectChecked(old(definitions), definitions, name)
      ensures r.Err? ==> r.error == PrivatePluginData && SharesPrivate(old(definitions), name)
    {
      var todo := Dependencies(definitions, name);
      while todo != {}
        invariant todo <= Dependencies(old(definitions), name)
        invariant OnlyMissingWithdrawn(old(definitions), definitions, name)
        invariant forall d :: d in Dependencies(old(definitions), name) && d !in todo ==> DirectOk(definitions, name, d)
        decreases todo
      {
        var d :| d in todo;
        todo := todo - {d};
        if d !in definitions {
          definitions := Without(definitions, name);
        } else if definitions[name].shared && !definitions[d].shared {
          assert PrivateDependency(old(definitions), name, d);
          return Err(PrivatePluginData);
        }
      }
      r := Ok(());
    }

    /** The first pass over all types. */
    method CheckAllDirect(names: seq<string>) returns (r: Result<(), Error>)
      requires Lists(names, definitions)
      modifies this
      ensures r.Ok? ==> Withdrawn(old(definitions), definitions) && AllDirectOk(definitions)
      ensures r.Err? ==> r.error == PrivatePluginData && exists n :: SharesPrivate(old(definitions), n)
    {
      ghost var before := definitions;
      NothingWithdrawn(before);
      var i := 0;
      while i < |names|
        invariant 0 <= i <= |names| && FirstPass(before, definitions, names, i)
      {
        ghost var now := definitions;
        FirstPassName(before, now, names, i);
        r := CheckDirect(names[i]);
        if r.Err? {
          SharesPrivateBefore(before, now, names[i]);
          return;
        }
        FirstPassStep(before, now, definitions, names, i);
        i := i + 1;
      }
      FirstPassDone(before, definitions, names);
      r := Ok(());
    }

    /** One sweep of the second pass. */
    method Sweep(names: seq<string>, ghost before: Definitions) returns (changed: bool)
      requires Lists(names, definitions) && Checked(before, definitions)
      modifies this
      ensures Checked(before, definitions) && definitions.Keys == old(definitions).Keys
      ensures if changed then Available(definitions) < Available(old(definitions)) else definitions == old(definitions)
      ensures !changed ==> Supported(definitions)
    {
      changed := false;
      var i := 0;
      while i < |names|
        invariant 0 <= i <= |names| && Sweeping(before, old(definitions), definitions, names, i, changed)
      {
        var name := names[i];
        SweepName(before, old(definitions), definitions, names, i, changed);
        if definitions[name].available && Broken(definitions, name) != {} {
          SweepWithdraws(before, old(definitions), definitions, names, i, changed);
          definitions := Without(definitions, name);
          changed := true;
        } else {
          SweepPasses(before, old(definitions), definitions, names, i, changed);
        }
        i := i + 1;
      }
      SweepDone(before, old(definitions), definitions, names, changed);
    }

    /** `_check_dependencies`: on success a type is available exactly when it was declared
        available and nothing it depends on, however indirectly, is missing or unavailable. */
    method CheckDependencies(names: seq<string>) returns (r: Result<(), Error>)
      requires Lists(names, definitions)
      modifies this
      ensures r.Ok? ==> Consistent(definitions) && Withdrawn(old(definitions), definitions)
      ensures r.Ok? ==> forall n :: n in definitions ==> (definitions[n].available <==> Usable(old(definitions), n))
      ensures r.Err? ==> r.error == PrivatePluginData && exists n :: SharesPrivate(old(definitions), n)
    {
      r := CheckAllDirect(names);
      if r.Err? { return; }
      var changed := true;
      while changed
        invariant Checked(old(definitions), definitions)
        invariant !changed ==> Supported(definitions)
        decreases Available(definitions), changed
      {
        changed := Sweep(names, old(definitions));
      }
      SupportedIsConsistent(definitions);
      AllAvailableIffUsable(old(definitions), definitions);
    }
  }

  // ----- what the two passes keep --------------------------------------------------

  ghost predicate Lists(names: seq<string>, defs: Definitions) { forall n :: n in names <==> n in defs }

  ghost predicate SharesPrivate(defs: Definitions, n: string) { exists d :: PrivateDependency(defs, n, d) }

  /** One type was withdrawn, for a missing dependency, or nothing happened. */
  ghost predicate OnlyMissingWithdrawn(now: Definitions, after: Definitions, n: string)
    requires n in now
  {
    after == now || (after == Without(now, n) && !(Dependencies(now, n) <= now.Keys))
  }

  ghost predicate DirectChecked(now: Definitions, after: Definitions, n: string)
    requires n in now
  {
    OnlyMissingWithdrawn(now, after, n) && NameDirectOk(after, n)
  }

  ghost predicate FirstPass(before: Definitions, now: Definitions, names: seq<string>, i: nat)
    requires i <= |names|
  {
    Lists(names, before) && Withdrawn(before, now) && forall j :: 0 <= j < i ==> NameDirectOk(now, names[j])
  }

  lemma FirstPassName(before: Definitions, now: Definitions, names: seq<string>, i: nat)
    requires i < |names| && FirstPass(before, now, names, i)
    ensures names[i] in now
  {
    assert names[i] in names;
  }

  lemma SharesPrivateBefore(before: Definitions, now: Definitions, n: string)
    requires Withdrawn(before, now) && SharesPrivate(now, n)
    ensures SharesPrivate(before, n)
  {
    var d :| PrivateDependency(now, n, d);
    assert PrivateDependency(before, n, d);
  }

  lemma FirstPassStep(before: Definitions, now: Definitions, after: Definitions, names: seq<string>, i: nat)
    requires i < |names| && FirstPass(before, now, names, i) && names[i] in now && DirectChecked(now, after, names[i])
    ensures FirstPass(before, after, names, i + 1)
  {
    if after == now {
    } else {
      MissingWithdraws(before, now, names[i]);
      FirstPassKeeps(now, names, i, names[i]);
    }
  }

  lemma FirstPassKeeps(now: Definitions, names: seq<string>, i: nat, n: string)
    requires i <= |names| && n in now && forall j :: 0 <= j < i ==> NameDirectOk(now, names[j])
    ensures forall j :: 0 <= j < i ==> NameDirectOk(Without(now, n), names[j])
  {
    WithdrawnStaysDirect(now, n);
  }

  lemma FirstPassDone(before: Definitions, now: Definitions, names: seq<string>)
    requires FirstPass(before, now, names, |names|)
    ensures AllDirectOk(now)
  {
    forall n | n in now ensures NameDirectOk(now, n) {
      assert n in names;
      var j :| 0 <= j < |names| && names[j] == n;
    }
  }

  ghost predicate Checked(before: Definitions, now: Definitions) { Withdrawn(before, now) && AllDirectOk(now) }

  ghost predicate Sweeping(
      before: Definitions, start: Definitions, now: Definitions, names: seq<string>, i: nat, changed: bool)
    requires i <= |names|
  {
    && Lists(names, start) && now.Keys == start.Keys && Checked(before, now)
    && (if changed then Available(now) < Available(start) else now == start)
    && (!changed ==> forall j :: 0 <= j < i ==> NameSupported(now, names[j]))
  }

  lemma SweepName(before: Definitions, start: Definitions, now: Definitions, names: seq<string>, i: nat, changed: bool)
    requires i < |names| && Sweeping(before, start, now, names, i, changed)
    ensures names[i] in now
  {
    assert names[i] in names;
  }

  lemma SweepWithdraws(
      before: Definitions, start: Definitions, now: Definitions, names: seq<string>, i: nat, changed: bool)
    requires i < |names| && Sweeping(before, start, now, names, i, changed)
    requires names[i] in now && now[names[i]].available
    requires Broken(now, names[i]) != {}
    ensures Sweeping(before, start, Without(now, names[i]), names, i + 1, true)
  {
    var d :| d in Broken(now, names[i]);
    WithdrawKeeps(before, now, names[i], d);
    WithdrawnStaysDirect(now, names[i]);
    assert names[i] in Available(now);
  }

  lemma SweepPasses(
      before: Definitions, start: Definitions, now: Definitions, names: seq<string>, i: nat, changed: bool)
    requires i < |names| && Sweeping(before, start, now, names, i, changed) && names[i] in now
    requires now[names[i]].available ==> Broken(now, names[i]) == {}
    ensures Sweeping(before, start, now, names, i + 1, changed)
  {
    if now[names[i]].available { NothingBroken(now, names[i]); }
  }

  lemma SweepDone(before: Definitions, start: Definitions, now: Definitions, names: seq<string>, changed: bool)
    requires Sweeping(before, start, now, names, |names|, changed)
    ensures !changed ==> Supported(now)
  {
    if !changed {
      forall n | n in now ensures NameSupported(now, n) {
        assert n in names;
        var j :| 0 <= j < |names| && names[j] == n;
      }
    }
  }

  lemma AllAvailableIffUsable(before: Definitions, after: Definitions)
    requires Withdrawn(before, after) && Supported(after)
    ensures forall n :: n in after ==> (after[n].available <==> Usable(before, n))
  {
    forall n | n in after ensures after[n].available <==> Usable(before, n) {
      AvailableIffUsable(before, after, n);
    }
  }

  ghost function Available(defs: Definitions): set<string> { set n | n in defs && defs[n].available }

  ghost predicate NameSupported(defs: Definitions, n: string) {
    n in defs && defs[n].available ==> forall d :: d in Dependencies(defs, n) ==> d in defs && defs[d].available
  }

  ghost predicate Supported(defs: Definitions) { forall n :: n in defs ==> NameSupported(defs, n) }

  ghost predicate NameDirectOk(defs: Definitions, n: string) {
    n in defs ==> forall d :: d in Dependencies(defs, n) ==> DirectOk(defs, n, d)
  }

  ghost predicate AllDirectOk(defs: Definitions) { forall n :: n in defs ==> NameDirectOk(defs, n) }

  /** The known dependencies of a type that are unavailable. */
  function Broken(defs: Definitions, n: string): set<string> {
    set d | d in Dependencies(defs, n) && d in defs && !defs[d].available
  }

  /** The registry with one type made unavailable. */
  function Without(defs: Definitions, n: string): Definitions
    requires n in defs
  {
    defs[n := defs[n].(available := false)]
  }

  lemma NothingWithdrawn(defs: Definitions)
    ensures Withdrawn(defs, defs)
  {
    forall n | n in defs && !defs[n].available { SelfUnavailable(defs, n); }
  }

  /** A missing dependency is a reason to withdraw a type. */
  lemma MissingWithdraws(before: Definitions, defs: Definitions, n: string)
    requires Withdrawn(before, defs) && n in defs
    ensures !(Dependencies(defs, n) <= defs.Keys) ==> Withdrawn(before, Without(defs, n))
  {
    if !(Dependencies(defs, n) <= defs.Keys) {
      var d :| d in Dependencies(defs, n) && d !in defs;
      UnusableSpreads(before, n, d);
    }
  }

  lemma WithdrawnStaysDirect(defs: Definitions, n: string)
    requires n in defs
    ensures forall a :: NameDirectOk(defs, a) ==> NameDirectOk(Without(defs, n), a)
    ensures Available(Without(defs, n)) == Available(defs) - {n}
  {
    assert forall a :: Dependencies(Without(defs, n), a) == Dependencies(defs, a);
  }

  lemma NothingBroken(defs: Definitions, n: string)
    requires AllDirectOk(defs) && n in defs && defs[n].available
    requires Broken(defs, n) == {}
    ensures NameSupported(defs, n)
  {
    forall d | d in Dependencies(defs, n) ensures d in defs && defs[d].available {
      assert NameDirectOk(defs, n) && DirectOk(defs, n, d) && d !in Broken(defs, n);
    }
  }

  lemma SupportedIsConsistent(defs: Definitions)
    requires Supported(defs) && AllDirectOk(defs)
    ensures Consistent(defs)
  {
    forall n, d | n in defs && d in Dependencies(defs, n)
      ensures (defs[n].available ==> d in defs && defs[d].available) && (defs[n].shared && d in defs ==> defs[d].shared)
    {
      assert NameSupported(defs, n) && NameDirectOk(defs, n) && DirectOk(defs, n, d);
    }
  }

  /** After the first pass: an available type's dependency is defined, a shared one's is shared. */
  predicate DirectOk(defs: Definitions, n: string, d: string)
    requires n in defs
  {
    if d !in defs then !defs[n].available else defs[n].shared ==> defs[d].shared
  }

  predicate PrivateDependency(defs: Definitions, n: string, d: string) {
    n in defs && d in defs && d in Dependencies(defs, n) && defs[n].shared && !defs[d].shared
  }

  lemma WithdrawKeeps(before: Definitions, defs: Definitions, n: string, d: string)
    requires n in defs && d in Dependencies(defs, n) && d in defs && !defs[d].available && Withdrawn(before, defs)
    ensures Withdrawn(before, Without(defs, n))
  {
    UnusableSpreads(before, n, d);
  }

  // ----- require_shared ------------------------------------------------------------

  predicate Shareable(defs: Definitions, name: string) {
    name in defs && defs[name].available && defs[name].shared
  }

  /** `require_shared` raises no error: it looks only at the types the declaration itself names. */
  predicate RequireShared(t: Type, defs: Definitions) {
    match t.kind
    case CustomKind(name) => Shareable(defs, name)
    case ArrayKind(items) => RequireShared(items, defs)
    case ObjectKind(properties, _, extra) =>
      && (match extra case Typed(e) => RequireShared(e, defs) case _ => true)
      && (forall k :: k in properties ==> RequireShared(properties[k], defs))
    case UnionKind(variants) => forall i :: 0 <= i < |variants| ==> RequireShared(variants[i], defs)
    case _ => true
  }

  lemma {:induction false} RequireSharedMeans(t: Type, defs: Definitions)
    ensures RequireShared(t, defs) <==> forall n :: n in References(t) ==> Shareable(defs, n)
    decreases t
  {
    match t.kind
    case CustomKind(name) =>
    case ArrayKind(items) => RequireSharedMeans(items, defs);
    case ObjectKind(properties, _, extra) =>
      forall k | k in properties { RequireSharedMeans(properties[k], defs); }
      match extra {
        case Typed(e) => RequireSharedMeans(e, defs);
        case _ =>
      }
    case UnionKind(variants) =>
      forall i | 0 <= i < |variants| { RequireSharedMeans(variants[i], defs); }
    case _ =>
  }

  /** One level is enough: in a checked registry, a declaration that `require_shared` accepts
      reaches only types that are defined, available and shared. */
  lemma OneLevelSuffices(t: Type, defs: Definitions, n: string, b: string)
    requires Consistent(defs) && RequireShared(t, defs) && n in References(t) && Reaches(defs, n, b)
    ensures Shareable(defs, b)
  {
    RequireSharedMeans(t, defs);
    var path :| IsPath(defs, path) && path[0] == n && path[|path| - 1] == b;
    ShareablePath(defs, path);
  }

  lemma {:induction false} ShareablePath(defs: Definitions, path: seq<string>)
    requires Consistent(defs) && IsPath(defs, path) && Shareable(defs, path[0])
    ensures Shareable(defs, path[|path| - 1])
  {
    if |path| > 1 {
      assert path[1] in Dependencies(defs, path[0]);
      forall i | 0 <= i < |path[1..]| - 1
        ensures path[1..][i] in defs && path[1..][i + 1] in Dependencies(defs, path[1..][i])
      {
        assert path[1..][i] == path[i + 1] && path[1..][i + 1] == path[i + 2];
      }
      ShareablePath(defs, path[1..]);
    }
  }
}
