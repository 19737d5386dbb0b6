/** The static type of a data path is right about what reading the path finds. */
module PathTyping {
  import opened Common
  import opened Values
  import opened DataTypes

  // ----- values --------------------------------------------------------------------

  /** Objects tagged with a custom type carry only the fields a custom value has. */
  ghost predicate Tidy(v: Value, env: Env) {
    match v
    case List(items) => forall i :: 0 <= i < |items| ==> Tidy(items[i], env)
    case Dict(fields) =>
      && (forall name :: name in fields ==> Tidy(fields[name], env))
      && ("$type" in fields && fields["$type"].Text? && env.isCustom(fields["$type"].s) ==>
            fields.Keys <= {"$type", "data", "summary"})
    case _ => true
  }

  /** A value of the type, tidy. */
  ghost predicate Inhabitant(v: Value, t: Type, env: Env) { Conforms(v, t, env) && Tidy(v, env) }

  /** An object of the type that has the field and may be read. */
  ghost predicate Readable(o: Value, t: Type, name: string, env: Env) {
    Inhabitant(o, t, env) && o.Dict? && name in o.fields && !TaggedPrivate(o, env)
  }

  ghost predicate HasReadable(t: Type, name: string, env: Env) { exists o :: Readable(o, t, name, env) }

  /** One of the enumerated values, read along the path, has this outcome. */
  ghost predicate Enumerates(allowed: seq<Value>, path: seq<Segment>, outcome: ReadResult, env: Env) {
    exists i :: 0 <= i < |allowed| && Tidy(allowed[i], env) && Reading(allowed[i], path, env) == outcome
  }

  // ----- which paths can be missing ------------------------------------------------

  /** A step from this type may go through unrestricted data. */
  predicate MayBeAny(t: Type) {
    match t.kind
    case AnyKind => true
    case UnionKind(variants) => exists i :: 0 <= i < |variants| && MayBeAny(variants[i])
    case _ => false
  }

  /** No enumeration restricts the unrestricted data that a step goes through. */
  predicate PlainAny(t: Type) {
    match t.kind
    case AnyKind => t.allowed.None?
    case UnionKind(variants) => forall i :: 0 <= i < |variants| ==> PlainAny(variants[i])
    case _ => true
  }

  /** The path reaches unrestricted data, through objects that can be read, and leads on from there;
      where the data is enumerated, one of its values must lack the rest of the path. */
  ghost predicate Loses(t: Type, path: seq<Segment>, env: Env)
    decreases |path|, t
  {
    path != [] &&
    match t.kind
    case AnyKind => t.allowed.None? || Enumerates(t.allowed.value, path, Missing, env)
    case ObjectKind(_, _, _) =>
      && path[0].Key? && FieldType(t.kind, path[0].name).Some? && HasReadable(t, path[0].name, env)
      && Loses(FieldType(t.kind, path[0].name).value, path[1..], env)
    case CustomKind(name) =>
      && path[0] == Key("data") && name in env.types && env.types[name].shared
      && Loses(env.types[name].schema, path[1..], env)
    case UnionKind(variants) => exists i :: 0 <= i < |variants| && Loses(variants[i], path, env)
    case _ => false
  }

  // ----- which paths can be refused ------------------------------------------------

  ghost predicate Inhabits(w: Value, name: string, kind: Kind, env: Env)
    requires kind.ObjectKind?
  {
    Tidy(w, env) && FieldConforms(w, name, kind, env)
  }

  /** An object of this kind can bear the tag: its `$type` field accepts the name as text, and it
      requires nothing that a custom value does not have. */
  ghost predicate CanBear(kind: Kind, tag: string, env: Env)
    requires kind.ObjectKind?
  {
    && FieldConforms(Text(tag), "$type", kind, env)
    && kind.required <= {"$type", "data", "summary"}
    && forall name :: name in kind.required && name != "$type" ==> exists w :: Inhabits(w, name, kind, env)
  }

  ghost predicate BearsTag(v: Value, env: Env) { Tidy(v, env) && TaggedPrivate(v, env) }

  /** The type, or a variant of it, lets an object carry the tag of a hidden type. */
  ghost predicate AdmitsTag(t: Type, env: Env) {
    match t.kind
    case AnyKind =>
      if t.allowed.None? then exists tag :: Hidden(tag, env)
      else exists i :: 0 <= i < |t.allowed.value| && BearsTag(t.allowed.value[i], env)
    case ObjectKind(_, _, _) => exists tag :: Hidden(tag, env) && CanBear(t.kind, tag, env)
    case UnionKind(variants) => exists i :: 0 <= i < |variants| && AdmitsTag(variants[i], env)
    case _ => false
  }

  /** Somewhere on the path, reached through arrays, objects that can be read and shared custom types,
      a type admits a hidden tag. */
  ghost predicate Refuses(t: Type, path: seq<Segment>, env: Env)
    decreases |path|, t
  {
    path != [] && (AdmitsTag(t, env) || RefusesInside(t, path, env))
  }

  ghost predicate RefusesInside(t: Type, path: seq<Segment>, env: Env)
    requires path != []
    decreases |path|, t, 0
  {
    match t.kind
    case AnyKind => t.allowed.Some? && Enumerates(t.allowed.value, path, Private, env)
    case ArrayKind(items) => path[0].Index? && Refuses(items, path[1..], env)
    case ObjectKind(_, _, _) =>
      && path[0].Key? && FieldType(t.kind, path[0].name).Some? && HasReadable(t, path[0].name, env)
      && Refuses(FieldType(t.kind, path[0].name).value, path[1..], env)
    case CustomKind(name) =>
      && path[0] == Key("data") && name in env.types && env.types[name].shared
      && Refuses(env.types[name].schema, path[1..], env)
    case UnionKind(variants) => exists i :: 0 <= i < |variants| && Refuses(variants[i], path, env)
    case _ => false
  }

  ghost predicate IsForged(v: Value, t: Type, env: Env) { Inhabitant(v, t, env) && TaggedPrivate(v, env) }

  /** An object that can bear the tag, bearing it. */
  lemma Forge(t: Type, tag: string, env: Env) returns (v: Value)
    requires t.kind.ObjectKind? && Hidden(tag, env) && CanBear(t.kind, tag, env)
    ensures IsForged(v, t, env)
  {
    var fields := map["$type" := Text(tag)];
    if "data" in t.kind.required {
      var w :| Inhabits(w, "data", t.kind, env);
      fields := fields["data" := w];
    }
    if "summary" in t.kind.required {
      var w :| Inhabits(w, "summary", t.kind, env);
      fields := fields["summary" := w];
    }
    FieldNamesDiffer();
    v := Dict(fields);
    assert forall name :: name in fields ==> Tidy(fields[name], env) && FieldConforms(fields[name], name, t.kind, env);
  }

  lemma {:induction false} ForgeAny(t: Type, env: Env) returns (v: Value)
    requires AdmitsTag(t, env)
    ensures IsForged(v, t, env)
    decreases t
  {
    match t.kind
    case AnyKind =>
      if t.allowed.None? {
        var tag :| Hidden(tag, env);
        v := Dict(map["$type" := Text(tag)]);
      } else {
        var i :| 0 <= i < |t.allowed.value| && BearsTag(t.allowed.value[i], env);
        v := t.allowed.value[i];
      }
    case ObjectKind(_, _, _) =>
      var tag :| Hidden(tag, env) && CanBear(t.kind, tag, env);
      v := Forge(t, tag, env);
    case UnionKind(variants) =>
      var i :| 0 <= i < |variants| && AdmitsTag(variants[i], env);
      v := ForgeAny(variants[i], env);
  }

  // ----- one step ------------------------------------------------------------------

  /** A variant that gives the segment a type is among the children; one that does not makes
      the step optional. */
  lemma {:induction false} VariantsCovered(variants: seq<Type>, seg: Segment, env: Env, i: nat)
    requires i < |variants| && StepVariants(variants, seg, env).Ok?
    ensures var (children, optional) := StepVariants(variants, seg, env).value;
            var one := StepType(variants[i], seg, env);
            && (one.Ok? ==> one.value.ty in children && (one.value.optional ==> optional))
            && (one.Err? ==> one.error == UnknownOutput && optional)
  {
    if i > 0 {
      VariantsCovered(variants[1..], seg, env, i - 1);
    }
  }

  lemma {:induction false} NoChildren(variants: seq<Type>, seg: Segment, env: Env, i: nat)
    requires i < |variants| && StepVariants(variants, seg, env).Ok? && StepVariants(variants, seg, env).value.0 == []
    ensures StepType(variants[i], seg, env) == Err(UnknownOutput)
  {
    VariantsCovered(variants, seg, env, i);
  }

  /** A type without the segment has no value in which the segment is found. */
  lemma {:induction false} UnknownIsAbsent(v: Value, t: Type, seg: Segment, env: Env)
    requires ValidEnv(env) && Conforms(v, t, env) && Tidy(v, env)
    requires StepType(t, seg, env) == Err(UnknownOutput)
    ensures !ReadStep(v, seg, env).Found?
    decreases t
  {
    if !(v == Null && t.nullable) {
      match t.kind
      case ScalarKind(name) => assert ScalarOutput(env, name, t.allowed, v);
      case ArrayKind(_) =>
      case ObjectKind(_, _, _) =>
      case CustomKind(name) =>
      case UnionKind(variants) =>
        var i :| 0 <= i < |variants| && Conforms(v, variants[i], env);
        if StepVariants(variants, seg, env).Ok? {
          NoChildren(variants, seg, env, i);
        } else {
          UnknownNeverEnds(variants, seg, env);
        }
        UnknownIsAbsent(v, variants[i], seg, env);
    }
  }

  lemma {:induction false} UnknownNeverEnds(variants: seq<Type>, seg: Segment, env: Env)
    ensures StepVariants(variants, seg, env) != Err(UnknownOutput)
  {
    if variants != [] {
      UnknownNeverEnds(variants[1..], seg, env);
    }
  }

  /** A value found behind a segment is of the static type. */
  lemma {:induction false} FoundConforms(v: Value, t: Type, seg: Segment, env: Env)
    requires ValidEnv(env) && Inhabitant(v, t, env) && StepType(t, seg, env).Ok? && ReadStep(v, seg, env).Found?
    ensures Conforms(ReadStep(v, seg, env).value, StepType(t, seg, env).value.ty, env)
    decreases t
  {
    match t.kind
    case AnyKind =>
    case ScalarKind(_) =>
    case ArrayKind(_) =>
    case ObjectKind(_, _, _) =>
    case CustomKind(name) =>
      if seg != Key("data") { assert ScalarOutput(env, "text", None, ReadStep(v, seg, env).value); }
    case UnionKind(variants) =>
      var i :| 0 <= i < |variants| && Conforms(v, variants[i], env);
      VariantsCovered(variants, seg, env, i);
      if StepType(variants[i], seg, env).Err? { UnknownIsAbsent(v, variants[i], seg, env); }
      FoundConforms(v, variants[i], seg, env);
      FoundInVariant(v, t, seg, env, i);
  }

  lemma FoundInVariant(v: Value, t: Type, seg: Segment, env: Env, i: nat)
    requires t.kind.UnionKind? && i < |t.kind.variants| && StepType(t, seg, env).Ok? && ReadStep(v, seg, env).Found?
    requires var one := StepType(t.kind.variants[i], seg, env);
             one.Ok? && Conforms(ReadStep(v, seg, env).value, one.value.ty, env)
    ensures Conforms(ReadStep(v, seg, env).value, StepType(t, seg, env).value.ty, env)
  {
    VariantsCovered(t.kind.variants, seg, env, i);
    var children := StepVariants(t.kind.variants, seg, env).value.0;
    var child := StepType(t.kind.variants[i], seg, env).value.ty;
    var j :| 0 <= j < |children| && children[j] == child;
    assert Conforms(ReadStep(v, seg, env).value, children[j], env);
  }

  /** A private tag on a value of a type whose custom kinds are shared was put there by a type that
      admits it. */
  lemma {:induction false} TagFromType(v: Value, t: Type, env: Env)
    requires ValidEnv(env) && Inhabitant(v, t, env) && TaggedPrivate(v, env)
    ensures AdmitsTag(t, env) || HasPrivate(t, env)
    decreases t
  {
    match t.kind
    case AnyKind =>
      assert Hidden(v.fields["$type"].s, env);
      if t.allowed.Some? {
        var i :| 0 <= i < |t.allowed.value| && t.allowed.value[i] == v;
      }
    case ScalarKind(name) => ScalarIsFlat(env, name, t.allowed, v);
    case ObjectKind(_, _, _) => TagOfObject(v, t, env);
    case UnionKind(variants) =>
      var i :| 0 <= i < |variants| && Conforms(v, variants[i], env);
      TagFromType(v, variants[i], env);
    case _ =>
  }

  lemma TagOfObject(v: Value, t: Type, env: Env)
    requires Conforms(v, t, env) && Tidy(v, env) && TaggedPrivate(v, env) && t.kind.ObjectKind?
    ensures AdmitsTag(t, env)
  {
    var tag := v.fields["$type"].s;
    assert v.fields["$type"] == Text(tag) && FieldConforms(Text(tag), "$type", t.kind, env);
    forall name | name in t.kind.required ensures Inhabits(v.fields[name], name, t.kind, env) {}
    assert Hidden(tag, env) && CanBear(t.kind, tag, env);
  }

  /** The type is, or has as a variant, a custom type that is not shared. */
  predicate HasPrivate(t: Type, env: Env) {
    match t.kind
    case CustomKind(name) => name in env.types && !env.types[name].shared
    case UnionKind(variants) => exists i :: 0 <= i < |variants| && HasPrivate(variants[i], env)
    case _ => false
  }

  lemma ScalarIsFlat(env: Env, name: string, allowed: Option<seq<Value>>, w: Value)
    requires ValidEnv(env) && ScalarOutput(env, name, allowed, w)
    ensures !w.List? && !w.Dict?
  {
  }

  /** A path cannot step past a private custom type, alone or as a variant. */
  lemma {:induction false} StepsAreShared(t: Type, seg: Segment, env: Env)
    requires StepType(t, seg, env).Ok? || StepType(t, seg, env).error == UnknownOutput
    ensures !HasPrivate(t, env)
    decreases t, 1
  {
    if t.kind.UnionKind? {
      UnknownNeverEnds(t.kind.variants, seg, env);
      VariantsAreShared(t.kind.variants, seg, env);
    }
  }

  lemma {:induction false} VariantsAreShared(variants: seq<Type>, seg: Segment, env: Env)
    requires StepVariants(variants, seg, env).Ok?
    ensures forall i :: 0 <= i < |variants| ==> !HasPrivate(variants[i], env)
    decreases variants, 0
  {
    if variants != [] {
      StepsAreShared(variants[0], seg, env);
      VariantsAreShared(variants[1..], seg, env);
      forall i | 0 <= i < |variants| ensures !HasPrivate(variants[i], env) {
        if i > 0 { assert variants[i] == variants[1..][i - 1]; }
      }
    }
  }

  // ----- typed paths through unions ------------------------------------------------

  /** Every step of the path has a type and none is optional. */
  predicate Required(t: Type, path: seq<Segment>, env: Env) {
    TypeOf(t, path, env).Ok? && !TypeOf(t, path, env).value.optional
  }

  /** The path has a type, or leads off a type that does not have its next segment. */
  predicate MayBeTyped(t: Type, path: seq<Segment>, env: Env) {
    TypeOf(t, path, env).Ok? || TypeOf(t, path, env).error == UnknownOutput
  }

  lemma {:induction false} VariantRequired(t: Type, path: seq<Segment>, env: Env, i: nat)
    requires t.kind.UnionKind? && i < |t.kind.variants| && path != [] && Required(t, path, env)
    ensures Required(t.kind.variants[i], path, env)
    decreases |path|
  {
    var children := StepVariants(t.kind.variants, path[0], env).value.0;
    VariantsCovered(t.kind.variants, path[0], env, i);
    var child := StepType(t.kind.variants[i], path[0], env).value.ty;
    var j :| 0 <= j < |children| && children[j] == child;
    if path[1..] != [] && |children| > 1 {
      VariantRequired(Type(UnionKind(children), false, None), path[1..], env, j);
    }
  }

  lemma {:induction false} VariantTyped(t: Type, path: seq<Segment>, env: Env, i: nat)
    requires t.kind.UnionKind? && i < |t.kind.variants| && path != [] && MayBeTyped(t, path, env)
    ensures MayBeTyped(t.kind.variants[i], path, env)
    decreases |path|
  {
    UnknownNeverEnds(t.kind.variants, path[0], env);
    var children := StepVariants(t.kind.variants, path[0], env).value.0;
    VariantsCovered(t.kind.variants, path[0], env, i);
    var one := StepType(t.kind.variants[i], path[0], env);
    if one.Ok? {
      var j :| 0 <= j < |children| && children[j] == one.value.ty;
      if path[1..] != [] && |children| > 1 {
        VariantTyped(Type(UnionKind(children), false, None), path[1..], env, j);
      }
    }
  }

  // ----- whole paths: missing ------------------------------------------------------

  lemma TidyInside(v: Value, seg: Segment, env: Env)
    requires Tidy(v, env) && ReadStep(v, seg, env).Found?
    ensures Tidy(ReadStep(v, seg, env).value, env)
  {
  }

  /** What a required path reads of a custom value besides its data is there. */
  lemma MissingInData(v: Value, t: Type, path: seq<Segment>, env: Env)
    requires Inhabitant(v, t, env) && t.kind.CustomKind? && Required(t, path, env) && Reading(v, path, env) == Missing
    ensures path[0] == Key("data") && env.types[t.kind.name].shared
  {
    FieldNamesDiffer();
    if path[0] == Key("$type") {
      var rest := path[1..];
      if rest != [] { assert StepType(TEXT, rest[0], env).Err? && TypeOf(TEXT, rest, env).Err?; }
    }
  }

  /** A required path is missing only in unrestricted data. */
  lemma {:induction false} MissingMeansLoses(v: Value, t: Type, path: seq<Segment>, env: Env)
    requires ValidEnv(env) && Inhabitant(v, t, env) && Required(t, path, env) && Reading(v, path, env) == Missing
    ensures Loses(t, path, env)
    decreases |path|, t
  {
    match t.kind
    case AnyKind =>
      if t.allowed.Some? {
        var i :| 0 <= i < |t.allowed.value| && t.allowed.value[i] == v;
      }
    case ScalarKind(_) =>
    case ArrayKind(_) =>
    case ObjectKind(_, _, _) =>
      assert Readable(v, t, path[0].name, env);
      TidyInside(v, path[0], env);
      MissingMeansLoses(v.fields[path[0].name], FieldType(t.kind, path[0].name).value, path[1..], env);
    case CustomKind(name) =>
      MissingInData(v, t, path, env);
      TidyInside(v, path[0], env);
      MissingMeansLoses(v.fields["data"], env.types[name].schema, path[1..], env);
    case UnionKind(variants) =>
      var i :| 0 <= i < |variants| && Conforms(v, variants[i], env);
      VariantRequired(t, path, env, i);
      MissingMeansLoses(v, variants[i], path, env);
  }

  /** No step but the last reads a type tag. */
  predicate NotThroughTag(path: seq<Segment>) { forall i :: 0 <= i < |path| - 1 ==> path[i] != Key("$type") }

  /** An object with one of its fields replaced. */
  lemma Replace(o: Value, t: Type, name: string, u: Value, env: Env) returns (v: Value)
    requires Readable(o, t, name, env) && t.kind.ObjectKind? && FieldType(t.kind, name).Some?
    requires name != "$type" || !u.Text?
    requires Inhabitant(u, FieldType(t.kind, name).value, env)
    ensures Readable(v, t, name, env) && v.fields[name] == u
  {
    v := Dict(o.fields[name := u]);
    assert v.fields.Keys == o.fields.Keys;
    forall k | k in v.fields ensures Tidy(v.fields[k], env) && FieldConforms(v.fields[k], k, t.kind, env) {
      assert k != name ==> v.fields[k] == o.fields[k] && FieldConforms(o.fields[k], k, t.kind, env);
    }
  }

  /** A shared custom value around its data. */
  lemma Wrap(name: string, u: Value, t: Type, env: Env) returns (v: Value)
    requires ValidEnv(env) && t.kind == CustomKind(name) && name in env.types && env.types[name].shared
    requires Inhabitant(u, env.types[name].schema, env)
    ensures Inhabitant(v, t, env) && ReadStep(v, Key("data"), env) == Found(u)
  {
    FieldNamesDiffer();
    v := Dict(map["$type" := Text(name), "data" := u]);
    assert v.fields.Keys == {"$type", "data"};
  }

  lemma {:induction false} LosesMeansMissing(t: Type, path: seq<Segment>, env: Env) returns (v: Value)
    requires ValidEnv(env) && Loses(t, path, env) && NotThroughTag(path)
    ensures Inhabitant(v, t, env) && Reading(v, path, env) == Missing
    decreases |path|, t
  {
    match t.kind
    case AnyKind =>
      if t.allowed.None? {
        v := Null;
      } else {
        var i :| 0 <= i < |t.allowed.value| && Tidy(t.allowed.value[i], env)
          && Reading(t.allowed.value[i], path, env) == Missing;
        v := t.allowed.value[i];
      }
    case ObjectKind(_, _, _) =>
      var u := LosesMeansMissing(FieldType(t.kind, path[0].name).value, path[1..], env);
      var o :| Readable(o, t, path[0].name, env);
      v := Replace(o, t, path[0].name, u, env);
    case CustomKind(name) =>
      var u := LosesMeansMissing(env.types[name].schema, path[1..], env);
      v := Wrap(name, u, t, env);
    case UnionKind(variants) =>
      var i :| 0 <= i < |variants| && Loses(variants[i], path, env);
      v := LosesMeansMissing(variants[i], path, env);
  }

  /** The promise of a path typed as required, exactly: on some value of the type it is missing if and
      only if it leads through unrestricted data. */
  lemma MissingIff(t: Type, path: seq<Segment>, env: Env)
    requires ValidEnv(env) && Required(t, path, env) && NotThroughTag(path)
    ensures (exists v :: Inhabitant(v, t, env) && Reading(v, path, env) == Missing) <==> Loses(t, path, env)
  {
    if Loses(t, path, env) { var v := LosesMeansMissing(t, path, env); }
    forall v | Inhabitant(v, t, env) && Reading(v, path, env) == Missing ensures Loses(t, path, env) {
      MissingMeansLoses(v, t, path, env);
    }
  }

  lemma {:induction false} LosesIfAny(t: Type, seg: Segment, env: Env)
    requires Required(t, [seg], env) && PlainAny(t)
    ensures Loses(t, [seg], env) <==> MayBeAny(t)
    decreases t
  {
    assert [seg][1..] == [];
    if t.kind.UnionKind? {
      forall i | 0 <= i < |t.kind.variants|
        ensures Loses(t.kind.variants[i], [seg], env) <==> MayBeAny(t.kind.variants[i])
      {
        VariantRequired(t, [seg], env, i);
        LosesIfAny(t.kind.variants[i], seg, env);
      }
    }
  }

  /** One required step is missing on some value of the type if and only if the type is `any` or has
      it as a variant. */
  lemma MissingStepIff(t: Type, seg: Segment, env: Env)
    requires ValidEnv(env) && PlainAny(t) && StepType(t, seg, env).Ok? && !StepType(t, seg, env).value.optional
    ensures (exists v :: Inhabitant(v, t, env) && ReadStep(v, seg, env) == Missing) <==> MayBeAny(t)
  {
    assert [seg][1..] == [];
    assert Required(t, [seg], env);
    MissingIff(t, [seg], env);
    LosesIfAny(t, seg, env);
    forall v ensures Reading(v, [seg], env) == Missing <==> ReadStep(v, seg, env) == Missing {}
  }

  /** Somewhere along the path a type satisfies the predicate. */
  predicate Along(t: Type, path: seq<Segment>, env: Env, p: Type -> bool)
    decreases |path|
  {
    && path != []
    && (p(t) || (StepType(t, path[0], env).Ok? && Along(StepType(t, path[0], env).value.ty, path[1..], env, p)))
  }

  lemma {:induction false} AlongVariant(t: Type, path: seq<Segment>, env: Env, i: nat)
    requires t.kind.UnionKind? && i < |t.kind.variants| && path != [] && Required(t, path, env)
    requires Along(t.kind.variants[i], path, env, MayBeAny)
    ensures Along(t, path, env, MayBeAny)
    decreases |path|
  {
    if !MayBeAny(t.kind.variants[i]) {
      VariantsCovered(t.kind.variants, path[0], env, i);
      var children := StepVariants(t.kind.variants, path[0], env).value.0;
      var child := StepType(t.kind.variants[i], path[0], env).value.ty;
      var j :| 0 <= j < |children| && children[j] == child;
      if |children| > 1 { AlongVariant(Type(UnionKind(children), false, None), path[1..], env, j); }
    }
  }

  /** In particular a required path whose steps all avoid `any` is never missing. */
  lemma {:induction false} LosesThroughAny(t: Type, path: seq<Segment>, env: Env)
    requires Required(t, path, env) && Loses(t, path, env)
    ensures Along(t, path, env, MayBeAny)
    decreases |path|, t
  {
    match t.kind
    case AnyKind =>
    case ObjectKind(_, _, _) => LosesThroughAny(FieldType(t.kind, path[0].name).value, path[1..], env);
    case CustomKind(name) => LosesThroughAny(env.types[name].schema, path[1..], env);
    case UnionKind(variants) =>
      var i :| 0 <= i < |variants| && Loses(variants[i], path, env);
      VariantRequired(t, path, env, i);
      LosesThroughAny(variants[i], path, env);
      AlongVariant(t, path, env, i);
  }

  // ----- whole paths: refused ------------------------------------------------------

  lemma {:induction false} HiddenTagRead(v: Value, path: seq<Segment>, env: Env)
    requires Reading(v, path, env) == Private
    ensures exists tag :: Hidden(tag, env)
    decreases |path|
  {
    var r := ReadStep(v, path[0], env);
    if r.Found? { HiddenTagRead(r.value, path[1..], env); } else { assert Hidden(v.fields["$type"].s, env); }
  }

  /** A typed path is refused only for a tag that a type on it admits. */
  lemma {:induction false} PrivateMeansRefuses(v: Value, t: Type, path: seq<Segment>, env: Env)
    requires ValidEnv(env) && Inhabitant(v, t, env) && MayBeTyped(t, path, env) && Reading(v, path, env) == Private
    ensures Refuses(t, path, env)
    decreases |path|, t
  {
    if ReadStep(v, path[0], env) == Private {
      TagFromType(v, t, env);
      StepsAreShared(t, path[0], env);
    } else {
      if StepType(t, path[0], env).Err? { UnknownIsAbsent(v, t, path[0], env); }
      TidyInside(v, path[0], env);
      match t.kind
      case AnyKind =>
        HiddenTagRead(v, path, env);
        if t.allowed.Some? {
          var i :| 0 <= i < |t.allowed.value| && t.allowed.value[i] == v;
        }
      case ArrayKind(items) => PrivateMeansRefuses(v.items[path[0].at], items, path[1..], env);
      case ObjectKind(_, _, _) =>
        assert Readable(v, t, path[0].name, env);
        PrivateMeansRefuses(v.fields[path[0].name], FieldType(t.kind, path[0].name).value, path[1..], env);
      case CustomKind(name) =>
        FieldNamesDiffer();
        PrivateMeansRefuses(v.fields["data"], env.types[name].schema, path[1..], env);
      case UnionKind(variants) =>
        var i :| 0 <= i < |variants| && Conforms(v, variants[i], env);
        VariantTyped(t, path, env, i);
        PrivateMeansRefuses(v, variants[i], path, env);
      case _ =>
    }
  }

  lemma {:induction false} RefusesMeansPrivate(t: Type, path: seq<Segment>, env: Env) returns (v: Value)
    requires ValidEnv(env) && Refuses(t, path, env)
    ensures Inhabitant(v, t, env) && Reading(v, path, env) == Private
    decreases |path|, t
  {
    if AdmitsTag(t, env) {
      v := ForgeAny(t, env);
      return;
    }
    match t.kind
    case AnyKind =>
      var i :| 0 <= i < |t.allowed.value| && Tidy(t.allowed.value[i], env)
        && Reading(t.allowed.value[i], path, env) == Private;
      v := t.allowed.value[i];
    case ArrayKind(items) =>
      var u := RefusesMeansPrivate(items, path[1..], env);
      v := List(seq(path[0].at + 1, _ => u));
    case ObjectKind(_, _, _) =>
      var u := RefusesMeansPrivate(FieldType(t.kind, path[0].name).value, path[1..], env);
      var o :| Readable(o, t, path[0].name, env);
      v := Replace(o, t, path[0].name, u, env);
    case CustomKind(name) =>
      var u := RefusesMeansPrivate(env.types[name].schema, path[1..], env);
      v := Wrap(name, u, t, env);
    case UnionKind(variants) =>
      var i :| 0 <= i < |variants| && Refuses(variants[i], path, env);
      v := RefusesMeansPrivate(variants[i], path, env);
  }

  /** A path that has a type is refused on some value of the type if and only if a type on it admits a
      hidden tag. */
  lemma RefusedIff(t: Type, path: seq<Segment>, env: Env)
    requires ValidEnv(env) && TypeOf(t, path, env).Ok?
    ensures (exists v :: Inhabitant(v, t, env) && Reading(v, path, env) == Private) <==> Refuses(t, path, env)
  {
    if Refuses(t, path, env) { var v := RefusesMeansPrivate(t, path, env); }
    forall v | Inhabitant(v, t, env) && Reading(v, path, env) == Private ensures Refuses(t, path, env) {
      PrivateMeansRefuses(v, t, path, env);
    }
  }

  /** The same for one segment: the type itself, or a variant of it, admits the tag. */
  lemma RefusedStepIff(t: Type, seg: Segment, env: Env)
    requires ValidEnv(env) && StepType(t, seg, env).Ok?
    ensures (exists v :: Inhabitant(v, t, env) && ReadStep(v, seg, env) == Private) <==> AdmitsTag(t, env)
  {
    StepsAreShared(t, seg, env);
    if AdmitsTag(t, env) {
      var v := ForgeAny(t, env);
      assert ReadStep(v, seg, env) == Private;
    }
    forall v | Inhabitant(v, t, env) && ReadStep(v, seg, env) == Private ensures AdmitsTag(t, env) {
      TagFromType(v, t, env);
    }
  }

  // ----- path typing ---------------------------------------------------------------

  ghost predicate PathIsSound(v: Value, t: Type, path: seq<Segment>, env: Env)
    requires TypeOf(t, path, env).Ok?
  {
    match Reading(v, path, env)
    case Found(u) => Conforms(u, TypeOf(t, path, env).value.ty, env)
    case Missing => TypeOf(t, path, env).value.optional || Loses(t, path, env)
    case Private => Refuses(t, path, env)
  }

  /** Path typing is sound, for every type and every path that has a type: the read finds a value of
      the static type; or finds none, and the type said that the value is optional or the path loses
      its way in unrestricted data; or is refused, and a type on the way admits a hidden tag. */
  lemma PathTypingIsSound(v: Value, t: Type, path: seq<Segment>, env: Env)
    requires ValidEnv(env) && Inhabitant(v, t, env) && TypeOf(t, path, env).Ok?
    ensures PathIsSound(v, t, path, env)
  {
    match Reading(v, path, env)
    case Found(_) => FoundOnPath(v, t, path, env);
    case Missing => if Required(t, path, env) { MissingMeansLoses(v, t, path, env); }
    case Private => PrivateMeansRefuses(v, t, path, env);
  }

  /** One step of a path: a value found is of the static type, a missing one was announced as optional
      or the type is unrestricted, and a refused one has a tag that the type admits. */
  ghost predicate StepIsSound(v: Value, t: Type, seg: Segment, env: Env)
    requires StepType(t, seg, env).Ok?
  {
    match ReadStep(v, seg, env)
    case Found(u) => Conforms(u, StepType(t, seg, env).value.ty, env)
    case Missing => StepType(t, seg, env).value.optional || MayBeAny(t)
    case Private => AdmitsTag(t, env)
  }

  lemma StepSound(v: Value, t: Type, seg: Segment, env: Env)
    requires ValidEnv(env) && Inhabitant(v, t, env) && StepType(t, seg, env).Ok?
    ensures StepIsSound(v, t, seg, env)
  {
    match ReadStep(v, seg, env)
    case Found(_) => FoundConforms(v, t, seg, env);
    case Missing =>
      if !StepType(t, seg, env).value.optional {
        assert [seg][1..] == [];
        MissingMeansLoses(v, t, [seg], env);
        LosesThroughAny(t, [seg], env);
      }
    case Private =>
      StepsAreShared(t, seg, env);
      TagFromType(v, t, env);
  }

  lemma {:induction false} FoundOnPath(v: Value, t: Type, path: seq<Segment>, env: Env)
    requires ValidEnv(env) && Inhabitant(v, t, env) && TypeOf(t, path, env).Ok? && Reading(v, path, env).Found?
    ensures Conforms(Reading(v, path, env).value, TypeOf(t, path, env).value.ty, env)
    decreases |path|
  {
    if path != [] {
      FoundConforms(v, t, path[0], env);
      TidyInside(v, path[0], env);
      FoundOnPath(ReadStep(v, path[0], env).value, StepType(t, path[0], env).value.ty, path[1..], env);
    }
  }

  /** What the binding check relies on, exactly: a path typed as required is found in every value of
      the type if and only if it neither loses its way in unrestricted data nor meets a type that
      admits a hidden tag. */
  lemma RequiredIsFoundIff(t: Type, path: seq<Segment>, env: Env)
    requires ValidEnv(env) && Required(t, path, env) && NotThroughTag(path)
    ensures (forall v :: Inhabitant(v, t, env) ==> Reading(v, path, env).Found?)
      <==> !Loses(t, path, env) && !Refuses(t, path, env)
  {
    MissingIff(t, path, env);
    RefusedIff(t, path, env);
  }

  /** The same of a normalized value: a required path is there, with its static type. */
  lemma RequiredPathIsFound(input: Value, t: Type, path: seq<Segment>, env: Env)
    requires ValidEnv(env) && Normalize(input, t, env, 0).Ok? && Tidy(Normalize(input, t, env, 0).value, env)
    requires Required(t, path, env) && !Loses(t, path, env) && !Refuses(t, path, env)
    ensures var r := Reading(Normalize(input, t, env, 0).value, path, env);
            r.Found? && Conforms(r.value, TypeOf(t, path, env).value.ty, env)
  {
    NormalizedConforms(input, t, env, 0);
    PathTypingIsSound(Normalize(input, t, env, 0).value, t, path, env);
  }

  // ----- examples ------------------------------------------------------------------

  /** Unrestricted data is given no optional mark, yet the value may be missing. */
  lemma AnyMayBeMissing(env: Env)
    ensures Conforms(Null, ANY, env) && TypeOf(ANY, [Key("x")], env) == Ok(PathType(ANY, false))
    ensures Reading(Null, [Key("x")], env) == Missing
  {
    assert [Key("x")][1..] == [];
    assert TypeOf(ANY, [], env) == Ok(PathType(ANY, false));
  }

  /** An object whose type allows extra text fields may carry a hidden type's name as its `$type`;
      references into it are then refused although the path has a static type. */
  lemma TagMayBeForged(env: Env, tag: string)
    requires ValidEnv(env) && Hidden(tag, env)
    ensures AdmitsTag(Type(ObjectKind(map[], {}, Typed(TEXT)), false, None), env)
    ensures AdmitsTag(Type(ObjectKind(map[], {}, Open), false, None), env)
  {
    var (a, b) := (ObjectKind(map[], {}, Typed(TEXT)), ObjectKind(map[], {}, Open));
    assert ScalarOutput(env, "text", None, Text(tag));
    assert CanBear(a, tag, env) && CanBear(b, tag, env);
  }

  /** In a union, a field a custom value was given beyond its declared ones can be found under
      a type another variant promised for it. */
  lemma ExtraFieldsAreUntyped(env: Env, name: string)
    requires ValidEnv(env) && name in env.types && env.types[name] == Definition(ANY, true, true)
    ensures var t := Type(UnionKind([Tagged(name), WITH_X]), false, None);
            && Conforms(Extra(name), t, env) && Normalize(Extra(name), t, env, 0) == Ok(Extra(name))
            && TypeOf(t, [Key("x")], env) == Ok(PathType(TEXT, true))
            && Reading(Extra(name), [Key("x")], env) == Found(List([])) && !Conforms(List([]), TEXT, env)
  {
    FieldNamesDiffer();
    ExtraNormalizes(env, name);
    ExtraPath(env, name);
    assert Conforms(Extra(name), [Tagged(name), WITH_X][0], env);
  }

  function Tagged(name: string): Type { Type(CustomKind(name), false, None) }
  const WITH_X := Type(ObjectKind(map["x" := TEXT], {}, Closed), false, None)
  function Extra(name: string): Value { Dict(map["$type" := Text(name), "data" := Null, "x" := List([])]) }

  lemma ExtraNormalizes(env: Env, name: string)
    requires name in env.types && env.types[name] == Definition(ANY, true, true)
    ensures Normalize(Extra(name), Type(UnionKind([Tagged(name), WITH_X]), false, None), env, 0) == Ok(Extra(name))
  {
    FieldNamesDiffer();
    assert Normalize(Null, ANY, env, 2) == Ok(Null);
    assert Extra(name).fields["data" := Null] == Extra(name).fields;
    assert Normalize(Extra(name), Tagged(name), env, 1) == Ok(Extra(name));
    assert NormalizeUnion(Extra(name), [Tagged(name), WITH_X], env, 0) == Ok(Extra(name));
  }

  lemma ExtraPath(env: Env, name: string)
    requires name in env.types && env.types[name] == Definition(ANY, true, true)
    ensures TypeOf(Type(UnionKind([Tagged(name), WITH_X]), false, None), [Key("x")], env) == Ok(PathType(TEXT, true))
  {
    var t := Type(UnionKind([Tagged(name), WITH_X]), false, None);
    FieldNamesDiffer();
    assert [Tagged(name), WITH_X][1..] == [WITH_X] && [WITH_X][1..] == [];
    assert StepType(Tagged(name), Key("x"), env) == Err(UnknownOutput);
    assert StepType(WITH_X, Key("x"), env) == Ok(PathType(TEXT, true));
    assert StepVariants([], Key("x"), env) == Ok(([], false));
    assert StepVariants([WITH_X], Key("x"), env) == Ok(([TEXT], true)) by { assert [TEXT] + [] == [TEXT]; }
    assert StepVariants([Tagged(name), WITH_X], Key("x"), env) == Ok(([TEXT], true));
    assert StepType(t, Key("x"), env) == Ok(PathType(TEXT, true));
    assert [Key("x")][1..] == [];
    assert TypeOf(TEXT, [], env) == Ok(PathType(TEXT, false));
  }

  lemma FieldNamesDiffer()
    ensures "$type" != "x" && "data" != "x" && "$type" != "data"
    ensures "summary" != "x" && "summary" != "data" && "summary" != "$type"
  {
    assert |"$type"| == 5 && |"data"| == 4 && |"x"| == 1 && |"summary"| == 7;
  }
}
