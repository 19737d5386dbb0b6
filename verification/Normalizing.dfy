/** What normalization stores: how the stored value relates to its input, and exactly which inputs are
    accepted.
 */
module Normalizing {
  import opened Common
  import opened Values
  import opened DataTypes

  /** `w` is how a value of this type stores `v`, at this depth: containers item by item and field by
      field, scalars as their kind makes them, custom values with their data stored, and unrestricted
      data as it is. */
  ghost predicate Stores(v: Value, w: Value, t: Type, env: Env, depth: nat)
    decreases MAX_DEPTH + 1 - depth
  {
    depth <= MAX_DEPTH && Allows(t.allowed, v) &&
    if v == Null && t.nullable then w == Null
    else match t.kind
      case AnyKind => w == v
      case ScalarKind(name) => env.scalar(name, v) == Some(w)
      case ArrayKind(items) =>
        && v.List? && w.List? && |w.items| == |v.items|
        && forall i :: 0 <= i < |v.items| ==> Stores(v.items[i], w.items[i], items, env, depth + 1)
      case ObjectKind(_, required, _) =>
        && v.Dict? && w.Dict? && w.fields.Keys == v.fields.Keys && required <= v.fields.Keys
        && forall name :: name in v.fields ==> StoresField(v.fields[name], w.fields[name], name, t.kind, env, depth)
      case UnionKind(variants) => exists i :: 0 <= i < |variants| && Stores(v, w, variants[i], env, depth + 1)
      case CustomKind(name) =>
        && name in env.types && env.types[name].available
        && v.Dict? && "$type" in v.fields && v.fields["$type"] == Text(name) && "data" in v.fields
        && ("summary" in v.fields ==> v.fields["summary"].Text? && |v.fields["summary"].s| <= 160)
        && w.Dict? && "data" in w.fields && w.fields == v.fields["data" := w.fields["data"]]
        && Stores(v.fields["data"], w.fields["data"], env.types[name].schema, env, depth + 1)
  }

  /** A declared field is stored by its type, any other as the object says. */
  ghost predicate StoresField(v: Value, w: Value, name: string, kind: Kind, env: Env, depth: nat)
    requires kind.ObjectKind? && depth <= MAX_DEPTH
    decreases MAX_DEPTH + 1 - depth, 0
  {
    if name in kind.properties then Stores(v, w, kind.properties[name], env, depth + 1)
    else match kind.extra
      case Closed => false
      case Open => w == v
      case Typed(t) => Stores(v, w, t, env, depth + 1)
  }

  // ----- what is returned is stored ------------------------------------------------

  /** What normalization returns is how the type stores its input. */
  lemma {:induction false} NormalizedIsStored(v: Value, t: Type, env: Env, depth: nat)
    requires ValidEnv(env) && Normalize(v, t, env, depth).Ok?
    ensures Stores(v, Normalize(v, t, env, depth).value, t, env, depth)
    decreases MAX_DEPTH + 1 - depth, 1, 0
  {
    if !(v == Null && t.nullable) {
      match t.kind
      case AnyKind =>
      case ScalarKind(_) =>
      case ArrayKind(items) => ItemsAreStored(v.items, items, env, depth);
      case ObjectKind(_, required, _) =>
        FieldsAreStored(env.order(v.fields), v.fields, t.kind, env, depth);
        assert required <= v.fields.Keys;
      case UnionKind(variants) =>
        var i := UnionIsStored(v, variants, env, depth);
      case CustomKind(name) => NormalizedIsStored(v.fields["data"], env.types[name].schema, env, depth + 1);
    }
  }

  lemma {:induction false} ItemsAreStored(vs: seq<Value>, t: Type, env: Env, depth: nat)
    requires ValidEnv(env) && depth <= MAX_DEPTH && NormalizeItems(vs, t, env, depth).Ok?
    ensures var ws := NormalizeItems(vs, t, env, depth).value;
            |ws| == |vs| && forall i :: 0 <= i < |vs| ==> Stores(vs[i], ws[i], t, env, depth + 1)
    decreases MAX_DEPTH + 1 - depth, 0, |vs|
  {
    if vs != [] {
      NormalizedIsStored(vs[0], t, env, depth + 1);
      ItemsAreStored(vs[1..], t, env, depth);
    }
  }

  lemma {:induction false} FieldsAreStored(
      names: seq<string>, fields: map<string, Value>, kind: Kind, env: Env, depth: nat)
    requires ValidEnv(env) && depth <= MAX_DEPTH && kind.ObjectKind?
    requires NormalizeFields(names, fields, kind, env, depth).Ok?
    ensures var r := NormalizeFields(names, fields, kind, env, depth).value;
            && (forall name :: name in r <==> name in names && name in fields)
            && (forall name :: name in r && name in fields ==>
                  StoresField(fields[name], r[name], name, kind, env, depth))
    decreases MAX_DEPTH + 1 - depth, 0, |names|
  {
    if names != [] {
      FieldsAreStored(names[1..], fields, kind, env, depth);
      assert forall name :: name in names <==> name == names[0] || name in names[1..];
      if names[0] in fields && !(names[0] !in kind.properties && kind.extra.Open?) {
        NormalizedIsStored(fields[names[0]], FieldType(kind, names[0]).value, env, depth + 1);
      }
    }
  }

  /** A union stores as its first variant that accepts. */
  lemma {:induction false} UnionIsStored(v: Value, variants: seq<Type>, env: Env, depth: nat) returns (i: nat)
    requires ValidEnv(env) && depth <= MAX_DEPTH && NormalizeUnion(v, variants, env, depth).Ok?
    ensures i < |variants| && Normalize(v, variants[i], env, depth + 1) == NormalizeUnion(v, variants, env, depth)
    ensures Stores(v, NormalizeUnion(v, variants, env, depth).value, variants[i], env, depth + 1)
    ensures forall j :: 0 <= j < i ==> Normalize(v, variants[j], env, depth + 1).Err?
    decreases MAX_DEPTH + 1 - depth, 0, |variants|
  {
    if Normalize(v, variants[0], env, depth + 1).Ok? {
      NormalizedIsStored(v, variants[0], env, depth + 1);
      i := 0;
    } else {
      i := UnionIsStored(v, variants[1..], env, depth);
      i := i + 1;
    }
  }

  // ----- what can be stored is accepted --------------------------------------------

  /** Every custom type the declaration names is defined and available. */
  ghost predicate TypesKnown(t: Type, env: Env) {
    match t.kind
    case ArrayKind(items) => TypesKnown(items, env)
    case ObjectKind(properties, _, extra) =>
      && (forall name :: name in properties ==> TypesKnown(properties[name], env))
      && (extra.Typed? ==> TypesKnown(extra.value, env))
    case UnionKind(variants) => forall i :: 0 <= i < |variants| ==> TypesKnown(variants[i], env)
    case CustomKind(name) => name in env.types && env.types[name].available
    case _ => true
  }

  ghost predicate RegistryKnown(env: Env) {
    forall name :: name in env.types && env.types[name].available ==> TypesKnown(env.types[name].schema, env)
  }

  /** An error of the value, not of the registry. */
  predicate OfValue(e: Error) { e != UnknownType && e != UnavailableType }

  lemma {:induction false} ErrorsAreOfValue(v: Value, t: Type, env: Env, depth: nat)
    requires ValidEnv(env) && TypesKnown(t, env) && RegistryKnown(env) && Normalize(v, t, env, depth).Err?
    ensures OfValue(Normalize(v, t, env, depth).error)
    decreases MAX_DEPTH + 1 - depth, 1, 0
  {
    if depth <= MAX_DEPTH && Allows(t.allowed, v) && !(v == Null && t.nullable) {
      match t.kind
      case AnyKind =>
      case ScalarKind(_) =>
      case ArrayKind(items) => if v.List? { ItemErrorsAreOfValue(v.items, items, env, depth); }
      case ObjectKind(_, _, _) =>
        if v.Dict? { FieldErrorsAreOfValue(env.order(v.fields), v.fields, t, env, depth); }
      case UnionKind(variants) => UnionErrorsAreOfValue(v, variants, env, depth);
      case CustomKind(name) =>
        if v.Dict? && "data" in v.fields { DataErrorsAreOfValue(v, name, env, depth); }
    }
  }

  lemma {:induction false} DataErrorsAreOfValue(v: Value, name: string, env: Env, depth: nat)
    requires ValidEnv(env) && RegistryKnown(env) && depth <= MAX_DEPTH && v.Dict? && "data" in v.fields
    requires name in env.types && env.types[name].available
    ensures var r := Normalize(v.fields["data"], env.types[name].schema, env, depth + 1); r.Err? ==> OfValue(r.error)
    decreases MAX_DEPTH + 1 - depth, 0, 0
  {
    if Normalize(v.fields["data"], env.types[name].schema, env, depth + 1).Err? {
      ErrorsAreOfValue(v.fields["data"], env.types[name].schema, env, depth + 1);
    }
  }

  lemma {:induction false} ItemErrorsAreOfValue(vs: seq<Value>, t: Type, env: Env, depth: nat)
    requires ValidEnv(env) && TypesKnown(t, env) && RegistryKnown(env) && depth <= MAX_DEPTH
    ensures var r := NormalizeItems(vs, t, env, depth); r.Err? ==> OfValue(r.error)
    decreases MAX_DEPTH + 1 - depth, 0, |vs|
  {
    if vs != [] {
      if Normalize(vs[0], t, env, depth + 1).Err? { ErrorsAreOfValue(vs[0], t, env, depth + 1); }
      ItemErrorsAreOfValue(vs[1..], t, env, depth);
    }
  }

  lemma {:induction false} FieldErrorsAreOfValue(
      names: seq<string>, fields: map<string, Value>, t: Type, env: Env, depth: nat)
    requires ValidEnv(env) && t.kind.ObjectKind? && TypesKnown(t, env) && RegistryKnown(env) && depth <= MAX_DEPTH
    ensures var r := NormalizeFields(names, fields, t.kind, env, depth); r.Err? ==> OfValue(r.error)
    decreases MAX_DEPTH + 1 - depth, 0, |names|
  {
    if names != [] {
      FieldErrorsAreOfValue(names[1..], fields, t, env, depth);
      var f := FieldType(t.kind, names[0]);
      if names[0] in fields && f.Some? && Normalize(fields[names[0]], f.value, env, depth + 1).Err? {
        ErrorsAreOfValue(fields[names[0]], f.value, env, depth + 1);
      }
    }
  }

  lemma {:induction false} UnionErrorsAreOfValue(v: Value, variants: seq<Type>, env: Env, depth: nat)
    requires ValidEnv(env) && (forall i :: 0 <= i < |variants| ==> TypesKnown(variants[i], env))
    requires RegistryKnown(env) && depth <= MAX_DEPTH
    ensures var r := NormalizeUnion(v, variants, env, depth); r.Err? ==> OfValue(r.error)
    decreases MAX_DEPTH + 1 - depth, 0, |variants|
  {
    if variants != [] {
      if Normalize(v, variants[0], env, depth + 1).Err? { ErrorsAreOfValue(v, variants[0], env, depth + 1); }
      UnionErrorsAreOfValue(v, variants[1..], env, depth);
    }
  }

  /** An input that the type can store is accepted. */
  lemma {:induction false} StorableIsAccepted(v: Value, w: Value, t: Type, env: Env, depth: nat)
    requires ValidEnv(env) && TypesKnown(t, env) && RegistryKnown(env) && Stores(v, w, t, env, depth)
    ensures Normalize(v, t, env, depth).Ok?
    decreases MAX_DEPTH + 1 - depth, 1, 0
  {
    if !(v == Null && t.nullable) {
      match t.kind
      case AnyKind =>
      case ScalarKind(_) =>
      case ArrayKind(items) => ItemsAreAccepted(v.items, w.items, items, env, depth);
      case ObjectKind(_, _, _) => FieldsAreAccepted(env.order(v.fields), v.fields, w.fields, t, env, depth);
      case UnionKind(variants) =>
        var i :| 0 <= i < |variants| && Stores(v, w, variants[i], env, depth + 1);
        UnionIsAccepted(v, w, variants, i, env, depth);
      case CustomKind(name) =>
        StorableIsAccepted(v.fields["data"], w.fields["data"], env.types[name].schema, env, depth + 1);
    }
  }

  lemma {:induction false} ItemsAreAccepted(vs: seq<Value>, ws: seq<Value>, t: Type, env: Env, depth: nat)
    requires ValidEnv(env) && TypesKnown(t, env) && RegistryKnown(env) && depth <= MAX_DEPTH && |ws| == |vs|
    requires forall i :: 0 <= i < |vs| ==> Stores(vs[i], ws[i], t, env, depth + 1)
    ensures NormalizeItems(vs, t, env, depth).Ok?
    decreases MAX_DEPTH + 1 - depth, 0, |vs|
  {
    if vs != [] {
      StorableIsAccepted(vs[0], ws[0], t, env, depth + 1);
      ItemsAreAccepted(vs[1..], ws[1..], t, env, depth);
    }
  }

  lemma {:induction false} FieldsAreAccepted(
      names: seq<string>, fields: map<string, Value>, stored: map<string, Value>, t: Type, env: Env, depth: nat)
    requires ValidEnv(env) && t.kind.ObjectKind? && TypesKnown(t, env) && RegistryKnown(env) && depth <= MAX_DEPTH
    requires stored.Keys == fields.Keys
    requires forall name :: name in fields ==> StoresField(fields[name], stored[name], name, t.kind, env, depth)
    ensures NormalizeFields(names, fields, t.kind, env, depth).Ok?
    decreases MAX_DEPTH + 1 - depth, 0, |names|
  {
    if names != [] {
      FieldsAreAccepted(names[1..], fields, stored, t, env, depth);
      if names[0] in fields && !(names[0] !in t.kind.properties && t.kind.extra.Open?) {
        assert StoresField(fields[names[0]], stored[names[0]], names[0], t.kind, env, depth);
        StorableIsAccepted(fields[names[0]], stored[names[0]], FieldType(t.kind, names[0]).value, env, depth + 1);
      }
    }
  }

  lemma {:induction false} UnionIsAccepted(v: Value, w: Value, variants: seq<Type>, i: nat, env: Env, depth: nat)
    requires ValidEnv(env) && (forall j :: 0 <= j < |variants| ==> TypesKnown(variants[j], env))
    requires RegistryKnown(env) && depth <= MAX_DEPTH && i < |variants| && Stores(v, w, variants[i], env, depth + 1)
    ensures NormalizeUnion(v, variants, env, depth).Ok?
    decreases MAX_DEPTH + 1 - depth, 0, |variants|
  {
    if i == 0 {
      StorableIsAccepted(v, w, variants[0], env, depth + 1);
    } else {
      if Normalize(v, variants[0], env, depth + 1).Err? { ErrorsAreOfValue(v, variants[0], env, depth + 1); }
      UnionIsAccepted(v, w, variants[1..], i - 1, env, depth);
    }
  }

  /** Exactly what is accepted: with a complete registry, normalization succeeds if and only if the type
      can store the input. */
  lemma AcceptedIff(v: Value, t: Type, env: Env, depth: nat)
    requires ValidEnv(env) && TypesKnown(t, env) && RegistryKnown(env)
    ensures Normalize(v, t, env, depth).Ok? <==> exists w :: Stores(v, w, t, env, depth)
  {
    if Normalize(v, t, env, depth).Ok? {
      NormalizedIsStored(v, t, env, depth);
      assert Stores(v, Normalize(v, t, env, depth).value, t, env, depth);
    }
    if w :| Stores(v, w, t, env, depth) { StorableIsAccepted(v, w, t, env, depth); }
  }
}
