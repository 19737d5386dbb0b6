/** Type declarations, normalization of values to them, and the static type of a data path,
    compared with what reading the path finds at run time.
 */
module DataTypes {
  import opened Common
  import opened Values

  datatype Error = Mismatch | MissingValue | UnknownType | UnavailableType | UnknownOutput | PrivatePluginData

  /** A normalized type declaration. Scalar kinds are named; what they accept is a parameter. */
  datatype Type = Type(kind: Kind, nullable: bool, allowed: Option<seq<Value>>)

  datatype Kind =
    | AnyKind
    | ScalarKind(name: string)
    | ArrayKind(items: Type)
    | ObjectKind(properties: map<string, Type>, required: set<string>, extra: Extra)
    | UnionKind(variants: seq<Type>)
    | CustomKind(name: string)

  /** `additional_properties`: forbidden, unrestricted, or of one type. */
  datatype Extra = Closed | Open | Typed(value: Type)

  datatype Definition = Definition(schema: Type, shared: bool, available: bool)

  /** The type registry and the parts of normalization that are not modelled: how a scalar kind
      normalizes a value, which names look like custom types, and the order of a dict's fields. */
  datatype Env = Env(
    types: map<string, Definition>,
    scalar: (string, Value) -> Option<Value>,
    isCustom: string -> bool,
    order: map<string, Value> -> seq<string>)

  ghost predicate ValidEnv(env: Env) {
    && (forall name, v, w :: env.scalar(name, v) == Some(w) ==> !w.List? && !w.Dict?)
    && (forall s :: env.scalar("text", Text(s)) == Some(Text(s)))
    && (forall m, k :: k in env.order(m) <==> k in m)
    && (forall name :: name in env.types ==> env.isCustom(name))
  }

  const ANY := Type(AnyKind, false, None)
  const TEXT := Type(ScalarKind("text"), false, None)

  const MAX_DEPTH := 64

  // ----- normalization -------------------------------------------------------------

  /** The type an object declares for a field, if it allows the field at all. */
  function FieldType(kind: Kind, name: string): (r: Option<Type>)
    requires kind.ObjectKind?
  {
    if name in kind.properties then Some(kind.properties[name])
    else match kind.extra
      case Closed => None
      case Open => Some(ANY)
      case Typed(t) => Some(t)
  }

  /** `normalize_value`: the value as the type stores it, or why it does not fit. */
  function Normalize(v: Value, t: Type, env: Env, depth: nat): Result<Value, Error>
    decreases MAX_DEPTH + 1 - depth, 1, 0
  {
    if depth > MAX_DEPTH then Err(Mismatch)
    else if !Allows(t.allowed, v) then Err(Mismatch)
    else if v == Null && t.nullable then Ok(Null)
    else match t.kind
      case AnyKind => Ok(v)
      case ScalarKind(name) =>
        var r := env.scalar(name, v);
        if r.Some? then Ok(r.value) else Err(Mismatch)
      case ArrayKind(items) =>
        if !v.List? then Err(Mismatch)
        else
          var r := NormalizeItems(v.items, items, env, depth);
          if r.Ok? then Ok(List(r.value)) else Err(r.error)
      case ObjectKind(_, required, _) =>
        if !v.Dict? then Err(Mismatch)
        else if exists name :: name in required && name !in v.fields then Err(MissingValue)
        else
          var r := NormalizeFields(env.order(v.fields), v.fields, t.kind, env, depth);
          if r.Ok? then Ok(Dict(r.value)) else Err(r.error)
      case UnionKind(variants) => NormalizeUnion(v, variants, env, depth)
      case CustomKind(name) =>
        if name !in env.types then Err(UnknownType)
        else if !env.types[name].available then Err(UnavailableType)
        else if !v.Dict? || "$type" !in v.fields || v.fields["$type"] != Text(name) || "data" !in v.fields then
          Err(Mismatch)
        else if "summary" in v.fields && (!v.fields["summary"].Text? || |v.fields["summary"].s| > 160) then
          Err(Mismatch)
        else
          var r := Normalize(v.fields["data"], env.types[name].schema, env, depth + 1);
          if r.Ok? then Ok(Dict(v.fields["data" := r.value])) else r
  }

  function NormalizeItems(vs: seq<Value>, t: Type, env: Env, depth: nat): Result<seq<Value>, Error>
    decreases MAX_DEPTH + 1 - depth, 0, |vs|
    requires depth <= MAX_DEPTH
  {
    if vs == [] then Ok([])
    else
      var first := Normalize(vs[0], t, env, depth + 1);
      if first.Err? then Err(first.error)
      else
        var rest := NormalizeItems(vs[1..], t, env, depth);
        if rest.Err? then rest else Ok([first.value] + rest.value)
  }

  function NormalizeFields(
      names: seq<string>, fields: map<string, Value>, kind: Kind, env: Env, depth: nat)
      : Result<map<string, Value>, Error>
    decreases MAX_DEPTH + 1 - depth, 0, |names|
    requires depth <= MAX_DEPTH && kind.ObjectKind?
  {
    if names == [] then Ok(map[])
    else if names[0] !in fields then NormalizeFields(names[1..], fields, kind, env, depth)
    else
      var t := FieldType(kind, names[0]);
      if t.None? then Err(Mismatch)
      else
        var field := if names[0] !in kind.properties && kind.extra.Open? then Ok(fields[names[0]])
                     else Normalize(fields[names[0]], t.value, env, depth + 1);
        if field.Err? then Err(field.error)
        else
          var rest := NormalizeFields(names[1..], fields, kind, env, depth);
          if rest.Err? then rest else Ok(rest.value[names[0] := field.value])
  }

  /** The first variant that fits; a missing or unavailable type ends the search. */
  function NormalizeUnion(v: Value, variants: seq<Type>, env: Env, depth: nat): Result<Value, Error>
    decreases MAX_DEPTH + 1 - depth, 0, |variants|
    requires depth <= MAX_DEPTH
  {
    if variants == [] then Err(Mismatch)
    else
      var first := Normalize(v, variants[0], env, depth + 1);
      if first.Ok? || first.error == UnknownType || first.error == UnavailableType then first
      else NormalizeUnion(v, variants[1..], env, depth)
  }

  // ----- conformance ---------------------------------------------------------------

  predicate Allows(allowed: Option<seq<Value>>, v: Value) { allowed.Some? ==> v in allowed.value }

  /** What a scalar kind makes of an allowed value. */
  ghost predicate ScalarOutput(env: Env, name: string, allowed: Option<seq<Value>>, w: Value) {
    exists v :: Allows(allowed, v) && env.scalar(name, v) == Some(w)
  }

  /** A stored value is of a type. The enumeration of a container type is not kept. */
  ghost predicate Conforms(w: Value, t: Type, env: Env)
    decreases w, t
  {
    (w == Null && t.nullable && Allows(t.allowed, w)) ||
    match t.kind
    case AnyKind => Allows(t.allowed, w)
    case ScalarKind(name) => ScalarOutput(env, name, t.allowed, w)
    case ArrayKind(items) => w.List? && forall i :: 0 <= i < |w.items| ==> Conforms(w.items[i], items, env)
    case ObjectKind(properties, required, extra) =>
      && w.Dict?
      && (forall name :: name in required ==> name in w.fields)
      && (forall name :: name in w.fields ==>
            if name in properties then Conforms(w.fields[name], properties[name], env)
            else extra.Open? || (extra.Typed? && Conforms(w.fields[name], extra.value, env)))
    case UnionKind(variants) => exists i :: 0 <= i < |variants| && Conforms(w, variants[i], env)
    case CustomKind(name) =>
      && name in env.types && w.Dict?
      && "$type" in w.fields && w.fields["$type"] == Text(name)
      && "data" in w.fields && Conforms(w.fields["data"], env.types[name].schema, env)
      && ("summary" in w.fields ==> w.fields["summary"].Text?)
  }

  /** What normalization returns conforms to the type. */
  lemma {:induction false} NormalizedConforms(v: Value, t: Type, env: Env, depth: nat)
    requires ValidEnv(env) && Normalize(v, t, env, depth).Ok?
    ensures Conforms(Normalize(v, t, env, depth).value, t, env)
    decreases MAX_DEPTH + 1 - depth, 1, 0
  {
    if !(v == Null && t.nullable) {
      match t.kind
      case AnyKind =>
      case ScalarKind(name) =>
        assert Allows(t.allowed, v) && ScalarOutput(env, name, t.allowed, Normalize(v, t, env, depth).value);
      case ArrayKind(items) => ItemsConform(v.items, items, env, depth);
      case ObjectKind(_, _, _) => FieldsConform(env.order(v.fields), v.fields, t.kind, env, depth);
      case UnionKind(variants) => UnionConforms(v, variants, env, depth);
      case CustomKind(name) => NormalizedConforms(v.fields["data"], env.types[name].schema, env, depth + 1);
    }
  }

  lemma {:induction false} ItemsConform(vs: seq<Value>, t: Type, env: Env, depth: nat)
    requires ValidEnv(env) && depth <= MAX_DEPTH && NormalizeItems(vs, t, env, depth).Ok?
    ensures forall i :: 0 <= i < |NormalizeItems(vs, t, env, depth).value| ==>
      Conforms(NormalizeItems(vs, t, env, depth).value[i], t, env)
    decreases MAX_DEPTH + 1 - depth, 0, |vs|
  {
    if vs != [] {
      NormalizedConforms(vs[0], t, env, depth + 1);
      ItemsConform(vs[1..], t, env, depth);
    }
  }

  ghost predicate FieldConforms(w: Value, name: string, kind: Kind, env: Env)
    requires kind.ObjectKind?
  {
    if name in kind.properties then Conforms(w, kind.properties[name], env)
    else kind.extra.Open? || (kind.extra.Typed? && Conforms(w, kind.extra.value, env))
  }

  lemma {:induction false} FieldsConform(
      names: seq<string>, fields: map<string, Value>, kind: Kind, env: Env, depth: nat)
    requires ValidEnv(env) && depth <= MAX_DEPTH && kind.ObjectKind?
    requires NormalizeFields(names, fields, kind, env, depth).Ok?
    ensures var r := NormalizeFields(names, fields, kind, env, depth).value;
            && (forall name :: name in r ==> FieldConforms(r[name], name, kind, env))
            && (forall name :: name in names && name in fields ==> name in r)
    decreases MAX_DEPTH + 1 - depth, 0, |names|
  {
    if names != [] {
      FieldsConform(names[1..], fields, kind, env, depth);
      if names[0] in fields && !(names[0] !in kind.properties && kind.extra.Open?) {
        NormalizedConforms(fields[names[0]], FieldType(kind, names[0]).value, env, depth + 1);
      }
    }
  }

  lemma {:induction false} UnionConforms(v: Value, variants: seq<Type>, env: Env, depth: nat)
    requires ValidEnv(env) && depth <= MAX_DEPTH && NormalizeUnion(v, variants, env, depth).Ok?
    ensures exists i :: 0 <= i < |variants| && Conforms(NormalizeUnion(v, variants, env, depth).value, variants[i], env)
    decreases MAX_DEPTH + 1 - depth, 0, |variants|
  {
    if Normalize(v, variants[0], env, depth + 1).Ok? {
      NormalizedConforms(v, variants[0], env, depth + 1);
    } else {
      UnionConforms(v, variants[1..], env, depth);
      var w := NormalizeUnion(v, variants, env, depth).value;
      var i :| 0 <= i < |variants[1..]| && Conforms(w, variants[1..][i], env);
      assert Conforms(w, variants[i + 1], env);
    }
  }

  // ----- paths ---------------------------------------------------------------------

  datatype PathType = PathType(ty: Type, optional: bool)

  /** One step of `type_at_path`: the type behind a segment, and whether it may be missing. */
  function StepType(t: Type, seg: Segment, env: Env): Result<PathType, Error>
    decreases t, 1
  {
    match t.kind
    case AnyKind => Ok(PathType(ANY, t.nullable))
    case CustomKind(name) =>
      if name !in env.types then Err(UnknownType)
      else if !env.types[name].shared then Err(PrivatePluginData)
      else if seg == Key("data") then Ok(PathType(env.types[name].schema, t.nullable))
      else if seg == Key("$type") then Ok(PathType(TEXT, t.nullable))
      else if seg == Key("summary") then Ok(PathType(TEXT, true))
      else Err(UnknownOutput)
    case ArrayKind(items) => if seg.Index? then Ok(PathType(items, true)) else Err(UnknownOutput)
    case ObjectKind(_, required, _) =>
      if !seg.Key? then Err(UnknownOutput)
      else
        var field := FieldType(t.kind, seg.name);
        if field.None? then Err(UnknownOutput)
        else Ok(PathType(field.value, t.nullable || seg.name !in required))
    case UnionKind(variants) =>
      var r := StepVariants(variants, seg, env);
      if r.Err? then Err(r.error)
      else
        var (children, optional) := r.value;
        if children == [] then Err(UnknownOutput)
        else if |children| == 1 then Ok(PathType(children[0], t.nullable || optional))
        else Ok(PathType(Type(UnionKind(children), false, None), t.nullable || optional))
    case ScalarKind(_) => Err(UnknownOutput)
  }

  /** The types the variants that have the segment give it; a variant without it makes it optional. */
  function StepVariants(variants: seq<Type>, seg: Segment, env: Env): Result<(seq<Type>, bool), Error>
    decreases variants, 0
  {
    if variants == [] then Ok(([], false))
    else
      var first := StepType(variants[0], seg, env);
      if first.Err? && first.error != UnknownOutput then Err(first.error)
      else
        var rest := StepVariants(variants[1..], seg, env);
        if rest.Err? then rest
        else if first.Ok? then Ok(([first.value.ty] + rest.value.0, first.value.optional || rest.value.1))
        else Ok((rest.value.0, true))
  }

  /** The static type of a path, as a recursion over its segments. */
  function TypeOf(t: Type, path: seq<Segment>, env: Env): Result<PathType, Error>
    decreases |path|
  {
    if path == [] then Ok(PathType(t, false))
    else
      var step := StepType(t, path[0], env);
      if step.Err? then step
      else
        var rest := TypeOf(step.value.ty, path[1..], env);
        if rest.Err? then rest else Ok(PathType(rest.value.ty, step.value.optional || rest.value.optional))
  }

  /** `type_at_path`. */
  method TypeAtPath(t: Type, path: seq<Segment>, env: Env) returns (r: Result<PathType, Error>)
    ensures r == TypeOf(t, path, env)
  {
    var current := t;
    var optional := false;
    var i := 0;
    while i < |path|
      invariant 0 <= i <= |path|
      invariant TypeOf(t, path, env) == (var rest := TypeOf(current, path[i..], env);
        if rest.Err? then rest else Ok(PathType(rest.value.ty, optional || rest.value.optional)))
    {
      assert path[i..][1..] == path[i + 1..];
      var step := StepType(current, path[i], env);
      if step.Err? { return Err(step.error); }
      current := step.value.ty;
      optional := optional || step.value.optional;
      i := i + 1;
    }
    r := Ok(PathType(current, optional));
  }

  // ----- reading -------------------------------------------------------------------

  datatype ReadResult = Found(value: Value) | Missing | Private

  /** The name looks like that of a custom type, but no such type is shared. */
  predicate Hidden(name: string, env: Env) { env.isCustom(name) && (name !in env.types || !env.types[name].shared) }

  /** The object is tagged with a custom type whose fields may not be referenced. */
  predicate TaggedPrivate(v: Value, env: Env) {
    v.Dict? && "$type" in v.fields && v.fields["$type"].Text? && Hidden(v.fields["$type"].s, env)
  }

  function ReadStep(v: Value, seg: Segment, env: Env): ReadResult {
    if TaggedPrivate(v, env) then Private
    else if v.Dict? && seg.Key? && seg.name in v.fields then Found(v.fields[seg.name])
    else if v.List? && seg.Index? && seg.at < |v.items| then Found(v.items[seg.at])
    else Missing
  }

  function Reading(v: Value, path: seq<Segment>, env: Env): ReadResult
    decreases |path|
  {
    if path == [] then Found(v)
    else
      var r := ReadStep(v, path[0], env);
      if r.Found? then Reading(r.value, path[1..], env) else r
  }

  /** `_read_reference`, from the root value on. */
  method ReadReference(v: Value, path: seq<Segment>, env: Env) returns (r: ReadResult)
    ensures r == Reading(v, path, env)
  {
    var current := v;
    var i := 0;
    while i < |path|
      invariant 0 <= i <= |path|
      invariant Reading(v, path, env) == Reading(current, path[i..], env)
    {
      assert path[i..][1..] == path[i + 1..];
      var step := ReadStep(current, path[i], env);
      if !step.Found? { return step; }
      current := step.value;
      i := i + 1;
    }
    r := Found(current);
  }
}
