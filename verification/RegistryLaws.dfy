/** The registry against normalization: what the dependency walk finds is what normalizing can ask for, so
    in a registry that the availability loop has settled a usable declaration never meets a type that is
    missing or unavailable.
 */
module RegistryLaws {
  import opened Common
  import opened Values
  import opened DataTypes
  import opened Normalizing
  import opened TypeRegistry

  ghost predicate AvailableIn(env: Env, name: string) { name in env.types && env.types[name].available }

  ghost predicate AllAvailable(names: set<string>, env: Env) { forall n :: n in names ==> AvailableIn(env, n) }

  /** The walk over a declaration finds every custom type it names: they are all available exactly when
      nothing in the declaration, however deep, names one that is not. */
  lemma {:induction false} KnownIff(t: Type, env: Env)
    ensures TypesKnown(t, env) <==> AllAvailable(References(t), env)
    decreases t
  {
    match t.kind
    case ArrayKind(items) => KnownIff(items, env);
    case ObjectKind(properties, _, extra) =>
      forall k | k in properties
        ensures TypesKnown(properties[k], env) <==> AllAvailable(References(properties[k]), env)
      {
        KnownIff(properties[k], env);
      }
      if extra.Typed? { KnownIff(extra.value, env); }
      PropertiesKnown(t, env);
    case UnionKind(variants) =>
      forall i | 0 <= i < |variants|
        ensures TypesKnown(variants[i], env) <==> AllAvailable(References(variants[i]), env)
      {
        KnownIff(variants[i], env);
      }
      VariantsKnown(t, env);
    case _ =>
  }

  lemma PropertiesKnown(t: Type, env: Env)
    requires t.kind.ObjectKind?
    ensures AllAvailable(References(t), env) <==>
      && (forall k :: k in t.kind.properties ==> AllAvailable(References(t.kind.properties[k]), env))
      && (t.kind.extra.Typed? ==> AllAvailable(References(t.kind.extra.value), env))
  {
    var properties := t.kind.properties;
    forall k, n | k in properties && n in References(properties[k]) ensures n in References(t) {}
  }

  lemma VariantsKnown(t: Type, env: Env)
    requires t.kind.UnionKind?
    ensures AllAvailable(References(t), env) <==>
      forall i :: 0 <= i < |t.kind.variants| ==> AllAvailable(References(t.kind.variants[i]), env)
  {
    var variants := t.kind.variants;
    forall i, n | 0 <= i < |variants| && n in References(variants[i]) ensures n in References(t) {}
  }

  /** In a settled registry the schemas of available types name available types only. */
  lemma SettledIsKnown(env: Env)
    requires Consistent(env.types)
    ensures RegistryKnown(env)
  {
    forall name | name in env.types && env.types[name].available ensures TypesKnown(env.types[name].schema, env) {
      forall d | d in References(env.types[name].schema) ensures AvailableIn(env, d) {
        assert d in Dependencies(env.types, name);
      }
      KnownIff(env.types[name].schema, env);
    }
  }

  /** With a settled registry and a declaration whose own types are available, normalization accepts
      exactly what the declaration can store, and never fails over the registry. */
  lemma SettledAccepts(v: Value, t: Type, env: Env, depth: nat)
    requires ValidEnv(env) && Consistent(env.types) && AllAvailable(References(t), env)
    ensures Normalize(v, t, env, depth).Ok? <==> exists w :: Stores(v, w, t, env, depth)
    ensures var r := Normalize(v, t, env, depth); r.Err? ==> r.error != UnknownType && r.error != UnavailableType
  {
    SettledIsKnown(env);
    KnownIff(t, env);
    AcceptedIff(v, t, env, depth);
    if Normalize(v, t, env, depth).Err? { ErrorsAreOfValue(v, t, env, depth); }
  }
}
