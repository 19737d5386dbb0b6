/** The static type of a path is exact: it has the values that the types along the path offer and no
    others, and it is optional exactly when a type on the way may lack the next step.
 */
module PathExactness {
  import opened Common
  import opened Values
  import opened DataTypes

  /** One of the types that the declaration gives the part behind a segment. */
  ghost predicate Offers(t: Type, seg: Segment, part: Type, env: Env) {
    match t.kind
    case AnyKind => part == ANY
    case ArrayKind(items) => seg.Index? && part == items
    case ObjectKind(properties, _, extra) =>
      && seg.Key?
      && if seg.name in properties then part == properties[seg.name]
         else (extra.Open? && part == ANY) || (extra.Typed? && part == extra.value)
    case CustomKind(name) =>
      && name in env.types
      && ((seg == Key("data") && part == env.types[name].schema)
          || (seg in {Key("$type"), Key("summary")} && part == TEXT))
    case UnionKind(variants) => exists i :: 0 <= i < |variants| && Offers(variants[i], seg, part, env)
    case ScalarKind(_) => false
  }

  /** A custom type that is not installed or not shared stands here. */
  ghost predicate Blocked(t: Type, env: Env) {
    match t.kind
    case CustomKind(name) => name !in env.types || !env.types[name].shared
    case UnionKind(variants) => exists i :: 0 <= i < |variants| && Blocked(variants[i], env)
    case _ => false
  }

  /** The declaration does not promise that the segment is there. */
  ghost predicate MayLack(t: Type, seg: Segment, env: Env) {
    t.nullable ||
    match t.kind
    case AnyKind => false
    case ObjectKind(properties, required, extra) =>
      !(seg.Key? && seg.name in required && (seg.name in properties || !extra.Closed?))
    case CustomKind(_) => seg !in {Key("data"), Key("$type")}
    case UnionKind(variants) => variants == [] || exists i :: 0 <= i < |variants| && MayLack(variants[i], seg, env)
    case _ => true
  }

  // ----- one step ------------------------------------------------------------------

  ghost predicate OffersAny(t: Type, seg: Segment, env: Env) { exists part :: Offers(t, seg, part, env) }

  /** A step has a type exactly when some part is offered and no type is in the way. */
  lemma {:induction false} StepTypedIff(t: Type, seg: Segment, env: Env)
    ensures StepType(t, seg, env).Ok? <==> !Blocked(t, env) && OffersAny(t, seg, env)
    ensures StepType(t, seg, env).Err? && StepType(t, seg, env).error != UnknownOutput <==> Blocked(t, env)
    decreases t, 1
  {
    match t.kind
    case AnyKind => assert Offers(t, seg, ANY, env);
    case ArrayKind(items) => assert seg.Index? ==> Offers(t, seg, items, env);
    case ObjectKind(properties, _, extra) =>
      if seg.Key? && FieldType(t.kind, seg.name).Some? {
        assert Offers(t, seg, FieldType(t.kind, seg.name).value, env);
      }
    case CustomKind(name) =>
      assert name in env.types && seg == Key("data") ==> Offers(t, seg, env.types[name].schema, env);
      assert name in env.types && seg in {Key("$type"), Key("summary")} ==> Offers(t, seg, TEXT, env);
    case UnionKind(variants) =>
      VariantsTypedIff(variants, seg, env);
      if i :| 0 <= i < |variants| && OffersAny(variants[i], seg, env) {
        var part :| Offers(variants[i], seg, part, env);
        assert Offers(t, seg, part, env);
      }
      if part :| Offers(t, seg, part, env) {
        var i :| 0 <= i < |variants| && Offers(variants[i], seg, part, env);
        assert OffersAny(variants[i], seg, env);
      }
    case ScalarKind(_) =>
  }

  ghost predicate AnyBlocked(ts: seq<Type>, env: Env) { exists i :: 0 <= i < |ts| && Blocked(ts[i], env) }

  ghost predicate AnyOffers(ts: seq<Type>, seg: Segment, env: Env) {
    exists i :: 0 <= i < |ts| && OffersAny(ts[i], seg, env)
  }

  lemma {:induction false} VariantsTypedIff(variants: seq<Type>, seg: Segment, env: Env)
    ensures var r := StepVariants(variants, seg, env);
            && (r.Err? <==> AnyBlocked(variants, env)) && (r.Err? ==> r.error != UnknownOutput)
            && (r.Ok? ==> (r.value.0 != [] <==> AnyOffers(variants, seg, env)))
    decreases variants, 0
  {
    if variants != [] {
      var tail := variants[1..];
      StepTypedIff(variants[0], seg, env);
      VariantsTypedIff(tail, seg, env);
      if i :| 0 <= i < |variants| && Blocked(variants[i], env) { if i > 0 { assert Blocked(tail[i - 1], env); } }
      if i :| 0 <= i < |tail| && Blocked(tail[i], env) { assert Blocked(variants[i + 1], env); }
      if i :| 0 <= i < |variants| && OffersAny(variants[i], seg, env) {
        if i > 0 { assert OffersAny(tail[i - 1], seg, env); }
      }
      if i :| 0 <= i < |tail| && OffersAny(tail[i], seg, env) { assert OffersAny(variants[i + 1], seg, env); }
    }
  }

  /** A step is optional exactly when the type may lack it. */
  lemma {:induction false} StepOptionalIff(t: Type, seg: Segment, env: Env)
    requires StepType(t, seg, env).Ok?
    ensures StepType(t, seg, env).value.optional <==> MayLack(t, seg, env)
    decreases t, 1
  {
    if t.kind.UnionKind? { VariantsOptionalIff(t.kind.variants, seg, env); }
  }

  lemma {:induction false} VariantsOptionalIff(variants: seq<Type>, seg: Segment, env: Env)
    requires StepVariants(variants, seg, env).Ok?
    ensures StepVariants(variants, seg, env).value.1 <==>
      exists i :: 0 <= i < |variants| && MayLack(variants[i], seg, env)
    decreases variants, 0
  {
    if variants != [] {
      var tail := variants[1..];
      if StepType(variants[0], seg, env).Ok? {
        StepOptionalIff(variants[0], seg, env);
      } else {
        UnofferedIsLacking(variants[0], seg, env);
      }
      VariantsOptionalIff(tail, seg, env);
      if i :| 0 <= i < |variants| && MayLack(variants[i], seg, env) {
        if i > 0 { assert MayLack(tail[i - 1], seg, env); }
      }
      if i :| 0 <= i < |tail| && MayLack(tail[i], seg, env) { assert MayLack(variants[i + 1], seg, env); }
    }
  }

  lemma {:induction false} UnofferedIsLacking(t: Type, seg: Segment, env: Env)
    requires StepType(t, seg, env) == Err(UnknownOutput)
    ensures MayLack(t, seg, env)
    decreases t
  {
    if t.kind.UnionKind? && t.kind.variants != [] {
      var (variants, one) := (t.kind.variants, t.kind.variants[0]);
      VariantsTypedIff(variants, seg, env);
      StepTypedIff(one, seg, env);
      assert Blocked(one, env) ==> AnyBlocked(variants, env);
      assert OffersAny(one, seg, env) ==> AnyOffers(variants, seg, env);
      UnofferedIsLacking(one, seg, env);
    }
  }

  // ----- the type of a step against the parts offered ------------------------------

  /** A property of types that a union has exactly when a variant has it. */
  ghost predicate Spreads(p: Type -> bool) {
    forall variants :: |variants| > 1 ==> (p(Type(UnionKind(variants), false, None)) <==> AnyIs(variants, p))
  }

  ghost predicate AnyIs(ts: seq<Type>, p: Type -> bool) { exists i :: 0 <= i < |ts| && p(ts[i]) }

  ghost predicate OffersSome(t: Type, seg: Segment, env: Env, p: Type -> bool) {
    exists part :: Offers(t, seg, part, env) && p(part)
  }

  /** The type of a step has such a property exactly when a part that is offered has it. */
  lemma {:induction false} StepSpreads(t: Type, seg: Segment, env: Env, p: Type -> bool)
    requires Spreads(p) && StepType(t, seg, env).Ok?
    ensures p(StepType(t, seg, env).value.ty) <==> OffersSome(t, seg, env, p)
    decreases t, 1
  {
    if t.kind.UnionKind? {
      var variants := t.kind.variants;
      VariantsSpread(variants, seg, env, p);
      var children := StepVariants(variants, seg, env).value.0;
      assert p(StepType(t, seg, env).value.ty) <==> AnyIs(children, p) by {
        if |children| == 1 { assert AnyIs(children, p) <==> p(children[0]); }
      }
      UnionOffersSome(t, seg, env, p);
    } else {
      var ty := StepType(t, seg, env).value.ty;
      assert Offers(t, seg, ty, env);
    }
  }

  lemma UnionOffersSome(t: Type, seg: Segment, env: Env, p: Type -> bool)
    requires t.kind.UnionKind?
    ensures OffersSome(t, seg, env, p) <==> AnyOffersSome(t.kind.variants, seg, env, p)
  {
    var variants := t.kind.variants;
    if part :| Offers(t, seg, part, env) && p(part) {
      var i :| 0 <= i < |variants| && Offers(variants[i], seg, part, env);
      assert OffersSome(variants[i], seg, env, p);
    }
    if i :| 0 <= i < |variants| && OffersSome(variants[i], seg, env, p) {
      var part :| Offers(variants[i], seg, part, env) && p(part);
      assert Offers(t, seg, part, env);
    }
  }

  ghost predicate AnyOffersSome(ts: seq<Type>, seg: Segment, env: Env, p: Type -> bool) {
    exists i :: 0 <= i < |ts| && OffersSome(ts[i], seg, env, p)
  }

  lemma {:induction false} VariantsSpread(variants: seq<Type>, seg: Segment, env: Env, p: Type -> bool)
    requires Spreads(p) && StepVariants(variants, seg, env).Ok?
    ensures AnyIs(StepVariants(variants, seg, env).value.0, p) <==> AnyOffersSome(variants, seg, env, p)
    decreases variants, 0
  {
    if variants != [] {
      var (tail, first) := (variants[1..], StepType(variants[0], seg, env));
      var (all, rest) := (StepVariants(variants, seg, env).value.0, StepVariants(tail, seg, env).value.0);
      VariantsSpread(tail, seg, env, p);
      if first.Ok? {
        StepSpreads(variants[0], seg, env, p);
        assert all == [first.value.ty] + rest;
        AnyIsFirst(all, p);
        assert all[1..] == rest;
      } else {
        StepTypedIff(variants[0], seg, env);
      }
      if i :| 0 <= i < |variants| && OffersSome(variants[i], seg, env, p) {
        if i > 0 { assert OffersSome(tail[i - 1], seg, env, p); }
      }
      if i :| 0 <= i < |tail| && OffersSome(tail[i], seg, env, p) { assert OffersSome(variants[i + 1], seg, env, p); }
    }
  }

  lemma AnyIsFirst(ts: seq<Type>, p: Type -> bool)
    requires ts != []
    ensures AnyIs(ts, p) <==> p(ts[0]) || AnyIs(ts[1..], p)
  {
    if i :| 0 <= i < |ts| && p(ts[i]) { if i > 0 { assert p(ts[1..][i - 1]); } }
    if i :| 0 <= i < |ts[1..]| && p(ts[1..][i]) { assert p(ts[i + 1]); }
  }

  // ----- whole paths ---------------------------------------------------------------

  /** The value is of a type that the steps of the path offer one after another. */
  ghost predicate Ends(t: Type, path: seq<Segment>, v: Value, env: Env)
    decreases |path|
  {
    if path == [] then Conforms(v, t, env)
    else exists part :: Offers(t, path[0], part, env) && Ends(part, path[1..], v, env)
  }

  ghost predicate Goes(t: Type, path: seq<Segment>, env: Env)
    decreases |path|
  {
    path == [] || exists part :: Offers(t, path[0], part, env) && Goes(part, path[1..], env)
  }

  /** On the way a type offered is not installed or not shared. */
  ghost predicate GoesWrong(t: Type, path: seq<Segment>, env: Env)
    decreases |path|
  {
    path != [] &&
    (Blocked(t, env) || exists part :: Offers(t, path[0], part, env) && GoesWrong(part, path[1..], env))
  }

  /** On the way a type offered may lack the next step. */
  ghost predicate MayEnd(t: Type, path: seq<Segment>, env: Env)
    decreases |path|
  {
    path != [] &&
    (MayLack(t, path[0], env) || exists part :: Offers(t, path[0], part, env) && MayEnd(part, path[1..], env))
  }

  lemma EndsSpreads(path: seq<Segment>, v: Value, env: Env)
    ensures Spreads(t => Ends(t, path, v, env))
  {
    var p := t => Ends(t, path, v, env);
    forall variants: seq<Type> ensures p(Type(UnionKind(variants), false, None)) <==> AnyIs(variants, p) {
      var u := Type(UnionKind(variants), false, None);
      if path != [] {
        if part :| Offers(u, path[0], part, env) && Ends(part, path[1..], v, env) {
          var i :| 0 <= i < |variants| && Offers(variants[i], path[0], part, env);
          assert p(variants[i]);
        }
        if i :| 0 <= i < |variants| && p(variants[i]) {
          var part :| Offers(variants[i], path[0], part, env) && Ends(part, path[1..], v, env);
          assert Offers(u, path[0], part, env);
        }
      } else {
        assert p(u) <==> Conforms(v, u, env);
        assert forall i :: 0 <= i < |variants| ==> (p(variants[i]) <==> Conforms(v, variants[i], env));
      }
    }
  }

  lemma GoesSpreads(path: seq<Segment>, env: Env)
    ensures Spreads(t => Goes(t, path, env))
  {
    var p := t => Goes(t, path, env);
    forall variants: seq<Type> | |variants| > 1
      ensures p(Type(UnionKind(variants), false, None)) <==> AnyIs(variants, p)
    {
      var u := Type(UnionKind(variants), false, None);
      if path != [] {
        if part :| Offers(u, path[0], part, env) && Goes(part, path[1..], env) {
          var i :| 0 <= i < |variants| && Offers(variants[i], path[0], part, env);
          assert p(variants[i]);
        }
        if i :| 0 <= i < |variants| && p(variants[i]) {
          var part :| Offers(variants[i], path[0], part, env) && Goes(part, path[1..], env);
          assert Offers(u, path[0], part, env);
        }
      } else {
        assert p(variants[0]);
      }
    }
  }

  lemma GoesWrongSpreads(path: seq<Segment>, env: Env)
    ensures Spreads(t => GoesWrong(t, path, env))
  {
    var p := t => GoesWrong(t, path, env);
    forall variants: seq<Type> ensures p(Type(UnionKind(variants), false, None)) <==> AnyIs(variants, p) {
      var u := Type(UnionKind(variants), false, None);
      if path != [] {
        if i :| 0 <= i < |variants| && Blocked(variants[i], env) { assert p(variants[i]); }
        if part :| Offers(u, path[0], part, env) && GoesWrong(part, path[1..], env) {
          var i :| 0 <= i < |variants| && Offers(variants[i], path[0], part, env);
          assert p(variants[i]);
        }
        if i :| 0 <= i < |variants| && p(variants[i]) {
          if !Blocked(variants[i], env) {
            var part :| Offers(variants[i], path[0], part, env) && GoesWrong(part, path[1..], env);
            assert Offers(u, path[0], part, env);
          }
        }
      }
    }
  }

  lemma MayEndSpreads(path: seq<Segment>, env: Env)
    ensures Spreads(t => MayEnd(t, path, env))
  {
    var p := t => MayEnd(t, path, env);
    forall variants: seq<Type> | |variants| > 1
      ensures p(Type(UnionKind(variants), false, None)) <==> AnyIs(variants, p)
    {
      var u := Type(UnionKind(variants), false, None);
      if path != [] {
        if i :| 0 <= i < |variants| && MayLack(variants[i], path[0], env) { assert p(variants[i]); }
        if part :| Offers(u, path[0], part, env) && MayEnd(part, path[1..], env) {
          var i :| 0 <= i < |variants| && Offers(variants[i], path[0], part, env);
          assert p(variants[i]);
        }
        if i :| 0 <= i < |variants| && p(variants[i]) {
          if !MayLack(variants[i], path[0], env) {
            var part :| Offers(variants[i], path[0], part, env) && MayEnd(part, path[1..], env);
            assert Offers(u, path[0], part, env);
          }
        }
      }
    }
  }

  /** A path has a static type exactly when the declarations lead along it and no type on the way is
      missing or private. */
  lemma {:induction false} PathTypedIff(t: Type, path: seq<Segment>, env: Env)
    ensures TypeOf(t, path, env).Ok? <==> Goes(t, path, env) && !GoesWrong(t, path, env)
    decreases |path|
  {
    if path != [] {
      StepTypedIff(t, path[0], env);
      var (step, rest) := (StepType(t, path[0], env), path[1..]);
      if step.Ok? {
        PathTypedIff(step.value.ty, rest, env);
        GoesSpreads(rest, env);
        GoesWrongSpreads(rest, env);
        StepSpreads(t, path[0], env, part => Goes(part, rest, env));
        StepSpreads(t, path[0], env, part => GoesWrong(part, rest, env));
        assert Goes(t, path, env) <==> OffersSome(t, path[0], env, part => Goes(part, rest, env));
        assert GoesWrong(t, path, env) <==> OffersSome(t, path[0], env, part => GoesWrong(part, rest, env));
      } else if Goes(t, path, env) {
        var part :| Offers(t, path[0], part, env) && Goes(part, rest, env);
        assert OffersAny(t, path[0], env);
      }
    }
  }

  /** The static type of a path has exactly the values of the types at its end, and the path is optional
      exactly when it may end before. */
  lemma {:induction false} PathTypeIsExact(t: Type, path: seq<Segment>, v: Value, env: Env)
    requires TypeOf(t, path, env).Ok?
    ensures Conforms(v, TypeOf(t, path, env).value.ty, env) <==> Ends(t, path, v, env)
    ensures TypeOf(t, path, env).value.optional <==> MayEnd(t, path, env)
    decreases |path|
  {
    if path != [] {
      var (step, rest) := (StepType(t, path[0], env), path[1..]);
      PathTypeIsExact(step.value.ty, rest, v, env);
      StepOptionalIff(t, path[0], env);
      EndsSpreads(rest, v, env);
      MayEndSpreads(rest, env);
      StepSpreads(t, path[0], env, part => Ends(part, rest, v, env));
      StepSpreads(t, path[0], env, part => MayEnd(part, rest, env));
      assert Ends(t, path, v, env) <==> OffersSome(t, path[0], env, part => Ends(part, rest, v, env));
      assert MayEnd(t, path, env) <==>
        MayLack(t, path[0], env) || OffersSome(t, path[0], env, part => MayEnd(part, rest, env));
    }
  }
}
