/** What an expression resolves to, by its form: templates join their parts in order, arrays and objects
    keep the places of their elements, references read their source and fall back only when it lacks
    the data; and which of its references an expression reports.
 */
module ResolveLaws {
  import opened Common
  import opened Values
  import opened DataTypes
  import opened Bindings

  // ----- templates -----------------------------------------------------------------

  /** One text after another, or the first failure. */
  function Joined(a: Result<string, Failure>, b: Result<string, Failure>): Result<string, Failure> {
    if a.Err? then a else if b.Err? then b else Ok(a.value + b.value)
  }

  lemma {:induction false} TextJoin(xs: seq<Expr>, ys: seq<Expr>, ctx: Context, w: World)
    ensures ResolveText(xs + ys, ctx, w) == Joined(ResolveText(xs, ctx, w), ResolveText(ys, ctx, w))
    decreases |xs|
  {
    if xs == [] {
      assert xs + ys == ys;
      assert ResolveText(ys, ctx, w).Ok? ==> "" + ResolveText(ys, ctx, w).value == ResolveText(ys, ctx, w).value;
    } else {
      assert (xs + ys)[1..] == xs[1..] + ys && (xs + ys)[0] == xs[0];
      TextJoin(xs[1..], ys, ctx, w);
      var first := Resolve(xs[0], ctx, w);
      if first.Ok? && first.value.Text? && ResolveText(xs[1..], ctx, w).Ok? && ResolveText(ys, ctx, w).Ok? {
        Associate(first.value.s, ResolveText(xs[1..], ctx, w).value, ResolveText(ys, ctx, w).value);
      }
    }
  }

  lemma Associate(a: string, b: string, c: string)
    ensures (a + b) + c == a + (b + c)
  {
  }

  /** The text of a template, or why it has none. */
  function TextOf(r: Result<Value, Failure>): Result<string, Failure> {
    match r
    case Ok(v) => if v.Text? then Ok(v.s) else Err(NotText)
    case Err(f) => Err(f)
  }

  /** A template is the text of its parts in order: its two ends joined, or the first failure; one part
      stands for itself, and none for the empty text. */
  lemma {:induction false} TemplateJoins(xs: seq<Expr>, ys: seq<Expr>, e: Expr, ctx: Context, w: World)
    ensures TextOf(Resolve(Template(xs + ys), ctx, w)) ==
      Joined(TextOf(Resolve(Template(xs), ctx, w)), TextOf(Resolve(Template(ys), ctx, w)))
    ensures Resolve(Template([e]), ctx, w).Ok? <==> TextOf(Resolve(e, ctx, w)).Ok?
    ensures TextOf(Resolve(Template([e]), ctx, w)) == TextOf(Resolve(e, ctx, w))
    ensures Resolve(Template([]), ctx, w) == Ok(Text(""))
    ensures Resolve(Template(xs), ctx, w).Ok? ==> Resolve(Template(xs), ctx, w).value.Text?
  {
    TextJoin(xs, ys, ctx, w);
    assert [e][1..] == [] && ResolveText([], ctx, w) == Ok("");
    var one := TextOf(Resolve(e, ctx, w));
    if one.Ok? { assert one.value + "" == one.value; }
  }

  // ----- old-style text ------------------------------------------------------------

  lemma {:induction false} FillJoin(xs: seq<Piece>, ys: seq<Piece>, ctx: Context, w: World)
    ensures FillIn(xs + ys, ctx, w) == Joined(FillIn(xs, ctx, w), FillIn(ys, ctx, w))
    decreases |xs|
  {
    if xs == [] {
      assert xs + ys == ys;
      assert FillIn(ys, ctx, w).Ok? ==> "" + FillIn(ys, ctx, w).value == FillIn(ys, ctx, w).value;
    } else {
      assert (xs + ys)[1..] == xs[1..] + ys && (xs + ys)[0] == xs[0];
      FillJoin(xs[1..], ys, ctx, w);
      FillOne(xs[0], ctx, w);
      var first := FillIn([xs[0]], ctx, w);
      assert FillIn(xs, ctx, w) == Joined(first, FillIn(xs[1..], ctx, w));
      assert FillIn(xs + ys, ctx, w) == Joined(first, FillIn(xs[1..] + ys, ctx, w));
      if first.Ok? && FillIn(xs[1..], ctx, w).Ok? && FillIn(ys, ctx, w).Ok? {
        Associate(first.value, FillIn(xs[1..], ctx, w).value, FillIn(ys, ctx, w).value);
      }
    }
  }

  /** A piece of plain text stands for itself, an old-style template for the text of what it reads. */
  lemma FillOne(p: Piece, ctx: Context, w: World)
    ensures FillIn([p], ctx, w) ==
      if p.Raw? then Ok(p.text)
      else if LegacyRead(p.path, ctx, w).Some? then Ok(w.show(LegacyRead(p.path, ctx, w).value))
      else Err(MissingBinding)
  {
    assert [p][1..] == [] && FillIn([], ctx, w) == Ok("");
    assert p.Raw? ==> p.text + "" == p.text;
    var read := if p.Lookup? then LegacyRead(p.path, ctx, w) else None;
    assert read.Some? ==> w.show(read.value) + "" == w.show(read.value);
  }

  /** Plain text with templates in it is joined from its pieces in order; a template alone gives what it
      reads, as it is. */
  lemma WordsJoin(xs: seq<Piece>, ys: seq<Piece>, ctx: Context, w: World)
    ensures FillIn(xs + ys, ctx, w) == Joined(FillIn(xs, ctx, w), FillIn(ys, ctx, w))
    ensures !(|xs| == 1 && xs[0].Lookup?) ==> TextOf(Resolve(Words(xs), ctx, w)) == FillIn(xs, ctx, w)
    ensures |xs| == 1 && xs[0].Lookup? ==>
      var read := LegacyRead(xs[0].path, ctx, w);
      Resolve(Words(xs), ctx, w) == (if read.Some? then Ok(read.value) else Err(MissingBinding))
  {
    FillJoin(xs, ys, ctx, w);
  }

  /** Reading on from where a path has led. */
  lemma {:induction false} LegacyJoin(v: Value, p: seq<string>, q: seq<string>)
    ensures LegacyStep(v, p + q) == (if LegacyStep(v, p).Some? then LegacyStep(LegacyStep(v, p).value, q) else None)
    decreases |p|
  {
    if p == [] {
      assert p + q == q;
    } else {
      assert (p + q)[1..] == p[1..] + q && (p + q)[0] == p[0];
      if v.Dict? && p[0] in v.fields { LegacyJoin(v.fields[p[0]], p[1..], q); }
    }
  }

  // ----- arrays and objects --------------------------------------------------------

  lemma {:induction false} ElementsResolve(es: seq<Expr>, ctx: Context, w: World)
    ensures var r := ResolveAll(es, ctx, w);
            && (r.Ok? <==> forall i :: 0 <= i < |es| ==> Resolve(es[i], ctx, w).Ok?)
            && (r.Ok? ==> |r.value| == |es| && forall i :: 0 <= i < |es| ==> Resolve(es[i], ctx, w) == Ok(r.value[i]))
            && (r.Err? ==> exists i :: 0 <= i < |es| && FailsFirst(es, i, r.error, ctx, w))
    decreases |es|
  {
    if es != [] {
      ElementsResolve(es[1..], ctx, w);
      var rest := ResolveAll(es[1..], ctx, w);
      var first := Resolve(es[0], ctx, w);
      if first.Err? {
        assert FailsFirst(es, 0, first.error, ctx, w);
      } else if rest.Err? {
        var i :| 0 <= i < |es[1..]| && FailsFirst(es[1..], i, rest.error, ctx, w);
        assert FailsFirst(es, i + 1, rest.error, ctx, w) by {
          forall j | 0 <= j < i + 1 ensures Resolve(es[j], ctx, w).Ok? { if j > 0 { assert es[j] == es[1..][j - 1]; } }
        }
      } else {
        forall i | 0 <= i < |es| ensures Resolve(es[i], ctx, w) == Ok(ResolveAll(es, ctx, w).value[i]) {
          if i > 0 { assert es[i] == es[1..][i - 1]; }
        }
      }
      forall i | 0 <= i < |es[1..]| ensures es[1..][i] == es[i + 1] {}
    }
  }

  /** The first element that fails, with its failure. */
  ghost predicate FailsFirst(es: seq<Expr>, i: nat, f: Failure, ctx: Context, w: World) {
    i < |es| && Resolve(es[i], ctx, w) == Err(f) && forall j :: 0 <= j < i ==> Resolve(es[j], ctx, w).Ok?
  }

  /** An array resolves exactly if all its elements do, to their values in their places; otherwise it
      fails as its first failing element does. */
  lemma ArrayResolves(es: seq<Expr>, ctx: Context, w: World)
    ensures var r := Resolve(Array(es), ctx, w);
            && (r.Ok? <==> forall i :: 0 <= i < |es| ==> Resolve(es[i], ctx, w).Ok?)
            && (r.Ok? ==> r.value.List? && |r.value.items| == |es|)
            && (r.Ok? ==> forall i :: 0 <= i < |es| ==> Resolve(es[i], ctx, w) == Ok(r.value.items[i]))
            && (r.Err? ==> exists i :: 0 <= i < |es| && FailsFirst(es, i, r.error, ctx, w))
  {
    ElementsResolve(es, ctx, w);
  }

  lemma {:induction false} PairsAre(names: seq<string>, values: seq<Value>)
    requires |names| == |values| && forall i, j :: 0 <= i < j < |names| ==> names[i] != names[j]
    ensures Pairs(names, values).Keys == set name | name in names
    ensures forall i :: 0 <= i < |names| ==>
      names[i] in Pairs(names, values) && Pairs(names, values)[names[i]] == values[i]
    decreases |names|
  {
    if names != [] {
      PairsAre(names[1..], values[1..]);
      forall i | 0 <= i < |names|
        ensures names[i] in Pairs(names, values) && Pairs(names, values)[names[i]] == values[i]
      {
        if i > 0 { assert names[1..][i - 1] == names[i] && values[1..][i - 1] == values[i]; }
      }
    }
  }

  ghost predicate HasField(v: Value, name: string, r: Result<Value, Failure>) {
    v.Dict? && name in v.fields && r == Ok(v.fields[name])
  }

  /** An object resolves exactly if all its elements do, and then has its names and no others, each with
      what its element resolves to. */
  lemma ObjectResolves(names: seq<string>, es: seq<Expr>, ctx: Context, w: World)
    requires |names| == |es| && forall i, j :: 0 <= i < j < |names| ==> names[i] != names[j]
    ensures var r := Resolve(Object(names, es), ctx, w);
            && (r.Ok? <==> forall i :: 0 <= i < |es| ==> Resolve(es[i], ctx, w).Ok?)
            && (r.Ok? ==> r.value.Dict? && r.value.fields.Keys == set name | name in names)
            && (r.Ok? ==> forall i :: 0 <= i < |es| ==> HasField(r.value, names[i], Resolve(es[i], ctx, w)))
            && (r.Err? ==> exists i :: 0 <= i < |es| && FailsFirst(es, i, r.error, ctx, w))
  {
    ElementsResolve(es, ctx, w);
    var r := ResolveAll(es, ctx, w);
    if r.Ok? { PairsAre(names, r.value); }
  }

  // ----- references and conversions ------------------------------------------------

  /** The source has the data. */
  ghost predicate Has(r: Reference, u: Value, ctx: Context, w: World) {
    var root := RootOf(r.scope, r.node, ctx);
    ValidReference(r.scope, r.node, r.path) && root.Present? && Reading(root.value, r.path, w.types) == Found(u)
  }

  /** The source, or its data, is not there; it has neither failed nor been refused. */
  ghost predicate Lacks(r: Reference, ctx: Context, w: World) {
    var root := RootOf(r.scope, r.node, ctx);
    && ValidReference(r.scope, r.node, r.path)
    && (root.Absent? || (root.Present? && Reading(root.value, r.path, w.types) == Missing))
  }

  /** What a source of each kind offers: the event, a trigger that took part and its configuration,
      constants, variables, and the results of steps that succeeded. */
  ghost predicate SourceHolds(scope: Scope, node: Id, ctx: Context, v: Value) {
    || (scope == EventScope && ctx.event == Some(v))
    || (scope == TriggerScope && node in ctx.triggers && ctx.triggers[node].payload == Some(v))
    || (scope == ConfigScope && node in ctx.triggers && ctx.triggers[node].config == Some(v))
    || (scope == ConstantScope && node in ctx.constants && ctx.constants[node] == v)
    || (scope == VariableScope && node in ctx.variables && ctx.variables[node] == v)
    || (scope == StepScope && node in ctx.steps && ctx.steps[node] == StepRecord(StepOk, v))
  }

  /** A step that ran and did not succeed is no source, not even a missing one. */
  ghost predicate SourceFailed(scope: Scope, node: Id, ctx: Context) {
    scope == StepScope && node in ctx.steps && ctx.steps[node].status in {StepFailed, StepCancelled, StepTimedOut}
  }

  lemma SourceIs(scope: Scope, node: Id, ctx: Context)
    ensures forall v :: RootOf(scope, node, ctx) == Present(v) <==> SourceHolds(scope, node, ctx, v)
    ensures RootOf(scope, node, ctx) == Broken <==> SourceFailed(scope, node, ctx)
  {
  }

  /** One value is the part of the other at this segment. */
  ghost predicate IsPart(v: Value, seg: Segment, part: Value) {
    || (v.Dict? && seg.Key? && seg.name in v.fields && v.fields[seg.name] == part)
    || (v.List? && seg.Index? && seg.at < |v.items| && v.items[seg.at] == part)
  }

  /** The values met along a path, from the first on; none of those stepped from hides its fields. */
  ghost predicate LeadsAlong(values: seq<Value>, path: seq<Segment>, env: Env) {
    && |values| == |path| + 1
    && forall i :: 0 <= i < |path| ==> !TaggedPrivate(values[i], env) && IsPart(values[i], path[i], values[i + 1])
  }

  ghost predicate Leads(v: Value, path: seq<Segment>, u: Value, env: Env) {
    exists values :: LeadsAlong(values, path, env) && values[0] == v && values[|path|] == u
  }

  lemma {:induction false} LedValue(values: seq<Value>, path: seq<Segment>, env: Env)
    requires LeadsAlong(values, path, env)
    ensures Reading(values[0], path, env) == Found(values[|path|])
    decreases |path|
  {
    if path != [] {
      assert IsPart(values[0], path[0], values[0 + 1]);
      LedValue(values[1..], path[1..], env);
    }
  }

  lemma {:induction false} FoundLeads(v: Value, path: seq<Segment>, env: Env) returns (values: seq<Value>)
    requires Reading(v, path, env).Found?
    ensures LeadsAlong(values, path, env) && values[0] == v && values[|path|] == Reading(v, path, env).value
    decreases |path|
  {
    if path == [] {
      values := [v];
    } else {
      var rest := FoundLeads(ReadStep(v, path[0], env).value, path[1..], env);
      values := [v] + rest;
      forall i | 0 <= i < |path|
        ensures !TaggedPrivate(values[i], env) && IsPart(values[i], path[i], values[i + 1])
      {
        if i > 0 { assert values[i] == rest[i - 1] && values[i + 1] == rest[i] && path[i] == path[1..][i - 1]; }
      }
    }
  }

  /** Reading a path finds exactly the value that the path leads to, part by part. */
  lemma ReadingFindsIff(v: Value, path: seq<Segment>, u: Value, env: Env)
    ensures Reading(v, path, env) == Found(u) <==> Leads(v, path, u, env)
  {
    if Reading(v, path, env) == Found(u) { var values := FoundLeads(v, path, env); }
    if values :| LeadsAlong(values, path, env) && values[0] == v && values[|path|] == u {
      LedValue(values, path, env);
    }
  }

  /** Some way along the path is a value of a hidden type, with more to go. */
  ghost predicate MeetsHidden(v: Value, path: seq<Segment>, env: Env) {
    exists n, u :: 0 <= n < |path| && Leads(v, path[..n], u, env) && TaggedPrivate(u, env)
  }

  /** Reading is refused exactly when the path meets a value of a hidden type. */
  lemma {:induction false} ReadingRefusedIff(v: Value, path: seq<Segment>, env: Env)
    ensures Reading(v, path, env) == Private <==> MeetsHidden(v, path, env)
    decreases |path|
  {
    if MeetsHidden(v, path, env) {
      var n, u :| 0 <= n < |path| && Leads(v, path[..n], u, env) && TaggedPrivate(u, env);
      ReadingFindsIff(v, path[..n], u, env);
      ReadingJoin(v, path[..n], path[n..], env);
      assert path[..n] + path[n..] == path;
    }
    if Reading(v, path, env) == Private {
      assert path[..0] == [];
      if TaggedPrivate(v, env) {
        assert LeadsAlong([v], path[..0], env);
        assert Leads(v, path[..0], v, env);
      } else {
        var next := ReadStep(v, path[0], env).value;
        ReadingRefusedIff(next, path[1..], env);
        var n, u :| 0 <= n < |path[1..]| && Leads(next, path[1..][..n], u, env) && TaggedPrivate(u, env);
        ReadingFindsIff(next, path[1..][..n], u, env);
        assert path[..n + 1][1..] == path[1..][..n] && path[..n + 1][0] == path[0];
        ReadingFindsIff(v, path[..n + 1], u, env);
      }
    }
  }

  lemma {:induction false} ReadingJoin(v: Value, p: seq<Segment>, q: seq<Segment>, env: Env)
    ensures Reading(v, p + q, env) ==
      if Reading(v, p, env).Found? then Reading(Reading(v, p, env).value, q, env) else Reading(v, p, env)
    decreases |p|
  {
    if p == [] {
      assert p + q == q;
    } else {
      assert (p + q)[1..] == p[1..] + q;
      if ReadStep(v, p[0], env).Found? { ReadingJoin(ReadStep(v, p[0], env).value, p[1..], q, env); }
    }
  }

  /** What a policy makes of missing data. */
  function Fallback(policy: Policy, ctx: Context, w: World): Result<Value, Failure> {
    if policy.OnMissingDefault? then
      var d := Resolve(policy.default, ctx, w);
      if d.Ok? then Bound(d.value, w) else d
    else if policy.OnMissingSkip? then Err(SkippedBinding)
    else Err(MissingBinding)
  }

  /** A reference resolves to what its source has, as the registry binds it; to its default only if the
      source lacks it; and to nothing but a failure otherwise. */
  lemma ReferenceResolves(r: Reference, policy: Policy, ctx: Context, w: World)
    ensures var got := Resolve(Ref(r.scope, r.node, r.path, policy), ctx, w);
            && (forall u :: Has(r, u, ctx, w) ==> got == Bound(u, w))
            && (Lacks(r, ctx, w) ==> got == Fallback(policy, ctx, w))
            && (!Lacks(r, ctx, w) && (forall u :: !Has(r, u, ctx, w)) ==>
                  got == Err(InvalidReference) || got == Err(FailedSource) || got == Err(PrivateData))
  {
    var root := RootOf(r.scope, r.node, ctx);
    if root.Present? && Reading(root.value, r.path, w.types).Found? && ValidReference(r.scope, r.node, r.path) {
      assert Has(r, Reading(root.value, r.path, w.types).value, ctx, w);
    }
  }

  /** A conversion is applied to what its source resolves to; a literal stands for itself. */
  lemma ConversionResolves(source: Expr, settings: Expr, v: Value, ctx: Context, w: World)
    ensures var got := Resolve(Convert(source, settings), ctx, w);
            var from := Resolve(source, ctx, w);
            var made := if from.Ok? then w.convert(Convert(source, settings), from.value) else Err(Mismatch);
            && (from.Err? ==> got == from)
            && (from.Ok? ==> got == if made.Ok? then Ok(made.value) else Err(Rejected(made.error)))
    ensures Resolve(Scalar(v), ctx, w) == Ok(v) && Resolve(Quoted(v), ctx, w) == Ok(v)
  {
  }

  // ----- which references an expression reports ------------------------------------

  /** The reference stands somewhere in the expression. */
  ghost predicate Mentions(e: Expr, r: Reference) {
    match e
    case Ref(scope, node, path, policy) =>
      r == Reference(scope, node, path) || (policy.OnMissingDefault? && Mentions(policy.default, r))
    case Convert(source, settings) => Mentions(source, r) || Mentions(settings, r)
    case Template(elements) => exists i :: 0 <= i < |elements| && Mentions(elements[i], r)
    case Object(_, elements) => exists i :: 0 <= i < |elements| && Mentions(elements[i], r)
    case Array(elements) => exists i :: 0 <= i < |elements| && Mentions(elements[i], r)
    case _ => false
  }

  /** `iter_references` finds exactly the references that stand in the expression. */
  lemma {:induction false} ReferencesAreMentioned(e: Expr, r: Reference)
    ensures r in References(e) <==> Mentions(e, r)
    decreases e
  {
    match e
    case Ref(_, _, _, policy) => if policy.OnMissingDefault? { ReferencesAreMentioned(policy.default, r); }
    case Convert(source, settings) =>
      ReferencesAreMentioned(source, r);
      ReferencesAreMentioned(settings, r);
    case Template(elements) => ListIsMentioned(elements, r);
    case Object(_, elements) => ListIsMentioned(elements, r);
    case Array(elements) => ListIsMentioned(elements, r);
    case _ =>
  }

  lemma {:induction false} ListIsMentioned(es: seq<Expr>, r: Reference)
    ensures r in ListReferences(es) <==> exists i :: 0 <= i < |es| && Mentions(es[i], r)
    decreases es
  {
    if es != [] {
      ReferencesAreMentioned(es[0], r);
      ListIsMentioned(es[1..], r);
      forall i | 0 <= i < |es[1..]| ensures es[1..][i] == es[i + 1] {}
      if i :| 0 <= i < |es| && Mentions(es[i], r) { if i > 0 { assert Mentions(es[1..][i - 1], r); } }
    }
  }

  /** The source of the reference took no part in the run. */
  predicate Untaken(r: Reference, ctx: Context) {
    match r.scope
    case TriggerScope => r.node !in ctx.triggers
    case ConfigScope => r.node !in ctx.triggers
    case StepScope => r.node !in ctx.steps || ctx.steps[r.node].status != StepOk
    case _ => false
  }

  /** The expression lacks this reference: one without a policy whose source took no part, or one to be
      skipped whose data is missing; a default counts only where the data it stands in for is missing. */
  ghost predicate LacksIn(e: Expr, r: Reference, ctx: Context, w: World) {
    match e
    case Ref(scope, node, path, policy) =>
      var own := Reference(scope, node, path);
      if policy.Unspecified? then r == own && Untaken(own, ctx)
      else if policy.OnMissingSkip? then Lacks(own, ctx, w) && r == own
      else policy.OnMissingDefault? && Lacks(own, ctx, w) && LacksIn(policy.default, r, ctx, w)
    case Convert(source, settings) => LacksIn(source, r, ctx, w) || LacksIn(settings, r, ctx, w)
    case Template(elements) => exists i :: 0 <= i < |elements| && LacksIn(elements[i], r, ctx, w)
    case Object(_, elements) => exists i :: 0 <= i < |elements| && LacksIn(elements[i], r, ctx, w)
    case Array(elements) => exists i :: 0 <= i < |elements| && LacksIn(elements[i], r, ctx, w)
    case _ => false
  }

  lemma LacksIsRead(r: Reference, ctx: Context, w: World)
    ensures Lacks(r, ctx, w) <==> ReadRef(r.scope, r.node, r.path, ctx, w) == Ok(None)
  {
  }

  /** The scan reports exactly the references that the expression lacks. */
  lemma {:induction false} UnavailableIsLacking(e: Expr, r: Reference, ctx: Context, w: World)
    ensures r in UnavailableReferences(e, ctx, w) <==> LacksIn(e, r, ctx, w)
    decreases e
  {
    match e
    case Ref(scope, node, path, policy) =>
      LacksIsRead(Reference(scope, node, path), ctx, w);
      if policy.OnMissingDefault? { UnavailableIsLacking(policy.default, r, ctx, w); }
    case Convert(source, settings) =>
      UnavailableIsLacking(source, r, ctx, w);
      UnavailableIsLacking(settings, r, ctx, w);
    case Template(elements) => ListIsLacking(elements, r, ctx, w);
    case Object(_, elements) => ListIsLacking(elements, r, ctx, w);
    case Array(elements) => ListIsLacking(elements, r, ctx, w);
    case _ =>
  }

  lemma {:induction false} ListIsLacking(es: seq<Expr>, r: Reference, ctx: Context, w: World)
    ensures r in UnavailableInList(es, ctx, w) <==> exists i :: 0 <= i < |es| && LacksIn(es[i], r, ctx, w)
    decreases es
  {
    if es != [] {
      UnavailableIsLacking(es[0], r, ctx, w);
      ListIsLacking(es[1..], r, ctx, w);
      forall i | 0 <= i < |es[1..]| ensures es[1..][i] == es[i + 1] {}
      if i :| 0 <= i < |es| && LacksIn(es[i], r, ctx, w) { if i > 0 { assert LacksIn(es[1..][i - 1], r, ctx, w); } }
    }
  }
}
