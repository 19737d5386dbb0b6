/** Binding expressions: the references they hold, what they resolve to in a run's data, and the
    scan that decides whether that data took part in the run.
 */
module Bindings {
  import opened Common
  import opened Values
  import opened DataTypes

  type Id = string

  datatype Scope = EventScope | TriggerScope | ConfigScope | ConstantScope | VariableScope | StepScope

  /** A piece of plain text: characters, or an old-style `{{ dotted.path }}` template. */
  datatype Piece = Raw(text: string) | Lookup(path: seq<string>)

  /** `on_missing`: not given, error, skip the action, or a default expression. */
  datatype Policy = Unspecified | OnMissingFail | OnMissingSkip | OnMissingDefault(default: Expr)

  /** `settings` of a conversion stands for its target, declared source and options: they are
      walked like any object but never resolved. An object's names pair up with its elements. */
  datatype Expr =
    | Scalar(value: Value)
    | Words(pieces: seq<Piece>)
    | Quoted(value: Value)
    | Ref(scope: Scope, node: Id, path: seq<Segment>, policy: Policy)
    | Convert(source: Expr, settings: Expr)
    | Template(elements: seq<Expr>)
    | Object(names: seq<string>, elements: seq<Expr>)
    | Array(elements: seq<Expr>)

  datatype Status = StepOk | StepFailed | StepSkipped | StepCancelled | StepTimedOut

  datatype StepRecord = StepRecord(status: Status, result: Value)

  datatype TriggerData = TriggerData(payload: Option<Value>, config: Option<Value>)

  datatype Context = Context(
    event: Option<Value>,
    triggers: map<Id, TriggerData>,
    constants: map<Id, Value>,
    variables: map<Id, Value>,
    steps: map<Id, StepRecord>)

  datatype Failure =
    | InvalidReference | MissingBinding | SkippedBinding | FailedSource | PrivateData | NotText
    | Rejected(error: Error)

  /** What resolving relies on besides the type registry: conversion (the expression carries its
      settings), the registry's check of bound values, the text form of a value, and the parts of
      the context that only old-style templates read. */
  datatype World = World(
    types: Env,
    convert: (Expr, Value) -> Result<Value, Error>,
    bound: Value -> Result<Value, Error>,
    show: Value -> string,
    legacy: (Context, string) -> Option<Value>)

  // ----- what an expression mentions -----------------------------------------------

  datatype Reference = Reference(scope: Scope, node: Id, path: seq<Segment>)

  /** `iter_references`, in its order. */
  function References(e: Expr): seq<Reference> {
    match e
    case Ref(scope, node, path, policy) =>
      [Reference(scope, node, path)] + (match policy case OnMissingDefault(d) => References(d) case _ => [])
    case Convert(source, settings) => References(source) + References(settings)
    case Template(elements) => ListReferences(elements)
    case Object(_, elements) => ListReferences(elements)
    case Array(elements) => ListReferences(elements)
    case _ => []
  }

  function ListReferences(es: seq<Expr>): seq<Reference> {
    if es == [] then [] else References(es[0]) + ListReferences(es[1..])
  }

  /** `contains_legacy_template`. */
  predicate HasLegacy(e: Expr) {
    match e
    case Words(pieces) => exists i :: 0 <= i < |pieces| && pieces[i].Lookup?
    case Ref(_, _, _, policy) => (match policy case OnMissingDefault(d) => HasLegacy(d) case _ => false)
    case Convert(source, settings) => HasLegacy(source) || HasLegacy(settings)
    case Template(elements) => exists i :: 0 <= i < |elements| && HasLegacy(elements[i])
    case Object(_, elements) => exists i :: 0 <= i < |elements| && HasLegacy(elements[i])
    case Array(elements) => exists i :: 0 <= i < |elements| && HasLegacy(elements[i])
    case _ => false
  }

  // ----- reading -------------------------------------------------------------------

  predicate ReservedName(name: string) {
    (name != "" && name[0] == '_') || name == "constructor" || name == "prototype"
  }

  predicate ValidReference(scope: Scope, node: Id, path: seq<Segment>) {
    && (forall i :: 0 <= i < |path| && path[i].Key? ==> !ReservedName(path[i].name))
    && (node != "" || scope == EventScope)
  }

  datatype Root = Present(value: Value) | Absent | Broken

  function RootOfOption(v: Option<Value>): Root { if v.Some? then Present(v.value) else Absent }

  /** `_reference_root`, for a valid reference. */
  function RootOf(scope: Scope, node: Id, ctx: Context): Root {
    match scope
    case EventScope => RootOfOption(ctx.event)
    case ConstantScope => if node in ctx.constants then Present(ctx.constants[node]) else Absent
    case VariableScope => if node in ctx.variables then Present(ctx.variables[node]) else Absent
    case TriggerScope => if node in ctx.triggers then RootOfOption(ctx.triggers[node].payload) else Absent
    case ConfigScope => if node in ctx.triggers then RootOfOption(ctx.triggers[node].config) else Absent
    case StepScope =>
      if node !in ctx.steps then Absent
      else match ctx.steps[node].status
        case StepOk => Present(ctx.steps[node].result)
        case StepSkipped => Absent
        case _ => Broken
  }

  /** The value a reference reads; None is a missing value. */
  function ReadRef(scope: Scope, node: Id, path: seq<Segment>, ctx: Context, w: World): Result<Option<Value>, Failure> {
    if !ValidReference(scope, node, path) then Err(InvalidReference)
    else match RootOf(scope, node, ctx)
      case Broken => Err(FailedSource)
      case Absent => Ok(None)
      case Present(v) =>
        match Reading(v, path, w.types)
        case Found(u) => Ok(Some(u))
        case Missing => Ok(None)
        case Private => Err(PrivateData)
  }

  /** An old-style template reads the context by name, past the references. */
  function LegacyStep(v: Value, path: seq<string>): Option<Value>
    decreases |path|
  {
    if path == [] then Some(v)
    else if path[0] == "" || path[0][0] == '_' || !v.Dict? || path[0] !in v.fields then None
    else LegacyStep(v.fields[path[0]], path[1..])
  }

  function LegacyRead(path: seq<string>, ctx: Context, w: World): Option<Value> {
    if path == [] then None
    else if path[0] == "constants" then LegacyStep(Dict(ctx.constants), path[1..])
    else if path[0] == "variables" then LegacyStep(Dict(ctx.variables), path[1..])
    else match w.legacy(ctx, path[0])
      case Some(v) => LegacyStep(v, path[1..])
      case None => None
  }

  function FillIn(pieces: seq<Piece>, ctx: Context, w: World): Result<string, Failure> {
    if pieces == [] then Ok("")
    else
      var first := match pieces[0]
        case Raw(text) => Ok(text)
        case Lookup(path) =>
          var read := LegacyRead(path, ctx, w);
          if read.Some? then Ok(w.show(read.value)) else Err(MissingBinding);
      if first.Err? then first
      else
        var rest := FillIn(pieces[1..], ctx, w);
        if rest.Err? then rest else Ok(first.value + rest.value)
  }

  function Bound(v: Value, w: World): Result<Value, Failure> {
    var r := w.bound(v);
    if r.Ok? then Ok(r.value) else Err(Rejected(r.error))
  }

  /** `resolve_value`. */
  function Resolve(e: Expr, ctx: Context, w: World): Result<Value, Failure> {
    match e
    case Scalar(v) => Ok(v)
    case Quoted(v) => Ok(v)
    case Words(pieces) =>
      if |pieces| == 1 && pieces[0].Lookup? then
        var read := LegacyRead(pieces[0].path, ctx, w);
        if read.Some? then Ok(read.value) else Err(MissingBinding)
      else
        var text := FillIn(pieces, ctx, w);
        if text.Ok? then Ok(Text(text.value)) else Err(text.error)
    case Ref(scope, node, path, policy) =>
      var read := ReadRef(scope, node, path, ctx, w);
      if read.Err? then Err(read.error)
      else if read.value.Some? then Bound(read.value.value, w)
      else
        (match policy
         case OnMissingSkip => Err(SkippedBinding)
         case OnMissingDefault(d) =>
           var r := Resolve(d, ctx, w);
           if r.Ok? then Bound(r.value, w) else r
         case _ => Err(MissingBinding))
    case Convert(source, _) =>
      var v := Resolve(source, ctx, w);
      if v.Err? then v
      else
        var r := w.convert(e, v.value);
        if r.Ok? then Ok(r.value) else Err(Rejected(r.error))
    case Template(elements) =>
      var r := ResolveText(elements, ctx, w);
      if r.Ok? then Ok(Text(r.value)) else Err(r.error)
    case Object(names, elements) =>
      var r := ResolveAll(elements, ctx, w);
      if r.Ok? then Ok(Dict(Pairs(names, r.value))) else Err(r.error)
    case Array(elements) =>
      var r := ResolveAll(elements, ctx, w);
      if r.Ok? then Ok(List(r.value)) else Err(r.error)
  }

  function ResolveText(parts: seq<Expr>, ctx: Context, w: World): Result<string, Failure> {
    if parts == [] then Ok("")
    else
      var first := Resolve(parts[0], ctx, w);
      if first.Err? then Err(first.error)
      else if !first.value.Text? then Err(NotText)
      else
        var rest := ResolveText(parts[1..], ctx, w);
        if rest.Err? then rest else Ok(first.value.s + rest.value)
  }

  function ResolveAll(es: seq<Expr>, ctx: Context, w: World): Result<seq<Value>, Failure> {
    if es == [] then Ok([])
    else
      var first := Resolve(es[0], ctx, w);
      if first.Err? then Err(first.error)
      else
        var rest := ResolveAll(es[1..], ctx, w);
        if rest.Err? then rest else Ok([first.value] + rest.value)
  }

  function Pairs(names: seq<string>, values: seq<Value>): map<string, Value> {
    if names == [] || values == [] then map[] else Pairs(names[1..], values[1..])[names[0] := values[0]]
  }

  // ----- references cover everything that is read ----------------------------------

  ghost predicate SameFor(r: Reference, a: Context, b: Context, w: World) {
    ReadRef(r.scope, r.node, r.path, a, w) == ReadRef(r.scope, r.node, r.path, b, w)
  }

  ghost predicate SameForAll(refs: seq<Reference>, a: Context, b: Context, w: World) {
    forall r :: r in refs ==> SameFor(r, a, b, w)
  }

  /** Data an expression does not refer to cannot change what it resolves to, as long as it
      holds no old-style template. */
  lemma {:induction false} ResolveIsLocal(e: Expr, a: Context, b: Context, w: World)
    requires !HasLegacy(e) && SameForAll(References(e), a, b, w)
    ensures Resolve(e, a, w) == Resolve(e, b, w)
    decreases e
  {
    match e
    case Scalar(_) =>
    case Quoted(_) =>
    case Words(pieces) => WordsAreLocal(pieces, a, b, w);
    case Ref(scope, node, path, policy) =>
      assert Reference(scope, node, path) in References(e) && SameFor(Reference(scope, node, path), a, b, w);
      if policy.OnMissingDefault? { ResolveIsLocal(policy.default, a, b, w); }
    case Convert(source, settings) => ResolveIsLocal(source, a, b, w);
    case Template(elements) => TextIsLocal(elements, a, b, w);
    case Object(_, elements) => ListIsLocal(elements, a, b, w);
    case Array(elements) => ListIsLocal(elements, a, b, w);
  }

  lemma {:induction false} WordsAreLocal(pieces: seq<Piece>, a: Context, b: Context, w: World)
    requires forall i :: 0 <= i < |pieces| ==> !pieces[i].Lookup?
    ensures FillIn(pieces, a, w) == FillIn(pieces, b, w)
  {
    if pieces != [] { WordsAreLocal(pieces[1..], a, b, w); }
  }

  lemma {:induction false} ListIsLocal(es: seq<Expr>, a: Context, b: Context, w: World)
    requires forall i :: 0 <= i < |es| ==> !HasLegacy(es[i])
    requires SameForAll(ListReferences(es), a, b, w)
    ensures ResolveAll(es, a, w) == ResolveAll(es, b, w)
    decreases es
  {
    if es != [] {
      ResolveIsLocal(es[0], a, b, w);
      ListIsLocal(es[1..], a, b, w);
    }
  }

  lemma {:induction false} TextIsLocal(es: seq<Expr>, a: Context, b: Context, w: World)
    requires forall i :: 0 <= i < |es| ==> !HasLegacy(es[i])
    requires SameForAll(ListReferences(es), a, b, w)
    ensures ResolveText(es, a, w) == ResolveText(es, b, w)
    decreases es
  {
    if es != [] {
      ResolveIsLocal(es[0], a, b, w);
      TextIsLocal(es[1..], a, b, w);
    }
  }

  /** Without that condition it would not hold: text can read a constant and mention none. */
  lemma LegacyReadsUnmentioned(id: Id, ctx: Context, w: World)
    requires id != "" && id[0] != '_' && id in ctx.constants
    ensures var e := Words([Lookup(["constants", id])]);
            References(e) == [] && Resolve(e, ctx, w) == Ok(ctx.constants[id])
  {
    var path := ["constants", id];
    assert path[1..] == [id] && [id][1..] == [];
    assert LegacyStep(Dict(ctx.constants), [id]) == Some(ctx.constants[id]);
    assert LegacyRead(path, ctx, w) == Some(ctx.constants[id]);
  }

  // ----- availability --------------------------------------------------------------

  /** `unavailable_references`: the references whose source took no part in the run. */
  function UnavailableReferences(e: Expr, ctx: Context, w: World): seq<Reference> {
    match e
    case Ref(scope, node, path, policy) =>
      var me := [Reference(scope, node, path)];
      if policy == Unspecified then
        if (scope == TriggerScope || scope == ConfigScope) && node !in ctx.triggers then me
        else if scope == StepScope && (node !in ctx.steps || ctx.steps[node].status != StepOk) then me
        else []
      else
        var read := ReadRef(scope, node, path, ctx, w);
        if read.Err? || read.value.Some? then []
        else (match policy
              case OnMissingSkip => me
              case OnMissingDefault(d) => UnavailableReferences(d, ctx, w)
              case _ => [])
    case Convert(source, settings) => UnavailableReferences(source, ctx, w) + UnavailableReferences(settings, ctx, w)
    case Template(elements) => UnavailableInList(elements, ctx, w)
    case Object(_, elements) => UnavailableInList(elements, ctx, w)
    case Array(elements) => UnavailableInList(elements, ctx, w)
    case _ => []
  }

  function UnavailableInList(es: seq<Expr>, ctx: Context, w: World): seq<Reference> {
    if es == [] then [] else UnavailableReferences(es[0], ctx, w) + UnavailableInList(es[1..], ctx, w)
  }

  /** The scan as it is written: it walks the expression and appends to a list. */
  method ScanReferences(e: Expr, ctx: Context, w: World, so: seq<Reference>) returns (missing: seq<Reference>)
    ensures missing == so + UnavailableReferences(e, ctx, w)
    decreases e
  {
    missing := so;
    match e
    case Ref(scope, node, path, policy) =>
      if policy == Unspecified {
        if scope == TriggerScope || scope == ConfigScope {
          if node !in ctx.triggers { missing := missing + [Reference(scope, node, path)]; }
        } else if scope == StepScope {
          if node !in ctx.steps || ctx.steps[node].status != StepOk {
            missing := missing + [Reference(scope, node, path)];
          }
        }
      } else {
        var read := ReadRef(scope, node, path, ctx, w);
        if read.Err? { return; }
        if read.value.None? && policy == OnMissingSkip {
          missing := missing + [Reference(scope, node, path)];
        } else if read.value.None? && policy.OnMissingDefault? {
          missing := ScanReferences(policy.default, ctx, w, missing);
        }
      }
    case Convert(source, settings) =>
      missing := ScanReferences(source, ctx, w, missing);
      missing := ScanReferences(settings, ctx, w, missing);
    case Template(elements) => missing := ScanList(elements, ctx, w, missing);
    case Object(_, elements) => missing := ScanList(elements, ctx, w, missing);
    case Array(elements) => missing := ScanList(elements, ctx, w, missing);
    case _ =>
  }

  method ScanList(es: seq<Expr>, ctx: Context, w: World, so: seq<Reference>) returns (missing: seq<Reference>)
    ensures missing == so + UnavailableInList(es, ctx, w)
    decreases es
  {
    missing := so;
    var i := 0;
    while i < |es|
      invariant 0 <= i <= |es|
      invariant missing + UnavailableInList(es[i..], ctx, w) == so + UnavailableInList(es, ctx, w)
    {
      assert es[i..][1..] == es[i + 1..];
      missing := ScanReferences(es[i], ctx, w, missing);
      i := i + 1;
    }
  }

  /** `references_available`. */
  predicate Available(e: Expr, ctx: Context, w: World) { UnavailableReferences(e, ctx, w) == [] }

  /** An expression whose data is available never asks to be skipped when it is resolved. */
  lemma {:induction false} AvailableIsNotSkipped(e: Expr, ctx: Context, w: World)
    requires Available(e, ctx, w)
    ensures Resolve(e, ctx, w) != Err(SkippedBinding)
    decreases e
  {
    match e
    case Words(pieces) => WordsAreNotSkipped(pieces, ctx, w);
    case Ref(scope, node, path, policy) =>
      if policy.OnMissingDefault? && ReadRef(scope, node, path, ctx, w) == Ok(None) {
        AvailableIsNotSkipped(policy.default, ctx, w);
      }
    case Convert(source, settings) => AvailableIsNotSkipped(source, ctx, w);
    case Template(elements) => TextIsNotSkipped(elements, ctx, w);
    case Object(_, elements) => ListIsNotSkipped(elements, ctx, w);
    case Array(elements) => ListIsNotSkipped(elements, ctx, w);
    case _ =>
  }

  lemma {:induction false} WordsAreNotSkipped(pieces: seq<Piece>, ctx: Context, w: World)
    ensures FillIn(pieces, ctx, w) != Err(SkippedBinding)
  {
    if pieces != [] { WordsAreNotSkipped(pieces[1..], ctx, w); }
  }

  lemma {:induction false} ListIsNotSkipped(es: seq<Expr>, ctx: Context, w: World)
    requires UnavailableInList(es, ctx, w) == []
    ensures ResolveAll(es, ctx, w) != Err(SkippedBinding)
    decreases es
  {
    if es != [] {
      AvailableIsNotSkipped(es[0], ctx, w);
      ListIsNotSkipped(es[1..], ctx, w);
    }
  }

  lemma {:induction false} TextIsNotSkipped(es: seq<Expr>, ctx: Context, w: World)
    requires UnavailableInList(es, ctx, w) == []
    ensures ResolveText(es, ctx, w) != Err(SkippedBinding)
    decreases es
  {
    if es != [] {
      AvailableIsNotSkipped(es[0], ctx, w);
      TextIsNotSkipped(es[1..], ctx, w);
    }
  }
}
