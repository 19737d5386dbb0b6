/** Sensitive data at run time: marks on sources and on parts of them, and assignments to variables
    that carry the marks along.
 */
module Sensitivity {
  import opened Common
  import opened Values
  import opened DataTypes
  import opened Bindings

  datatype Source = Source(scope: Scope, node: Id)

  /** The marked paths of each source; the empty path marks all of it. */
  type Marks = map<Source, set<seq<Segment>>>

  function MarksOf(marks: Marks, scope: Scope, node: Id): set<seq<Segment>> {
    if Source(scope, node) in marks then marks[Source(scope, node)] else {}
  }

  /** One path is the beginning of the other. */
  predicate Overlaps(a: seq<Segment>, b: seq<Segment>) { if |a| <= |b| then a <= b else b <= a }

  predicate Touches(marks: Marks, r: Reference) {
    exists m :: m in MarksOf(marks, r.scope, r.node) && Overlaps(r.path, m)
  }

  /** `expression_is_sensitive`. */
  predicate IsSensitive(e: Expr, marks: Marks) {
    exists i :: 0 <= i < |References(e)| && Touches(marks, References(e)[i])
  }

  /** Where the data a reference reads is kept: there is one event payload, whatever node the
      reference names. */
  function Home(scope: Scope, node: Id): Id { if scope == EventScope then "" else node }

  /** The reference is valid and reads marked data. */
  predicate Reaches(marks: Marks, r: Reference) {
    && ValidReference(r.scope, r.node, r.path)
    && exists m :: m in MarksOf(marks, r.scope, Home(r.scope, r.node)) && Overlaps(r.path, m)
  }

  /** It reads marked data of the event but names a node, under which `expression_is_sensitive`
      finds no mark of the event. */
  predicate Mislabelled(marks: Marks, r: Reference) { r.scope == EventScope && r.node != "" && Reaches(marks, r) }

  predicate WellLabelled(e: Expr, marks: Marks) { forall r :: r in References(e) ==> !Mislabelled(marks, r) }

  // ----- agreement outside the marks -----------------------------------------------

  /** The marked paths inside one part of a value. */
  function Under(marks: set<seq<Segment>>, seg: Segment): set<seq<Segment>> {
    set m | m in marks && m != [] && m[0] == seg :: m[1..]
  }

  /** Two values are the same but for what is marked. */
  ghost predicate AgreeOutside(a: Value, b: Value, marks: set<seq<Segment>>)
    decreases a
  {
    [] in marks ||
    if marks == {} then a == b
    else match a
      case Dict(fields) => b.Dict? && forall k :: [Key(k)] !in marks ==> FieldAgrees(fields, b.fields, k, marks, a)
      case List(items) =>
        && b.List? && |items| == |b.items|
        && forall i :: 0 <= i < |items| ==> AgreeOutside(items[i], b.items[i], Under(marks, Index(i)))
      case _ => a == b
  }

  ghost predicate FieldAgrees(
      a: map<string, Value>, b: map<string, Value>, k: string, marks: set<seq<Segment>>, whole: Value)
    requires whole == Dict(a)
    decreases whole, 0
  {
    (k in a <==> k in b) && (k in a && k in b ==> AgreeOutside(a[k], b[k], Under(marks, Key(k))))
  }

  ghost predicate RootsAgree(a: Root, b: Root, marks: set<seq<Segment>>) {
    [] in marks || (a.Present? && b.Present? && AgreeOutside(a.value, b.value, marks)) || (a == b && !a.Present?)
  }

  /** Two runs' data are the same but for what is marked. */
  ghost predicate SourcesAgree(a: Context, b: Context, marks: Marks) {
    forall scope, node :: SourceAgrees(scope, node, a, b, marks)
  }

  ghost predicate SourceAgrees(scope: Scope, node: Id, a: Context, b: Context, marks: Marks) {
    RootsAgree(RootOf(scope, node, a), RootOf(scope, node, b), MarksOf(marks, scope, Home(scope, node)))
  }

  /** Type tags are not data: no mark names one. */
  ghost predicate TagsUnmarked(marks: set<seq<Segment>>) { forall m :: m in marks ==> Key("$type") !in m }

  ghost predicate NoTagMarked(marks: Marks) { forall s :: s in marks ==> TagsUnmarked(marks[s]) }

  lemma StepAgrees(a: Value, b: Value, marks: set<seq<Segment>>, seg: Segment, env: Env)
    requires AgreeOutside(a, b, marks) && [] !in marks && [seg] !in marks && TagsUnmarked(marks)
    ensures var (x, y) := (ReadStep(a, seg, env), ReadStep(b, seg, env));
            x == y || (x.Found? && y.Found? && AgreeOutside(x.value, y.value, Under(marks, seg)))
  {
    if marks != {} {
      if a.Dict? {
        SameTag(a, b, marks);
        if seg.Key? { assert FieldAgrees(a.fields, b.fields, seg.name, marks, a); }
        assert TaggedPrivate(a, env) == TaggedPrivate(b, env);
      }
    }
  }

  lemma SameTag(a: Value, b: Value, marks: set<seq<Segment>>)
    requires AgreeOutside(a, b, marks) && [] !in marks && marks != {} && TagsUnmarked(marks) && a.Dict?
    ensures b.Dict? && ("$type" in a.fields <==> "$type" in b.fields)
    ensures "$type" in a.fields ==> a.fields["$type"] == b.fields["$type"]
  {
    assert [Key("$type")] !in marks;
    assert FieldAgrees(a.fields, b.fields, "$type", marks, a);
    assert Under(marks, Key("$type")) == {};
    if "$type" in a.fields {
      assert AgreeOutside(a.fields["$type"], b.fields["$type"], {});
    }
  }

  /** A read whose path overlaps no mark finds the same in both. */
  lemma {:induction false} ReadAgrees(a: Value, b: Value, marks: set<seq<Segment>>, path: seq<Segment>, env: Env)
    requires AgreeOutside(a, b, marks) && TagsUnmarked(marks)
    requires forall m :: m in marks ==> !Overlaps(path, m)
    ensures Reading(a, path, env) == Reading(b, path, env)
    decreases |path|
  {
    if path == [] {
      forall m | m in marks ensures false { assert Overlaps([], m); }
      assert marks == {};
    } else {
      NoMarkAbove(marks, path);
      StepAgrees(a, b, marks, path[0], env);
      var (x, y) := (ReadStep(a, path[0], env), ReadStep(b, path[0], env));
      if x != y {
        UnderKeeps(marks, path);
        ReadAgrees(x.value, y.value, Under(marks, path[0]), path[1..], env);
      }
    }
  }

  lemma NoMarkAbove(marks: set<seq<Segment>>, path: seq<Segment>)
    requires path != [] && forall m :: m in marks ==> !Overlaps(path, m)
    ensures [] !in marks && [path[0]] !in marks
  {
    assert Overlaps(path, []) && Overlaps(path, [path[0]]);
  }

  lemma UnderKeeps(marks: set<seq<Segment>>, path: seq<Segment>)
    requires path != [] && TagsUnmarked(marks) && forall m :: m in marks ==> !Overlaps(path, m)
    ensures TagsUnmarked(Under(marks, path[0])) && forall m :: m in Under(marks, path[0]) ==> !Overlaps(path[1..], m)
  {
    forall m | m in Under(marks, path[0]) ensures !Overlaps(path[1..], m) && Key("$type") !in m {
      var whole :| whole in marks && whole != [] && whole[0] == path[0] && whole[1..] == m;
      assert whole == [path[0]] + m && path == [path[0]] + path[1..];
      assert !Overlaps(path, whole);
    }
  }

  // ----- what a reference reveals --------------------------------------------------

  lemma ReferenceAlike(r: Reference, a: Context, b: Context, marks: Marks, w: World)
    requires !Reaches(marks, r) && SourcesAgree(a, b, marks) && NoTagMarked(marks)
    ensures SameFor(r, a, b, w)
  {
    var own := MarksOf(marks, r.scope, Home(r.scope, r.node));
    var (x, y) := (RootOf(r.scope, r.node, a), RootOf(r.scope, r.node, b));
    if ValidReference(r.scope, r.node, r.path) {
      assert SourceAgrees(r.scope, r.node, a, b, marks);
      forall m | m in own ensures !Overlaps(r.path, m) {}
      if [] in own {
        assert Overlaps(r.path, []);
      } else if x.Present? {
        ReadAgrees(x.value, y.value, own, r.path, w.types);
      }
    }
  }

  /** A value that has `leaf` at the end of the path and nothing else. */
  function Build(path: seq<Segment>, leaf: Value): Value {
    if path == [] then leaf
    else match path[0]
      case Key(name) => Dict(map[name := Build(path[1..], leaf)])
      case Index(at) => List(seq(at, _ => Null) + [Build(path[1..], leaf)])
  }

  lemma {:induction false} BuildIsRead(path: seq<Segment>, beyond: seq<Segment>, i: int, env: Env)
    ensures Reading(Build(path + beyond, Int(i)), path, env) == Found(Build(beyond, Int(i)))
    decreases |path|
  {
    if path == [] {
      assert path + beyond == beyond;
    } else {
      assert (path + beyond)[1..] == path[1..] + beyond;
      BuildIsRead(path[1..], beyond, i, env);
    }
  }

  lemma {:induction false} BuildAgrees(path: seq<Segment>, mark: seq<Segment>, marks: set<seq<Segment>>, i: int, j: int)
    requires mark in marks && mark <= path
    ensures AgreeOutside(Build(path, Int(i)), Build(path, Int(j)), marks)
    decreases |mark|
  {
    if mark != [] && [] !in marks {
      var seg := path[0];
      var (a, b) := (Build(path, Int(i)), Build(path, Int(j)));
      assert mark[1..] in Under(marks, seg);
      BuildAgrees(path[1..], mark[1..], Under(marks, seg), i, j);
      match seg
      case Key(name) =>
        forall k | [Key(k)] !in marks ensures FieldAgrees(a.fields, b.fields, k, marks, a) {}
      case Index(at) =>
        forall k | 0 <= k < |a.items| ensures AgreeOutside(a.items[k], b.items[k], Under(marks, Index(k))) {}
    }
  }

  lemma {:induction false} BuildsDiffer(path: seq<Segment>, i: int, j: int)
    requires i != j
    ensures Build(path, Int(i)) != Build(path, Int(j))
    decreases |path|
  {
    if path != [] {
      BuildsDiffer(path[1..], i, j);
      match path[0]
      case Key(name) => assert Build(path, Int(i)).fields[name] != Build(path, Int(j)).fields[name];
      case Index(at) => assert Build(path, Int(i)).items[at] != Build(path, Int(j)).items[at];
    }
  }

  /** A run's data with one source in it. */
  function Holding(scope: Scope, node: Id, v: Value): Context {
    var none := Context(None, map[], map[], map[], map[]);
    match scope
    case EventScope => none.(event := Some(v))
    case ConstantScope => none.(constants := map[node := v])
    case VariableScope => none.(variables := map[node := v])
    case TriggerScope => none.(triggers := map[node := TriggerData(Some(v), None)])
    case ConfigScope => none.(triggers := map[node := TriggerData(None, Some(v))])
    case StepScope => none.(steps := map[node := StepRecord(StepOk, v)])
  }

  /** What is left of the mark after the path. */
  lemma Beyond(path: seq<Segment>, mark: seq<Segment>) returns (rest: seq<Segment>)
    requires Overlaps(path, mark)
    ensures mark <= path + rest
  {
    rest := if |path| <= |mark| then mark[|path|..] else [];
  }

  /** Two runs whose data differ in nothing but a mark the reference reaches, and which it tells
      apart. */
  lemma Reveals(r: Reference, marks: Marks, w: World) returns (a: Context, b: Context, x: Value, y: Value)
    requires Reaches(marks, r)
    ensures SourcesAgree(a, b, marks)
    ensures ReadRef(r.scope, r.node, r.path, a, w) == Ok(Some(x))
    ensures ReadRef(r.scope, r.node, r.path, b, w) == Ok(Some(y))
    ensures x != y && IsBuilt(x) && IsBuilt(y)
  {
    var own := MarksOf(marks, r.scope, Home(r.scope, r.node));
    var mark :| mark in own && Overlaps(r.path, mark);
    var beyond := Beyond(r.path, mark);
    var path := r.path + beyond;
    a, b := Holding(r.scope, r.node, Build(path, Int(1))), Holding(r.scope, r.node, Build(path, Int(2)));
    x, y := Build(beyond, Int(1)), Build(beyond, Int(2));
    BuildAgrees(path, mark, own, 1, 2);
    HoldingIsRead(r, beyond, 1, w);
    HoldingIsRead(r, beyond, 2, w);
    BuildsDiffer(beyond, 1, 2);
    HoldingAgree(r.scope, r.node, Build(path, Int(1)), Build(path, Int(2)), marks);
  }

  lemma HoldingRoots(scope: Scope, node: Id, v: Value, s: Scope, n: Id)
    ensures RootOf(s, n, Holding(scope, node, v)) ==
      if s == scope && (n == node || s == EventScope) then Present(v) else Absent
  {
  }

  lemma HoldingIsRead(r: Reference, beyond: seq<Segment>, i: int, w: World)
    requires ValidReference(r.scope, r.node, r.path)
    ensures var ctx := Holding(r.scope, r.node, Build(r.path + beyond, Int(i)));
            ReadRef(r.scope, r.node, r.path, ctx, w) == Ok(Some(Build(beyond, Int(i))))
  {
    HoldingRoots(r.scope, r.node, Build(r.path + beyond, Int(i)), r.scope, r.node);
    BuildIsRead(r.path, beyond, i, w.types);
  }

  lemma HoldingAgree(scope: Scope, node: Id, u: Value, v: Value, marks: Marks)
    requires AgreeOutside(u, v, MarksOf(marks, scope, Home(scope, node)))
    ensures SourcesAgree(Holding(scope, node, u), Holding(scope, node, v), marks)
  {
    forall s, n ensures SourceAgrees(s, n, Holding(scope, node, u), Holding(scope, node, v), marks) {
      HoldingRoots(scope, node, u, s, n);
      HoldingRoots(scope, node, v, s, n);
    }
  }

  ghost predicate IsBuilt(v: Value) { exists path, i :: v == Build(path, Int(i)) }

  /** All runs that agree outside the marks agree on what these references read. */
  ghost predicate Blind(refs: seq<Reference>, marks: Marks, w: World) {
    forall a, b :: SourcesAgree(a, b, marks) ==> SameForAll(refs, a, b, w)
  }

  /** A list of references reveals nothing marked if and only if none of them reaches a mark. */
  lemma BlindIff(refs: seq<Reference>, marks: Marks, w: World)
    requires NoTagMarked(marks)
    ensures Blind(refs, marks, w) <==> forall r :: r in refs ==> !Reaches(marks, r)
  {
    forall a, b, r | SourcesAgree(a, b, marks) && r in refs && !Reaches(marks, r) ensures SameFor(r, a, b, w) {
      ReferenceAlike(r, a, b, marks, w);
    }
    forall r | r in refs && Reaches(marks, r) ensures !Blind(refs, marks, w) {
      var a, b, x, y := Reveals(r, marks, w);
      assert !SameFor(r, a, b, w);
    }
  }

  /** `expression_is_sensitive` is right about an expression exactly when the expression has no
      mislabelled reference: what it calls insensitive reads nothing marked, if and only if no event
      reference that reaches a mark names a node. */
  lemma InsensitiveIsBlindIff(e: Expr, marks: Marks, w: World)
    requires !IsSensitive(e, marks) && NoTagMarked(marks)
    ensures Blind(References(e), marks, w) <==> WellLabelled(e, marks)
  {
    BlindIff(References(e), marks, w);
    forall r | r in References(e) ensures Reaches(marks, r) <==> Mislabelled(marks, r) {
      var i :| 0 <= i < |References(e)| && References(e)[i] == r;
      assert !Touches(marks, r);
    }
  }

  /** A well-labelled expression that is not sensitive resolves to the same in both runs, or fails
      alike. */
  lemma InsensitiveResolvesAlike(e: Expr, a: Context, b: Context, marks: Marks, w: World)
    requires !HasLegacy(e) && !IsSensitive(e, marks) && WellLabelled(e, marks)
    requires SourcesAgree(a, b, marks) && NoTagMarked(marks)
    ensures Resolve(e, a, w) == Resolve(e, b, w)
  {
    InsensitiveIsBlindIff(e, marks, w);
    ResolveIsLocal(e, a, b, w);
  }

  /** The registry hands on untagged data as it is. */
  ghost predicate PassesPlain(w: World) { forall v :: IsBuilt(v) ==> w.bound(v) == Ok(v) }

  ghost predicate ResolvesAlike(e: Expr, marks: Marks, w: World) {
    forall a, b :: SourcesAgree(a, b, marks) ==> Resolve(e, a, w) == Resolve(e, b, w)
  }

  /** A single reference that is not sensitive resolves alike in all such runs if and only if it is
      well labelled. */
  lemma ReferenceResolvesAlikeIff(r: Reference, policy: Policy, marks: Marks, w: World)
    requires !policy.OnMissingDefault? && PassesPlain(w) && NoTagMarked(marks)
    requires !IsSensitive(Ref(r.scope, r.node, r.path, policy), marks)
    ensures ResolvesAlike(Ref(r.scope, r.node, r.path, policy), marks, w) <==> !Mislabelled(marks, r)
  {
    var e := Ref(r.scope, r.node, r.path, policy);
    assert References(e) == [r];
    if Mislabelled(marks, r) {
      var a, b, x, y := Reveals(r, marks, w);
      assert Resolve(e, a, w) == Ok(x) && Resolve(e, b, w) == Ok(y);
    } else {
      forall a, b | SourcesAgree(a, b, marks) ensures Resolve(e, a, w) == Resolve(e, b, w) {
        InsensitiveResolvesAlike(e, a, b, marks, w);
      }
    }
  }

  // ----- assignments ---------------------------------------------------------------

  datatype VariableDef = VariableDef(ty: Type, sensitive: bool)

  datatype Tracked = Tracked(ctx: Context, marks: Marks)

  datatype Assignment = Assignment(variable: Id, def: VariableDef, value: Expr)

  /** `assign_variable`, for a declared variable. */
  function Assign(t: Tracked, a: Assignment, w: World): Result<Tracked, Failure> {
    var v := Resolve(a.value, t.ctx, w);
    if v.Err? then Err(v.error)
    else
      var n := Normalize(v.value, a.def.ty, w.types, 0);
      if n.Err? then Err(Rejected(n.error))
      else
        var bound := Bound(n.value, w);
        if bound.Err? then Err(bound.error)
        else
          var source := Source(VariableScope, a.variable);
          var sensitive := a.def.sensitive || IsSensitive(a.value, t.marks);
          Ok(Tracked(
            t.ctx.(variables := t.ctx.variables[a.variable := bound.value]),
            if sensitive then t.marks[source := {[]}] else t.marks - {source}))
  }

  /** Assignments one after another, up to the first that fails. */
  function AssignAll(t: Tracked, list: seq<Assignment>, w: World): Result<Tracked, Failure>
    decreases |list|
  {
    if list == [] then Ok(t)
    else
      var next := Assign(t, list[0], w);
      if next.Err? then next else AssignAll(next.value, list[1..], w)
  }

  ghost predicate Alike(s: Tracked, t: Tracked) {
    s.marks == t.marks && NoTagMarked(s.marks) && SourcesAgree(s.ctx, t.ctx, s.marks)
  }

  lemma AssignRoots(t: Tracked, a: Assignment, w: World, scope: Scope, node: Id)
    requires Assign(t, a, w).Ok?
    ensures var r := Assign(t, a, w).value;
            if scope == VariableScope && node == a.variable then
              RootOf(scope, node, r.ctx) == Present(r.ctx.variables[node])
            else
              && RootOf(scope, node, r.ctx) == RootOf(scope, node, t.ctx)
              && MarksOf(r.marks, scope, Home(scope, node)) == MarksOf(t.marks, scope, Home(scope, node))
  {
  }

  /** An assignment made in both runs leaves them alike. */
  lemma AssignAlike(s: Tracked, t: Tracked, a: Assignment, w: World)
    requires Alike(s, t) && !HasLegacy(a.value) && WellLabelled(a.value, s.marks)
    requires Assign(s, a, w).Ok? && Assign(t, a, w).Ok?
    ensures Alike(Assign(s, a, w).value, Assign(t, a, w).value)
  {
    var (x, y) := (Assign(s, a, w).value, Assign(t, a, w).value);
    if !IsSensitive(a.value, s.marks) { InsensitiveResolvesAlike(a.value, s.ctx, t.ctx, s.marks, w); }
    forall scope, node ensures SourceAgrees(scope, node, x.ctx, y.ctx, x.marks) {
      AssignRoots(s, a, w, scope, node);
      AssignRoots(t, a, w, scope, node);
      assert SourceAgrees(scope, node, s.ctx, t.ctx, s.marks);
    }
  }

  /** Assigning never moves the marks of the event. */
  lemma AssignKeepsLabels(t: Tracked, a: Assignment, w: World, e: Expr)
    requires Assign(t, a, w).Ok?
    ensures WellLabelled(e, Assign(t, a, w).value.marks) <==> WellLabelled(e, t.marks)
  {
    AssignRoots(t, a, w, EventScope, "");
    var later := Assign(t, a, w).value.marks;
    forall r ensures Mislabelled(later, r) <==> Mislabelled(t.marks, r) {
      if r.scope == EventScope { assert Home(r.scope, r.node) == ""; }
    }
  }

  /** Noninterference of assignments: two runs that start alike, differing only in marked data,
      and make the same well-labelled assignments end alike: every variable that is not marked at
      the end has the same value in both. */
  lemma {:induction false} AssignmentsDoNotLeak(s: Tracked, t: Tracked, list: seq<Assignment>, w: World)
    requires Alike(s, t)
    requires forall i :: 0 <= i < |list| ==> !HasLegacy(list[i].value) && WellLabelled(list[i].value, s.marks)
    requires AssignAll(s, list, w).Ok? && AssignAll(t, list, w).Ok?
    ensures var (x, y) := (AssignAll(s, list, w).value, AssignAll(t, list, w).value);
            Alike(x, y) && forall id :: MarksOf(x.marks, VariableScope, id) == {} ==> SameVariable(x.ctx, y.ctx, id)
    decreases |list|
  {
    if list == [] {
      forall id | MarksOf(s.marks, VariableScope, id) == {} ensures SameVariable(s.ctx, t.ctx, id) {
        UnmarkedVariablesAreEqual(s, t, id);
      }
    } else {
      var (x, y) := (Assign(s, list[0], w).value, Assign(t, list[0], w).value);
      AssignAlike(s, t, list[0], w);
      forall i | 0 <= i < |list[1..]|
        ensures !HasLegacy(list[1..][i].value) && WellLabelled(list[1..][i].value, x.marks)
      {
        assert list[1..][i] == list[i + 1];
        AssignKeepsLabels(s, list[0], w, list[i + 1].value);
      }
      AssignmentsDoNotLeak(x, y, list[1..], w);
    }
  }

  ghost predicate SameVariable(a: Context, b: Context, id: Id) {
    && (id in a.variables <==> id in b.variables)
    && (id in a.variables && id in b.variables ==> a.variables[id] == b.variables[id])
  }

  lemma UnmarkedVariablesAreEqual(s: Tracked, t: Tracked, id: Id)
    requires Alike(s, t) && MarksOf(s.marks, VariableScope, id) == {}
    ensures SameVariable(s.ctx, t.ctx, id)
  {
    assert SourceAgrees(VariableScope, id, s.ctx, t.ctx, s.marks);
  }

  /** A mislabelled reference does leak: two runs that differ in nothing but the marked field of the
      event copy it into a variable that is not marked. */
  lemma EventNodeLeaks(node: Id, variable: Id, w: World) returns (s: Tracked, t: Tracked, a: Assignment)
    requires node != "" && PassesPlain(w)
    ensures a.value == Ref(EventScope, node, [Key("token")], Unspecified) && !IsSensitive(a.value, s.marks)
    ensures Alike(s, t) && s.marks == map[Source(EventScope, "") := {[Key("token")]}]
    ensures Assign(s, a, w).Ok? && Assign(t, a, w).Ok?
    ensures var (x, y) := (Assign(s, a, w).value, Assign(t, a, w).value);
            && MarksOf(x.marks, VariableScope, a.variable) == {}
            && !SameVariable(x.ctx, y.ctx, a.variable)
  {
    var path := [Key("token")];
    var marks: Marks := map[Source(EventScope, "") := {path}];
    var r := Reference(EventScope, node, path);
    a := Assignment(variable, VariableDef(ANY, false), Ref(EventScope, node, path, Unspecified));
    assert References(a.value) == [r] && !Touches(marks, r);
    assert path in MarksOf(marks, EventScope, "") && Overlaps(path, path);
    var b, c, x, y := Reveals(r, marks, w);
    s, t := Tracked(b, marks), Tracked(c, marks);
    assert Resolve(a.value, b, w) == Ok(x) && Resolve(a.value, c, w) == Ok(y);
  }

  // ----- the run's variables -------------------------------------------------------

  /** The variables of a run and the marks, as assignments write them. */
  class RunVariables {
    const world: World
    const definitions: map<Id, VariableDef>
    const fixed: Context
    var variables: map<Id, Value>
    var marks: Marks

    function Now(): Tracked
      reads this
    {
      Tracked(fixed.(variables := variables), marks)
    }

    constructor (world: World, definitions: map<Id, VariableDef>, start: Tracked)
      ensures this.world == world && this.definitions == definitions && Now() == start
    {
      this.world := world;
      this.definitions := definitions;
      fixed := start.ctx;
      variables := start.ctx.variables;
      marks := start.marks;
    }

    /** `assign_variable`: an error, also for a constant or an undeclared variable, changes nothing. */
    method AssignVariable(id: Id, value: Expr) returns (r: Result<Value, Failure>)
      modifies this
      ensures id !in definitions ==> r.Err?
      ensures id in definitions ==> match Assign(old(Now()), Assignment(id, definitions[id], value), world)
        case Ok(t) => r == Ok(t.ctx.variables[id]) && Now() == t
        case Err(f) => r == Err(f)
      ensures r.Err? ==> Now() == old(Now())
    {
      if id !in definitions { return Err(MissingBinding); }
      var def := definitions[id];
      var resolved := Resolve(value, Now().ctx, world);
      if resolved.Err? { return resolved; }
      var stored := Normalize(resolved.value, def.ty, world.types, 0);
      if stored.Err? { return Err(Rejected(stored.error)); }
      var bound := Bound(stored.value, world);
      if bound.Err? { return bound; }
      var sensitive := def.sensitive || IsSensitive(value, marks);
      variables := variables[id := bound.value];
      if sensitive {
        marks := marks[Source(VariableScope, id) := {[]}];
      } else {
        marks := marks - {Source(VariableScope, id)};
      }
      r := Ok(bound.value);
    }
  }
}
