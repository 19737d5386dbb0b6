/** The marks are exact: an expression is called sensitive only if marked data can show in what it
    reads, and an assignment marks its variable only for such an expression or a definition that says so.
 */
module SensitivityLaws {
  import opened Common
  import opened Values
  import opened DataTypes
  import opened Normalizing
  import opened Bindings
  import opened ResolveLaws
  import opened Sensitivity

  /** Part of what the reference names is marked, or all of something it is part of. */
  ghost predicate NamesMarked(r: Reference, marks: Marks) {
    Source(r.scope, r.node) in marks
    && exists m :: m in marks[Source(r.scope, r.node)] && (m <= r.path || r.path <= m)
  }

  /** An expression is sensitive exactly when some reference that stands in it names marked data. */
  lemma SensitiveIff(e: Expr, marks: Marks)
    ensures IsSensitive(e, marks) <==> exists r :: Mentions(e, r) && NamesMarked(r, marks)
  {
    var refs := References(e);
    forall r ensures Touches(marks, r) <==> NamesMarked(r, marks) { TouchesIff(r, marks); }
    forall r ensures r in refs <==> Mentions(e, r) { ReferencesAreMentioned(e, r); }
    if r :| Mentions(e, r) && NamesMarked(r, marks) {
      assert r in refs;
      var i :| 0 <= i < |refs| && refs[i] == r;
      assert Touches(marks, refs[i]);
    }
    if i :| 0 <= i < |refs| && Touches(marks, refs[i]) { assert refs[i] in refs && NamesMarked(refs[i], marks); }
  }

  lemma TouchesIff(r: Reference, marks: Marks)
    ensures Touches(marks, r) <==> NamesMarked(r, marks)
  {
    forall m: seq<Segment> ensures Overlaps(r.path, m) <==> m <= r.path || r.path <= m {}
    if m :| m in MarksOf(marks, r.scope, r.node) && Overlaps(r.path, m) {
      assert m in marks[Source(r.scope, r.node)] && (m <= r.path || r.path <= m);
    }
    if NamesMarked(r, marks) {
      var m :| m in marks[Source(r.scope, r.node)] && (m <= r.path || r.path <= m);
      assert m in MarksOf(marks, r.scope, r.node) && Overlaps(r.path, m);
    }
  }

  /** Every reference is valid and names the place its data is kept. */
  ghost predicate Plainly(e: Expr) {
    forall r :: r in References(e) ==> ValidReference(r.scope, r.node, r.path) && r.node == Home(r.scope, r.node)
  }

  /** Such an expression is called sensitive exactly when two runs that differ in marked data alone can
      differ in what it reads. */
  lemma SensitiveIffRevealing(e: Expr, marks: Marks, w: World)
    requires NoTagMarked(marks) && Plainly(e)
    ensures IsSensitive(e, marks) <==> !Blind(References(e), marks, w)
  {
    var refs := References(e);
    BlindIff(refs, marks, w);
    forall r | r in refs ensures Reaches(marks, r) <==> Touches(marks, r) {}
    if i :| 0 <= i < |refs| && Touches(marks, refs[i]) { assert refs[i] in refs; }
    if r :| r in refs && Reaches(marks, r) {
      var i :| 0 <= i < |refs| && refs[i] == r;
      assert Touches(marks, refs[i]);
    }
  }

  // ----- assignments ---------------------------------------------------------------

  /** The variable gets what the expression resolves to, as its type stores it and the registry hands it
      on. */
  ghost predicate Gets(v: Value, t: Tracked, a: Assignment, w: World) {
    exists raw, n ::
      Resolve(a.value, t.ctx, w) == Ok(raw) && Stores(raw, n, a.def.ty, w.types, 0) && w.bound(n) == Ok(v)
  }

  /** It is all marked or not at all. */
  ghost predicate MarkedSo(marks: Marks, id: Id, sensitive: bool) {
    MarksOf(marks, VariableScope, id) == if sensitive then {[]} else {}
  }

  /** An assignment sets this variable and its mark, and changes nothing else. */
  lemma AssignIsExact(t: Tracked, a: Assignment, w: World)
    requires ValidEnv(w.types) && Assign(t, a, w).Ok?
    ensures var (r, id) := (Assign(t, a, w).value, a.variable);
            && r.ctx.variables.Keys == t.ctx.variables.Keys + {id} && Gets(r.ctx.variables[id], t, a, w)
            && (forall x :: x in t.ctx.variables && x != id ==> r.ctx.variables[x] == t.ctx.variables[x])
            && r.ctx.(variables := t.ctx.variables) == t.ctx
            && MarkedSo(r.marks, id, a.def.sensitive || exists x :: Mentions(a.value, x) && NamesMarked(x, t.marks))
            && forall scope, node :: Source(scope, node) != Source(VariableScope, id) ==>
                 MarksOf(r.marks, scope, node) == MarksOf(t.marks, scope, node)
  {
    SensitiveIff(a.value, t.marks);
    var raw := Resolve(a.value, t.ctx, w).value;
    var n := Normalize(raw, a.def.ty, w.types, 0).value;
    NormalizedIsStored(raw, a.def.ty, w.types, 0);
    assert Gets(Bound(n, w).value, t, a, w);
  }
}
