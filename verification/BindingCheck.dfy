/** The static check of step references against the scan that consults them at run time. */
module BindingCheck {
  import opened Common
  import opened Values
  import opened Bindings

  function StepNode(scope: Scope, node: Id): set<Id> { if scope == StepScope then {node} else {} }

  /** The steps `unavailable_references` looks up. */
  function Consulted(e: Expr, ctx: Context, w: World): set<Id> {
    match e
    case Ref(scope, node, path, policy) =>
      var reached := policy.OnMissingDefault? && ReadRef(scope, node, path, ctx, w) == Ok(None);
      var inDefault := if reached then Consulted(policy.default, ctx, w) else {};
      if policy == Unspecified || ValidReference(scope, node, path) then StepNode(scope, node) + inDefault else {}
    case Convert(source, settings) => Consulted(source, ctx, w) + Consulted(settings, ctx, w)
    case Template(elements) => ConsultedInList(elements, ctx, w)
    case Object(_, elements) => ConsultedInList(elements, ctx, w)
    case Array(elements) => ConsultedInList(elements, ctx, w)
    case _ => {}
  }

  function ConsultedInList(es: seq<Expr>, ctx: Context, w: World): set<Id> {
    if es == [] then {} else Consulted(es[0], ctx, w) + ConsultedInList(es[1..], ctx, w)
  }

  /** The steps `resolve_value` can look up before it returns or fails. */
  function ResolvedFrom(e: Expr, ctx: Context, w: World): set<Id> {
    match e
    case Ref(scope, node, path, policy) =>
      var reached := policy.OnMissingDefault? && ReadRef(scope, node, path, ctx, w) == Ok(None);
      var inDefault := if reached then ResolvedFrom(policy.default, ctx, w) else {};
      if ValidReference(scope, node, path) then StepNode(scope, node) + inDefault else {}
    case Convert(source, _) => ResolvedFrom(source, ctx, w)
    case Template(elements) => ResolvedFromList(elements, ctx, w)
    case Object(_, elements) => ResolvedFromList(elements, ctx, w)
    case Array(elements) => ResolvedFromList(elements, ctx, w)
    case _ => {}
  }

  function ResolvedFromList(es: seq<Expr>, ctx: Context, w: World): set<Id> {
    if es == [] then {} else ResolvedFrom(es[0], ctx, w) + ResolvedFromList(es[1..], ctx, w)
  }

  /** The same run data, but for steps other than these. */
  ghost predicate AgreeOn(a: Context, b: Context, ids: set<Id>) {
    && a.(steps := b.steps) == b
    && forall id :: id in ids ==>
      (id in a.steps <==> id in b.steps) && (id in a.steps && id in b.steps ==> a.steps[id] == b.steps[id])
  }

  lemma ReadIsLocal(scope: Scope, node: Id, path: seq<Segment>, a: Context, b: Context, w: World)
    requires AgreeOn(a, b, if ValidReference(scope, node, path) then StepNode(scope, node) else {})
    ensures ReadRef(scope, node, path, a, w) == ReadRef(scope, node, path, b, w)
  {
    if scope == StepScope && ValidReference(scope, node, path) { assert node in StepNode(scope, node); }
  }

  /** The scan looks up these steps and no others: what any other step holds changes neither its
      answer nor where it looks. */
  lemma {:induction false} ScanIsLocal(e: Expr, a: Context, b: Context, w: World)
    requires AgreeOn(a, b, Consulted(e, a, w))
    ensures UnavailableReferences(e, a, w) == UnavailableReferences(e, b, w) && Consulted(e, a, w) == Consulted(e, b, w)
    decreases e
  {
    match e
    case Ref(scope, node, path, policy) =>
      if policy != Unspecified {
        ReadIsLocal(scope, node, path, a, b, w);
        if policy.OnMissingDefault? && ReadRef(scope, node, path, a, w) == Ok(None) {
          ScanIsLocal(policy.default, a, b, w);
        }
      } else if scope == StepScope {
        assert node in StepNode(scope, node);
      }
    case Convert(source, settings) =>
      ScanIsLocal(source, a, b, w);
      ScanIsLocal(settings, a, b, w);
    case Template(elements) => ScanListIsLocal(elements, a, b, w);
    case Object(_, elements) => ScanListIsLocal(elements, a, b, w);
    case Array(elements) => ScanListIsLocal(elements, a, b, w);
    case _ =>
  }

  lemma {:induction false} ScanListIsLocal(es: seq<Expr>, a: Context, b: Context, w: World)
    requires AgreeOn(a, b, ConsultedInList(es, a, w))
    ensures UnavailableInList(es, a, w) == UnavailableInList(es, b, w)
    ensures ConsultedInList(es, a, w) == ConsultedInList(es, b, w)
    decreases es
  {
    if es != [] {
      ScanIsLocal(es[0], a, b, w);
      ScanListIsLocal(es[1..], a, b, w);
    }
  }

  /** Resolving looks up these steps and no others. */
  lemma {:induction false} ResolvingIsLocal(e: Expr, a: Context, b: Context, w: World)
    requires !HasLegacy(e) && AgreeOn(a, b, ResolvedFrom(e, a, w))
    ensures Resolve(e, a, w) == Resolve(e, b, w) && ResolvedFrom(e, a, w) == ResolvedFrom(e, b, w)
    decreases e
  {
    match e
    case Scalar(_) =>
    case Quoted(_) =>
    case Words(pieces) => WordsAreLocal(pieces, a, b, w);
    case Ref(scope, node, path, policy) =>
      ReadIsLocal(scope, node, path, a, b, w);
      if policy.OnMissingDefault? && ReadRef(scope, node, path, a, w) == Ok(None) {
        ResolvingIsLocal(policy.default, a, b, w);
      }
    case Convert(source, _) => ResolvingIsLocal(source, a, b, w);
    case Template(elements) => ResolvingListIsLocal(elements, a, b, w);
    case Object(_, elements) => ResolvingListIsLocal(elements, a, b, w);
    case Array(elements) => ResolvingListIsLocal(elements, a, b, w);
  }

  lemma {:induction false} ResolvingListIsLocal(es: seq<Expr>, a: Context, b: Context, w: World)
    requires (forall i :: 0 <= i < |es| ==> !HasLegacy(es[i])) && AgreeOn(a, b, ResolvedFromList(es, a, w))
    ensures ResolveAll(es, a, w) == ResolveAll(es, b, w) && ResolveText(es, a, w) == ResolveText(es, b, w)
    ensures ResolvedFromList(es, a, w) == ResolvedFromList(es, b, w)
    decreases es
  {
    if es != [] {
      ResolvingIsLocal(es[0], a, b, w);
      ResolvingListIsLocal(es[1..], a, b, w);
    }
  }

  /** The scan looks up everything that resolving will. */
  lemma {:induction false} ScanCoversResolve(e: Expr, ctx: Context, w: World)
    ensures ResolvedFrom(e, ctx, w) <= Consulted(e, ctx, w)
    decreases e
  {
    match e
    case Ref(scope, node, path, policy) =>
      if policy.OnMissingDefault? { ScanCoversResolve(policy.default, ctx, w); }
    case Convert(source, settings) => ScanCoversResolve(source, ctx, w);
    case Template(elements) => ScanCoversList(elements, ctx, w);
    case Object(_, elements) => ScanCoversList(elements, ctx, w);
    case Array(elements) => ScanCoversList(elements, ctx, w);
    case _ =>
  }

  lemma {:induction false} ScanCoversList(es: seq<Expr>, ctx: Context, w: World)
    ensures ResolvedFromList(es, ctx, w) <= ConsultedInList(es, ctx, w)
    decreases es
  {
    if es != [] {
      ScanCoversResolve(es[0], ctx, w);
      ScanCoversList(es[1..], ctx, w);
    }
  }

  // ----- the static check ----------------------------------------------------------

  /** What an expression without issues has in common with every other: each reference the check
      visits is well-formed and, if to a step, to one of `available`. A conversion's settings are
      not visited. */
  predicate Checked(e: Expr, available: set<Id>) {
    match e
    case Ref(scope, node, path, policy) =>
      && ValidReference(scope, node, path) && StepNode(scope, node) <= available
      && (policy.OnMissingDefault? ==> Checked(policy.default, available))
    case Convert(source, _) => Checked(source, available)
    case Template(elements) => CheckedList(elements, available)
    case Object(_, elements) => CheckedList(elements, available)
    case Array(elements) => CheckedList(elements, available)
    case _ => true
  }

  predicate CheckedList(es: seq<Expr>, available: set<Id>) {
    es == [] || (Checked(es[0], available) && CheckedList(es[1..], available))
  }

  /** Every step the scan of an expression can look up, whatever data is missing. */
  function ScanNodes(e: Expr): set<Id> {
    match e
    case Ref(scope, node, path, policy) =>
      if policy == Unspecified then StepNode(scope, node)
      else if !ValidReference(scope, node, path) then {}
      else StepNode(scope, node) + (if policy.OnMissingDefault? then ScanNodes(policy.default) else {})
    case Convert(source, settings) => ScanNodes(source) + ScanNodes(settings)
    case Template(elements) => ScanList(elements)
    case Object(_, elements) => ScanList(elements)
    case Array(elements) => ScanList(elements)
    case _ => {}
  }

  function ScanList(es: seq<Expr>): set<Id> { if es == [] then {} else ScanNodes(es[0]) + ScanList(es[1..]) }

  /** The steps mentioned in the settings of conversions. */
  function SettingsNodes(e: Expr): set<Id> {
    match e
    case Ref(_, _, _, policy) => if policy.OnMissingDefault? then SettingsNodes(policy.default) else {}
    case Convert(source, settings) => SettingsNodes(source) + ScanNodes(settings)
    case Template(elements) => SettingsList(elements)
    case Object(_, elements) => SettingsList(elements)
    case Array(elements) => SettingsList(elements)
    case _ => {}
  }

  function SettingsList(es: seq<Expr>): set<Id> {
    if es == [] then {} else SettingsNodes(es[0]) + SettingsList(es[1..])
  }

  lemma {:induction false} ConsultedIsScanned(e: Expr, ctx: Context, w: World)
    ensures Consulted(e, ctx, w) <= ScanNodes(e)
    decreases e
  {
    match e
    case Ref(_, _, _, policy) => if policy.OnMissingDefault? { ConsultedIsScanned(policy.default, ctx, w); }
    case Convert(source, settings) =>
      ConsultedIsScanned(source, ctx, w);
      ConsultedIsScanned(settings, ctx, w);
    case Template(elements) => ConsultedListIsScanned(elements, ctx, w);
    case Object(_, elements) => ConsultedListIsScanned(elements, ctx, w);
    case Array(elements) => ConsultedListIsScanned(elements, ctx, w);
    case _ =>
  }

  lemma {:induction false} ConsultedListIsScanned(es: seq<Expr>, ctx: Context, w: World)
    ensures ConsultedInList(es, ctx, w) <= ScanList(es)
    decreases es
  {
    if es != [] {
      ConsultedIsScanned(es[0], ctx, w);
      ConsultedListIsScanned(es[1..], ctx, w);
    }
  }

  /** In a checked expression the scan can only reach available steps and those in settings. */
  lemma {:induction false} ScannedIsChecked(e: Expr, available: set<Id>)
    requires Checked(e, available)
    ensures ScanNodes(e) <= available + SettingsNodes(e) && SettingsNodes(e) <= ScanNodes(e)
    decreases e
  {
    match e
    case Ref(_, _, _, policy) => if policy.OnMissingDefault? { ScannedIsChecked(policy.default, available); }
    case Convert(source, settings) => ScannedIsChecked(source, available);
    case Template(elements) => ScannedListIsChecked(elements, available);
    case Object(_, elements) => ScannedListIsChecked(elements, available);
    case Array(elements) => ScannedListIsChecked(elements, available);
    case _ =>
  }

  lemma {:induction false} ScannedListIsChecked(es: seq<Expr>, available: set<Id>)
    requires CheckedList(es, available)
    ensures ScanList(es) <= available + SettingsList(es) && SettingsList(es) <= ScanList(es)
    decreases es
  {
    if es != [] {
      ScannedIsChecked(es[0], available);
      ScannedListIsChecked(es[1..], available);
    }
  }

  /** A run in which the given steps were skipped and nothing else took part. */
  function Blank(steps: set<Id>): Context {
    Context(None, map[], map[], map[], map id | id in steps :: StepRecord(StepSkipped, Null))
  }

  /** In such a run every default is reached, so the scan looks up all it can. */
  lemma {:induction false} BlankScansAll(e: Expr, steps: set<Id>, w: World)
    ensures Consulted(e, Blank(steps), w) == ScanNodes(e)
    decreases e
  {
    match e
    case Ref(scope, node, path, policy) =>
      assert ValidReference(scope, node, path) ==> ReadRef(scope, node, path, Blank(steps), w) == Ok(None);
      if policy.OnMissingDefault? { BlankScansAll(policy.default, steps, w); }
    case Convert(source, settings) =>
      BlankScansAll(source, steps, w);
      BlankScansAll(settings, steps, w);
    case Template(elements) => BlankScansList(elements, steps, w);
    case Object(_, elements) => BlankScansList(elements, steps, w);
    case Array(elements) => BlankScansList(elements, steps, w);
    case _ =>
  }

  lemma {:induction false} BlankScansList(es: seq<Expr>, steps: set<Id>, w: World)
    ensures ConsultedInList(es, Blank(steps), w) == ScanList(es)
    decreases es
  {
    if es != [] {
      BlankScansAll(es[0], steps, w);
      BlankScansList(es[1..], steps, w);
    }
  }

  /** The condition the check leaves open, exactly: a checked expression looks up only recorded
      steps, whatever the run's data, if and only if the steps in its conversion settings are
      recorded ones. */
  lemma LooksUpRecordedIff(e: Expr, available: set<Id>, recorded: set<Id>, w: World)
    requires Checked(e, available) && available <= recorded
    ensures (forall ctx: Context :: ctx.steps.Keys == recorded ==> Consulted(e, ctx, w) <= recorded)
      <==> SettingsNodes(e) <= recorded
  {
    ScannedIsChecked(e, available);
    BlankScansAll(e, recorded, w);
    assert Blank(recorded).steps.Keys == recorded;
    if SettingsNodes(e) <= recorded {
      forall ctx: Context | ctx.steps.Keys == recorded ensures Consulted(e, ctx, w) <= recorded {
        ConsultedIsScanned(e, ctx, w);
      }
    }
  }

  // ----- settings that are looked up in every run ----------------------------------

  /** No reference waits behind another as its default. */
  predicate Direct(e: Expr) {
    match e
    case Ref(_, _, _, policy) => !policy.OnMissingDefault?
    case Convert(source, settings) => Direct(source) && Direct(settings)
    case Template(elements) => DirectList(elements)
    case Object(_, elements) => DirectList(elements)
    case Array(elements) => DirectList(elements)
    case _ => true
  }

  predicate DirectList(es: seq<Expr>) { es == [] || (Direct(es[0]) && DirectList(es[1..])) }

  /** The settings of conversions are direct, and no default holds any. */
  predicate SettingsDirect(e: Expr) {
    match e
    case Ref(_, _, _, policy) => policy.OnMissingDefault? ==> SettingsNodes(policy.default) == {}
    case Convert(source, settings) => SettingsDirect(source) && Direct(settings)
    case Template(elements) => SettingsDirectList(elements)
    case Object(_, elements) => SettingsDirectList(elements)
    case Array(elements) => SettingsDirectList(elements)
    case _ => true
  }

  predicate SettingsDirectList(es: seq<Expr>) {
    es == [] || (SettingsDirect(es[0]) && SettingsDirectList(es[1..]))
  }

  lemma {:induction false} DirectIsConsulted(e: Expr, ctx: Context, w: World)
    requires Direct(e)
    ensures Consulted(e, ctx, w) == ScanNodes(e)
    decreases e
  {
    match e
    case Ref(_, _, _, _) =>
    case Convert(source, settings) =>
      DirectIsConsulted(source, ctx, w);
      DirectIsConsulted(settings, ctx, w);
    case Template(elements) => DirectListIsConsulted(elements, ctx, w);
    case Object(_, elements) => DirectListIsConsulted(elements, ctx, w);
    case Array(elements) => DirectListIsConsulted(elements, ctx, w);
    case _ =>
  }

  lemma {:induction false} DirectListIsConsulted(es: seq<Expr>, ctx: Context, w: World)
    requires DirectList(es)
    ensures ConsultedInList(es, ctx, w) == ScanList(es)
    decreases es
  {
    if es != [] {
      DirectIsConsulted(es[0], ctx, w);
      DirectListIsConsulted(es[1..], ctx, w);
    }
  }

  /** Such settings are looked up whatever the run's data. */
  lemma {:induction false} DirectSettingsAreConsulted(e: Expr, ctx: Context, w: World)
    requires SettingsDirect(e)
    ensures SettingsNodes(e) <= Consulted(e, ctx, w)
    decreases e
  {
    match e
    case Ref(_, _, _, _) =>
    case Convert(source, settings) =>
      DirectSettingsAreConsulted(source, ctx, w);
      DirectIsConsulted(settings, ctx, w);
    case Template(elements) => DirectSettingsInList(elements, ctx, w);
    case Object(_, elements) => DirectSettingsInList(elements, ctx, w);
    case Array(elements) => DirectSettingsInList(elements, ctx, w);
    case _ =>
  }

  lemma {:induction false} DirectSettingsInList(es: seq<Expr>, ctx: Context, w: World)
    requires SettingsDirectList(es)
    ensures SettingsList(es) <= ConsultedInList(es, ctx, w)
    decreases es
  {
    if es != [] {
      DirectSettingsAreConsulted(es[0], ctx, w);
      DirectSettingsInList(es[1..], ctx, w);
    }
  }
}
