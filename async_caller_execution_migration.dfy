/**
 * Migration support for the AsyncCallerExecution language feature.
 *
 * When the feature is enabled in adoption mode, the compiler warns about each
 * explicit nonisolated async function (a declaration, a closure or a function
 * type written in source) whose execution behaviour the feature will change,
 * and offers a fix-it that adds an implicit `@execution(concurrent)` attribute
 * so that today's behaviour is kept.
 *
 * The AST queries the compiler makes (implicitness, whether the attribute may
 * appear on a declaration, the parsed accessors of a storage declaration,
 * async-ness, the attributes already written) are fields of the node values
 * below. Source locations are abstract identities.
 */
module AsyncCallerExecutionMigration {
  import opened Wrappers

  /** An abstract source location. */
  type Loc = nat

  /** The isolation the type checker inferred for a declaration or closure. */
  datatype ActorIsolation =
    | Unspecified
    | ActorInstance
    | Nonisolated
    | NonisolatedUnsafe
    | GlobalActor
    | Erased
  {
    /** Both `nonisolated` and `nonisolated(unsafe)` count as nonisolated. */
    predicate IsNonisolated() {
      Nonisolated? || NonisolatedUnsafe?
    }
  }

  /** The isolation written on (or inferred for) a function type. */
  datatype FunctionTypeIsolation =
    | NonIsolatedType
    | ParameterIsolated
    | GlobalActorIsolated
    | ErasedIsolated
  {
    predicate IsNonIsolated() {
      NonIsolatedType?
    }
  }

  /** The kinds of value declaration the guard chain tells apart. */
  datatype DeclKind =
    // an AbstractFunctionDecl (function, initializer, accessor, ...)
    | FunctionDecl
    // an AbstractStorageDecl; `parsedGetter` is the location of a getter
    // written in source, `hasSetter` whether any setter exists
    | StorageDecl(parsedGetter: Option<Loc>, hasSetter: bool)
    // any other value declaration
    | OtherValueDecl

  datatype ValueDecl = ValueDecl(
    kind: DeclKind,
    loc: Loc,
    attributeInsertionLoc: Loc,
    isImplicit: bool,
    executionAttrCanAppear: bool,
    hasExecutionAttr: bool,
    isAsync: bool)

  /** An AbstractClosureExpr: an explicit closure or an autoclosure. */
  datatype Closure = Closure(
    loc: Loc,
    isImplicit: bool,
    isAutoClosure: bool,
    hasExecutionAttr: bool,
    isBodyAsync: bool)

  datatype FunctionTypeRepr = FunctionTypeRepr(startLoc: Loc, isAsync: bool)

  /**
   * The node to diagnose together with its isolation. Each constructor pairs
   * a node kind with the isolation kind that the matching entry point takes,
   * so a declaration or closure always carries an ActorIsolation and a type
   * repr a FunctionTypeIsolation.
   */
  datatype Target =
    | DeclTarget(decl: ValueDecl, actorIsolation: ActorIsolation)
    | ClosureTarget(closure: Closure, actorIsolation: ActorIsolation)
    | TypeReprTarget(repr: FunctionTypeRepr, typeIsolation: FunctionTypeIsolation)

  datatype ExecutionKind = Concurrent | Caller

  datatype ExecutionAttr = ExecutionAttr(kind: ExecutionKind, isImplicit: bool)

  /** The attribute the fix-it suggests: `@execution(concurrent)`, implicit. */
  const ImplicitConcurrent := ExecutionAttr(Concurrent, true)

  datatype Feature = AsyncCallerExecution

  /** The three warnings, one per node kind. */
  datatype DiagKind =
    | BehaviorWillChangeDecl
    | BehaviorWillChangeClosure
    | BehaviorWillChangeTypeRepr

  datatype FixIt =
    | InsertAttribute(at: Loc, attr: ExecutionAttr)
    | AddAttributeToClosure(closureLoc: Loc, attr: ExecutionAttr)

  datatype Diagnostic = Diagnostic(
    kind: DiagKind,
    at: Loc,
    feature: Feature,
    attr: ExecutionAttr,
    fixIt: FixIt)

  /** The assertions of the guard chain that stop the compiler. */
  datatype Failure =
    | FeatureNotInAdoptionMode
    | ExplicitAutoClosure
    | StorageHasSetter
    | NeitherFunctionNorStorage

  datatype Outcome =
    | NoDiagnostic
    | Diagnosed(diagnostic: Diagnostic)
    | AssertionFailed(failure: Failure)

  // ---------------------------------------------------------------------
  // The policy, stated as independent conditions on the target

  /** Only nodes written in source are diagnosed. */
  predicate IsExplicit(t: Target) {
    match t
    case DeclTarget(d, _) => !d.isImplicit
    case ClosureTarget(c, _) => !c.isImplicit
    case TypeReprTarget(_, _) => true
  }

  /** A declaration must admit the attribute and, if it is storage, have a getter in source. */
  predicate CanCarryAttribute(t: Target) {
    t.DeclTarget? ==>
      t.decl.executionAttrCanAppear &&
      (t.decl.kind.StorageDecl? ==> t.decl.kind.parsedGetter.Some?)
  }

  predicate IsNonisolatedTarget(t: Target) {
    match t
    case DeclTarget(_, iso) => iso.IsNonisolated() || iso.Unspecified?
    case ClosureTarget(_, iso) => iso.IsNonisolated() || iso.Unspecified?
    case TypeReprTarget(_, iso) => iso.IsNonIsolated()
  }

  /** A function type has no attribute list, so only declarations and closures can say so. */
  predicate HasExplicitExecution(t: Target) {
    match t
    case DeclTarget(d, _) => d.hasExecutionAttr
    case ClosureTarget(c, _) => c.hasExecutionAttr
    case TypeReprTarget(_, _) => false
  }

  predicate IsAsyncTarget(t: Target) {
    match t
    case DeclTarget(d, _) => d.isAsync
    case ClosureTarget(c, _) => c.isBodyAsync
    case TypeReprTarget(r, _) => r.isAsync
  }

  /** The execution behaviour of `t` changes under the feature and nothing in source pins it. */
  predicate BehaviorWillChange(t: Target) {
    IsExplicit(t) && CanCarryAttribute(t) && IsNonisolatedTarget(t) &&
    !HasExplicitExecution(t) && IsAsyncTarget(t)
  }

  /** An explicit node that is an autoclosure: the guard chain asserts this never happens. */
  predicate IsExplicitAutoClosure(t: Target) {
    t.ClosureTarget? && !t.closure.isImplicit && t.closure.isAutoClosure
  }

  /** The shapes the emission step assumes: a declaration is a function, or storage without a setter. */
  predicate EmissionShapeHolds(t: Target) {
    t.DeclTarget? ==>
      t.decl.kind.FunctionDecl? || (t.decl.kind.StorageDecl? && !t.decl.kind.hasSetter)
  }

  function KindOf(t: Target): DiagKind {
    match t
    case DeclTarget(_, _) => BehaviorWillChangeDecl
    case ClosureTarget(_, _) => BehaviorWillChangeClosure
    case TypeReprTarget(_, _) => BehaviorWillChangeTypeRepr
  }

  // ---------------------------------------------------------------------
  // The guard chain

  /**
   * Warns that the behaviour of a nonisolated async function will change and
   * suggests `@execution(concurrent)`: the guards in source order, each an
   * early return, then one diagnostic whose kind follows the node's tag.
   */
  function Diagnose(adoptionMode: bool, t: Target): (r: Outcome)
    ensures !adoptionMode ==> r == AssertionFailed(FeatureNotInAdoptionMode)
    ensures r.Diagnosed? <==> adoptionMode && BehaviorWillChange(t) && !IsExplicitAutoClosure(t) && EmissionShapeHolds(t)
    ensures r.AssertionFailed? <==>
              !adoptionMode || IsExplicitAutoClosure(t) ||
              (t.DeclTarget? && BehaviorWillChange(t) && !EmissionShapeHolds(t))
    ensures r.Diagnosed? ==>
              r.diagnostic.kind == KindOf(t) &&
              r.diagnostic.feature == AsyncCallerExecution &&
              r.diagnostic.attr == ImplicitConcurrent &&
              r.diagnostic.fixIt.attr == ImplicitConcurrent
    ensures r.Diagnosed? && t.DeclTarget? && t.decl.kind.FunctionDecl? ==>
              r.diagnostic.at == t.decl.loc &&
              r.diagnostic.fixIt == InsertAttribute(t.decl.attributeInsertionLoc, ImplicitConcurrent)
    ensures r.Diagnosed? && t.DeclTarget? && t.decl.kind.StorageDecl? ==>
              r.diagnostic.at == t.decl.kind.parsedGetter.value &&
              r.diagnostic.fixIt == InsertAttribute(t.decl.attributeInsertionLoc, ImplicitConcurrent)
    ensures r.Diagnosed? && t.ClosureTarget? ==>
              r.diagnostic.at == t.closure.loc &&
              r.diagnostic.fixIt == AddAttributeToClosure(t.closure.loc, ImplicitConcurrent)
    ensures r.Diagnosed? && t.TypeReprTarget? ==>
              r.diagnostic.at == t.repr.startLoc &&
              r.diagnostic.fixIt == InsertAttribute(t.repr.startLoc, ImplicitConcurrent)
  {
    if !adoptionMode then AssertionFailed(FeatureNotInAdoptionMode)
    else
      match t
      case DeclTarget(d, _) =>
        if d.isImplicit then NoDiagnostic
        else if !d.executionAttrCanAppear then NoDiagnostic
        else if d.kind.StorageDecl? && d.kind.parsedGetter.None? then NoDiagnostic
        else AfterNodeGuards(t)
      case ClosureTarget(c, _) =>
        if c.isImplicit then NoDiagnostic
        else if c.isAutoClosure then AssertionFailed(ExplicitAutoClosure)
        else AfterNodeGuards(t)
      case TypeReprTarget(_, _) =>
        AfterNodeGuards(t)
  }

  /**
   * The isolation, explicit-attribute and async guards shared by all node
   * kinds. They are written out per node kind, in the order the source tests
   * them, instead of calling `IsNonisolatedTarget`, `HasExplicitExecution` and
   * `IsAsyncTarget`: `Diagnose`'s ensures then ties two separate definitions together.
   */
  function AfterNodeGuards(t: Target): Outcome
    requires CanCarryAttribute(t)
  {
    var isNonisolated :=
      match t
      case TypeReprTarget(_, iso) => iso.IsNonIsolated()
      case DeclTarget(_, iso) => iso.IsNonisolated() || iso.Unspecified?
      case ClosureTarget(_, iso) => iso.IsNonisolated() || iso.Unspecified?;
    if !isNonisolated then NoDiagnostic
    else
      var hasAttr :=
        match t
        case DeclTarget(d, _) => d.hasExecutionAttr
        case ClosureTarget(c, _) => c.hasExecutionAttr
        case TypeReprTarget(_, _) => false;
      if hasAttr then NoDiagnostic
      else
        var isAsync :=
          match t
          case DeclTarget(d, _) => d.isAsync
          case ClosureTarget(c, _) => c.isBodyAsync
          case TypeReprTarget(r, _) => r.isAsync;
        if !isAsync then NoDiagnostic
        else Emit(t)
  }

  /**
   * The final step. An accessor is diagnosed itself; for storage the warning
   * points at the parsed getter while the fix-it goes on the storage
   * declaration, which must have no setter.
   */
  function Emit(t: Target): Outcome
    requires CanCarryAttribute(t)
  {
    var attr := ImplicitConcurrent;
    match t
    case DeclTarget(d, _) =>
      (match d.kind
      case FunctionDecl =>
        Diagnosed(Diagnostic(BehaviorWillChangeDecl, d.loc, AsyncCallerExecution, attr,
                             InsertAttribute(d.attributeInsertionLoc, attr)))
      case StorageDecl(getter, hasSetter) =>
        if hasSetter then AssertionFailed(StorageHasSetter)
        else
          Diagnosed(Diagnostic(BehaviorWillChangeDecl, getter.value, AsyncCallerExecution, attr,
                               InsertAttribute(d.attributeInsertionLoc, attr)))
      case OtherValueDecl =>
        AssertionFailed(NeitherFunctionNorStorage))
    case ClosureTarget(c, _) =>
      Diagnosed(Diagnostic(BehaviorWillChangeClosure, c.loc, AsyncCallerExecution, attr,
                           AddAttributeToClosure(c.loc, attr)))
    case TypeReprTarget(r, _) =>
      Diagnosed(Diagnostic(BehaviorWillChangeTypeRepr, r.startLoc, AsyncCallerExecution, attr,
                           InsertAttribute(r.startLoc, attr)))
  }

  // ---------------------------------------------------------------------
  // The three entry points

  /** Entry point for a function type written in source. */
  function WarnForTypeRepr(adoptionMode: bool, repr: FunctionTypeRepr, isolation: FunctionTypeIsolation): (r: Outcome)
    ensures r.AssertionFailed? <==> !adoptionMode
    ensures r.Diagnosed? <==> adoptionMode && isolation.IsNonIsolated() && repr.isAsync
    ensures r.Diagnosed? ==>
              r.diagnostic == Diagnostic(BehaviorWillChangeTypeRepr, repr.startLoc, AsyncCallerExecution,
                                         ImplicitConcurrent, InsertAttribute(repr.startLoc, ImplicitConcurrent))
  {
    Diagnose(adoptionMode, TypeReprTarget(repr, isolation))
  }

  /** Entry point for a value declaration. */
  function WarnForDecl(adoptionMode: bool, decl: ValueDecl, isolation: ActorIsolation): (r: Outcome)
    ensures r.Diagnosed? <==>
              adoptionMode && !decl.isImplicit && decl.executionAttrCanAppear &&
              (isolation.IsNonisolated() || isolation.Unspecified?) &&
              !decl.hasExecutionAttr && decl.isAsync &&
              (decl.kind.FunctionDecl? ||
               (decl.kind.StorageDecl? && decl.kind.parsedGetter.Some? && !decl.kind.hasSetter))
    ensures r.Diagnosed? ==> r.diagnostic.kind == BehaviorWillChangeDecl
    ensures adoptionMode && decl.isImplicit ==> r == NoDiagnostic
  {
    Diagnose(adoptionMode, DeclTarget(decl, isolation))
  }

  /** Entry point for a closure expression. */
  function WarnForClosure(adoptionMode: bool, closure: Closure, isolation: ActorIsolation): (r: Outcome)
    ensures r.Diagnosed? <==>
              adoptionMode && !closure.isImplicit && !closure.isAutoClosure &&
              (isolation.IsNonisolated() || isolation.Unspecified?) &&
              !closure.hasExecutionAttr && closure.isBodyAsync
    ensures r.Diagnosed? ==>
              r.diagnostic == Diagnostic(BehaviorWillChangeClosure, closure.loc, AsyncCallerExecution,
                                         ImplicitConcurrent, AddAttributeToClosure(closure.loc, ImplicitConcurrent))
    ensures adoptionMode && closure.isImplicit ==> r == NoDiagnostic
  {
    Diagnose(adoptionMode, ClosureTarget(closure, isolation))
  }

  // ---------------------------------------------------------------------
  // The guards one by one

  lemma ImplicitNodesAreNotDiagnosed(t: Target)
    requires !IsExplicit(t)
    ensures Diagnose(true, t) == NoDiagnostic
  {
  }

  lemma AttributeThatCannotAppearIsNotDiagnosed(d: ValueDecl, iso: ActorIsolation)
    requires !d.executionAttrCanAppear
    ensures Diagnose(true, DeclTarget(d, iso)) == NoDiagnostic
  {
  }

  lemma StorageWithoutParsedGetterIsNotDiagnosed(d: ValueDecl, iso: ActorIsolation)
    requires d.kind.StorageDecl? && d.kind.parsedGetter.None?
    ensures Diagnose(true, DeclTarget(d, iso)) == NoDiagnostic
  {
  }

  lemma IsolatedTargetsAreNotDiagnosed(adoptionMode: bool, t: Target)
    requires !IsNonisolatedTarget(t)
    ensures !Diagnose(adoptionMode, t).Diagnosed?
  {
  }

  lemma ExplicitExecutionAttributeSuppresses(adoptionMode: bool, t: Target)
    requires HasExplicitExecution(t)
    ensures !Diagnose(adoptionMode, t).Diagnosed?
    ensures t.DeclTarget? || t.ClosureTarget?
  {
  }

  lemma SyncTargetsAreNotDiagnosed(adoptionMode: bool, t: Target)
    requires !IsAsyncTarget(t)
    ensures !Diagnose(adoptionMode, t).Diagnosed?
  {
  }

  /** Every target gets exactly one of: no warning, the warning of its own kind, a stop. */
  lemma OutcomeIsDeterminedByTag(adoptionMode: bool, t: Target, k: DiagKind)
    requires Diagnose(adoptionMode, t).Diagnosed?
    requires Diagnose(adoptionMode, t).diagnostic.kind == k
    ensures k == KindOf(t)
    ensures (k == BehaviorWillChangeDecl) == t.DeclTarget?
    ensures (k == BehaviorWillChangeClosure) == t.ClosureTarget?
    ensures (k == BehaviorWillChangeTypeRepr) == t.TypeReprTarget?
  {
  }

  /** An async storage declaration that passes every guard but has a setter stops the compiler. */
  lemma StorageWithSetterFailsAssertion(d: ValueDecl, iso: ActorIsolation)
    requires BehaviorWillChange(DeclTarget(d, iso))
    requires d.kind.StorageDecl? && d.kind.hasSetter
    ensures Diagnose(true, DeclTarget(d, iso)) == AssertionFailed(StorageHasSetter)
  {
  }
}
