/**
 * The SIL pass that diagnoses compile-time values which were not simplified
 * to values known at compile time.
 *
 * Three checks run in order over one SIL module:
 *  - every `@const` global must be initialised with compile-time known values,
 *  - every `@const` local (seen as a debug_value) must hold a constant,
 *  - every argument passed to a `@const` parameter must be a constant.
 *
 * The constant evaluator is an oracle: `isConstant` and
 * `containsOnlyConstants` of the symbolic value it computes for an SSA value.
 * Diagnostics are the message kind and the location they point at.
 */
module CompileTimeValues {
  import opened Wrappers

  type Loc = nat

  /** Identity of a SILGlobalVariable (the source compares addresses). */
  type GlobalId = nat

  /** An SSA value (an instruction operand). */
  type Value = nat

  /** What the constant evaluator reports about the symbolic value of an SSA value. */
  datatype ConstEvaluator = ConstEvaluator(
    isConstant: Value -> bool,
    containsOnlyConstants: Value -> bool)

  /** A variable declaration: whether it is `@const`, its location and its start location. */
  datatype VarDecl = VarDecl(isConstVal: bool, loc: Loc, startLoc: Loc)

  /** The static initializer of a global: a struct instruction, or any other value. */
  datatype StaticInitializer =
    | StructInit(operands: seq<Value>)
    | OtherInit(value: Value)

  datatype Global = Global(id: GlobalId, decl: Option<VarDecl>, staticInit: Option<StaticInitializer>)

  datatype ParamDecl = ParamDecl(isConstVal: bool)

  /**
   * What an apply's callee resolves to: no SIL function, a SIL function whose
   * location is not a FuncDecl, or a FuncDecl with its parameter list.
   */
  datatype Callee =
    | NoCalleeFunction
    | NotAFuncDecl
    | FuncDecl(params: seq<ParamDecl>)

  datatype Instruction =
    // a global_addr; `soleStore` is the value stored through it when the
    // address has exactly one use (a store), None when it has not
    | GlobalAddr(global: GlobalId, soleStore: Option<Value>)
    | DebugValue(decl: Option<VarDecl>, operand: Value)
    // an apply; `applyExpr` is the ApplyExpr it comes from in source, if any
    | Apply(callee: Callee, args: seq<Value>, loc: Loc, applyExpr: Option<ApplyExprNode>)
    | OtherInstruction

  /**
   * An ApplyExpr in source: the location of its argument list as a whole and
   * the location of each of its arguments.
   */
  datatype ApplyExprNode = ApplyExprNode(argListLoc: Loc, argLocs: seq<Loc>)

  type Block = seq<Instruction>

  /**
   * A SIL function. `globalInitOf` is the global it is the initialisation
   * accessor of, if any; `onceInitializer` the body of the function that the
   * accessor calls through `once`, if it can be found.
   */
  datatype Function = Function(
    blocks: seq<Block>,
    globalInitOf: Option<GlobalId>,
    onceInitializer: Option<seq<Block>>)

  datatype Module = Module(globals: seq<Global>, functions: seq<Function>)

  datatype Diagnostic =
    | RequireConstInitializerForConst(at: Loc)
    | RequireConstArgForParameter(at: Loc)

  // ---------------------------------------------------------------------
  // Globals with a static initializer

  /** The number of operands whose symbolic value is not made of constants only. */
  function CountNotOnlyConstants(eval: ConstEvaluator, ops: seq<Value>): (n: nat)
    ensures n <= |ops|
    ensures n == 0 <==> forall i :: 0 <= i < |ops| ==> eval.containsOnlyConstants(ops[i])
    ensures n == |ops| <==> forall i :: 0 <= i < |ops| ==> !eval.containsOnlyConstants(ops[i])
    ensures n == |set i | 0 <= i < |ops| && !eval.containsOnlyConstants(ops[i])|
  {
    if ops == [] then 0
    else
      var init, last := ops[..|ops| - 1], ops[|ops| - 1];
      assert ops == init + [last];
      NotOnlyConstantIndicesSnoc(eval, init, last);
      CountNotOnlyConstants(eval, init) + (if eval.containsOnlyConstants(last) then 0 else 1)
  }

  /** Appending an operand adds its index to the counted ones exactly when it is not constant-only. */
  lemma NotOnlyConstantIndicesSnoc(eval: ConstEvaluator, init: seq<Value>, last: Value)
    ensures (set i | 0 <= i < |init + [last]| && !eval.containsOnlyConstants((init + [last])[i]))
         == (set i | 0 <= i < |init| && !eval.containsOnlyConstants(init[i]))
            + (if eval.containsOnlyConstants(last) then {} else {|init|})
  {
    var ops := init + [last];
    assert forall i :: 0 <= i < |init| ==> ops[i] == init[i];
  }

  /** The diagnostics the static check emits: one per struct operand that is not all constants. */
  function StaticInitializerDiagnostics(eval: ConstEvaluator, init: StaticInitializer, decl: VarDecl): seq<Diagnostic> {
    match init
    case StructInit(ops) => seq(CountNotOnlyConstants(eval, ops), _ => RequireConstInitializerForConst(decl.loc))
    case OtherInit(_) => []
  }

  method VerifyStaticallyInitializedGlobal(eval: ConstEvaluator, init: StaticInitializer, decl: VarDecl)
    returns (diags: seq<Diagnostic>)
    ensures init.OtherInit? ==> diags == []
    ensures init.StructInit? ==> |diags| == CountNotOnlyConstants(eval, init.operands)
    ensures forall k :: 0 <= k < |diags| ==> diags[k] == RequireConstInitializerForConst(decl.loc)
  {
    diags := [];
    if init.StructInit? {
      var ops := init.operands;
      for i := 0 to |ops|
        invariant |diags| == CountNotOnlyConstants(eval, ops[..i])
        invariant forall k :: 0 <= k < |diags| ==> diags[k] == RequireConstInitializerForConst(decl.loc)
      {
        assert ops[..i + 1][..i] == ops[..i];
        if !eval.containsOnlyConstants(ops[i]) {
          diags := diags + [RequireConstInitializerForConst(decl.loc)];
        }
      }
      assert ops[..|ops|] == ops;
    }
  }

  // ---------------------------------------------------------------------
  // Globals initialised once, through an initializer function

  predicate IsConstantStoreTo(eval: ConstEvaluator, inst: Instruction, g: GlobalId) {
    inst.GlobalAddr? && inst.global == g && inst.soleStore.Some? && eval.isConstant(inst.soleStore.value)
  }

  /**
   * Instruction `i` of block `b` of the once-initializer of function `f` is a
   * global_addr of `g` whose sole use stores a constant, and `f` is the
   * initialisation accessor of `g`.
   */
  ghost predicate ConstantStoreAt(m: Module, eval: ConstEvaluator, g: GlobalId, f: int, b: int, i: int) {
    0 <= f < |m.functions| &&
    m.functions[f].globalInitOf == Some(g) &&
    m.functions[f].onceInitializer.Some? &&
    0 <= b < |m.functions[f].onceInitializer.value| &&
    0 <= i < |m.functions[f].onceInitializer.value[b]| &&
    IsConstantStoreTo(eval, m.functions[f].onceInitializer.value[b][i], g)
  }

  ghost predicate HasConstantInitialStore(m: Module, eval: ConstEvaluator, g: GlobalId) {
    exists f, b, i :: ConstantStoreAt(m, eval, g, f, b, i)
  }

  method VerifyInitializeOnceGlobal(m: Module, eval: ConstEvaluator, g: GlobalId, decl: VarDecl)
    returns (diags: seq<Diagnostic>)
    ensures HasConstantInitialStore(m, eval, g) ==> diags == []
    ensures !HasConstantInitialStore(m, eval, g) ==> diags == [RequireConstInitializerForConst(decl.loc)]
  {
    for f := 0 to |m.functions|
      invariant forall f', b, i :: f' < f ==> !ConstantStoreAt(m, eval, g, f', b, i)
    {
      var fn := m.functions[f];
      if fn.globalInitOf == Some(g) && fn.onceInitializer.Some? {
        var body: seq<Block> := fn.onceInitializer.value;
        for b := 0 to |body|
          invariant forall f', b', i :: (f' < f || (f' == f && b' < b)) ==> !ConstantStoreAt(m, eval, g, f', b', i)
        {
          for i := 0 to |body[b]|
            invariant forall f', b', i' :: (f' < f || (f' == f && b' < b) || (f' == f && b' == b && i' < i)) ==>
                                           !ConstantStoreAt(m, eval, g, f', b', i')
          {
            var inst: Instruction := body[b][i];
            if inst.GlobalAddr? && inst.global == g {
              if inst.soleStore.Some? {
                if eval.isConstant(inst.soleStore.value) {
                  assert ConstantStoreAt(m, eval, g, f, b, i);
                  return [];
                }
              }
            }
          }
        }
      }
    }
    diags := [RequireConstInitializerForConst(decl.loc)];
  }

  // ---------------------------------------------------------------------
  // All globals

  /** What the checks emit for one global: only `@const` globals are checked. */
  ghost function GlobalDiagnostics(m: Module, eval: ConstEvaluator, gl: Global): seq<Diagnostic> {
    match gl.decl
    case None => []
    case Some(d) =>
      if !d.isConstVal then []
      else
        match gl.staticInit
        case Some(init) => StaticInitializerDiagnostics(eval, init, d)
        case None =>
          if HasConstantInitialStore(m, eval, gl.id) then [] else [RequireConstInitializerForConst(d.loc)]
  }

  ghost function GlobalsDiagnostics(m: Module, eval: ConstEvaluator, gs: seq<Global>): seq<Diagnostic> {
    if gs == [] then []
    else GlobalsDiagnostics(m, eval, gs[..|gs| - 1]) + GlobalDiagnostics(m, eval, gs[|gs| - 1])
  }

  method VerifyGlobals(m: Module, eval: ConstEvaluator) returns (diags: seq<Diagnostic>)
    ensures diags == GlobalsDiagnostics(m, eval, m.globals)
  {
    diags := [];
    var gs := m.globals;
    for j := 0 to |gs|
      invariant diags == GlobalsDiagnostics(m, eval, gs[..j])
    {
      assert gs[..j + 1][..j] == gs[..j];
      var gl := gs[j];
      var more := [];
      if gl.decl.Some? {
        var d := gl.decl.value;
        if d.isConstVal {
          if gl.staticInit.Some? {
            more := VerifyStaticallyInitializedGlobal(eval, gl.staticInit.value, d);
            assert more == StaticInitializerDiagnostics(eval, gl.staticInit.value, d);
          } else {
            more := VerifyInitializeOnceGlobal(m, eval, gl.id, d);
          }
        }
      }
      diags := diags + more;
    }
    assert gs[..|gs|] == gs;
  }

  /** Every diagnostic of the global checks names the declaration of a `@const` global. */
  lemma {:induction false} GlobalDiagnosticsNameConstGlobals(m: Module, eval: ConstEvaluator, gs: seq<Global>, k: nat)
    requires k < |GlobalsDiagnostics(m, eval, gs)|
    ensures exists j :: 0 <= j < |gs| && gs[j].decl.Some? && gs[j].decl.value.isConstVal &&
                        GlobalsDiagnostics(m, eval, gs)[k] == RequireConstInitializerForConst(gs[j].decl.value.loc)
  {
    var init := gs[..|gs| - 1];
    var last := gs[|gs| - 1];
    if k < |GlobalsDiagnostics(m, eval, init)| {
      GlobalDiagnosticsNameConstGlobals(m, eval, init, k);
      var j :| 0 <= j < |init| && init[j].decl.Some? && init[j].decl.value.isConstVal &&
               GlobalsDiagnostics(m, eval, init)[k] == RequireConstInitializerForConst(init[j].decl.value.loc);
      assert init[j] == gs[j];
    } else {
      assert GlobalsDiagnostics(m, eval, gs)[k] in GlobalDiagnostics(m, eval, last);
      assert gs[|gs| - 1] == last;
    }
  }

  /** A `@const` global initialised once without a constant store is diagnosed at its declaration. */
  lemma {:induction false} UnknownInitOnceGlobalIsDiagnosed(m: Module, eval: ConstEvaluator, gs: seq<Global>, j: nat)
    requires j < |gs| && gs[j].decl.Some? && gs[j].decl.value.isConstVal && gs[j].staticInit.None?
    requires !HasConstantInitialStore(m, eval, gs[j].id)
    ensures RequireConstInitializerForConst(gs[j].decl.value.loc) in GlobalsDiagnostics(m, eval, gs)
  {
    var init := gs[..|gs| - 1];
    if j < |init| {
      assert init[j] == gs[j];
      UnknownInitOnceGlobalIsDiagnosed(m, eval, init, j);
    }
  }

  // ---------------------------------------------------------------------
  // Locals

  /** The diagnostic for a debug_value: its decl exists, is `@const`, and the value is unknown. */
  function LocalDiagnostics(eval: ConstEvaluator, inst: Instruction): seq<Diagnostic>
    requires inst.DebugValue?
  {
    if inst.decl.Some? && inst.decl.value.isConstVal && !eval.isConstant(inst.operand)
    then [RequireConstArgForParameter(inst.decl.value.startLoc)]
    else []
  }

  method VerifyLocal(eval: ConstEvaluator, inst: Instruction) returns (diags: seq<Diagnostic>)
    requires inst.DebugValue?
    ensures |diags| <= 1
    ensures diags != [] <==> inst.decl.Some? && inst.decl.value.isConstVal && !eval.isConstant(inst.operand)
    ensures diags != [] ==> diags[0] == RequireConstArgForParameter(inst.decl.value.startLoc)
  {
    diags := [];
    var decl := inst.decl;
    if decl.None? || !decl.value.isConstVal {
      return;
    }
    var isConstant := eval.isConstant(inst.operand);
    if !isConstant {
      diags := [RequireConstArgForParameter(decl.value.startLoc)];
    }
  }

  // ---------------------------------------------------------------------
  // Call arguments

  predicate HasConstParam(params: seq<ParamDecl>) {
    exists i :: 0 <= i < |params| && params[i].isConstVal
  }

  /**
   * The indices below `n`, in increasing order, whose parameter is `@const`
   * and whose argument is not a constant. Arguments pair with parameters by
   * index; an index with no argument is not a violation (the call check is
   * only run on applies that have an argument for every parameter).
   */
  function Violations(eval: ConstEvaluator, params: seq<ParamDecl>, args: seq<Value>, n: nat): seq<nat>
    requires n <= |params|
  {
    if n == 0 then []
    else
      var p := n - 1;
      Violations(eval, params, args, p) +
      (if params[p].isConstVal && p < |args| && !eval.isConstant(args[p]) then [p] else [])
  }

  /** The violations below `n` are exactly the violating indices, each once, in increasing order. */
  lemma {:induction false} ViolationsCharacterized(eval: ConstEvaluator, params: seq<ParamDecl>, args: seq<Value>, n: nat)
    requires n <= |params|
    ensures forall k :: 0 <= k < |Violations(eval, params, args, n)| ==> Violations(eval, params, args, n)[k] < n
    ensures forall k, l :: 0 <= k < l < |Violations(eval, params, args, n)| ==>
              Violations(eval, params, args, n)[k] < Violations(eval, params, args, n)[l]
    ensures forall p :: 0 <= p < n ==>
              (p in Violations(eval, params, args, n) <==> params[p].isConstVal && p < |args| && !eval.isConstant(args[p]))
  {
    if n > 0 {
      ViolationsCharacterized(eval, params, args, n - 1);
    }
  }

  /**
   * Where the diagnostic for argument `p` points: argument `p` of the
   * ApplyExpr, else the apply. The source means this but reads memory past
   * the argument list for `p > 0` (see `AsWrittenArgLocation`).
   */
  function ArgLocation(inst: Instruction, p: nat): Loc
    requires inst.Apply?
  {
    match inst.applyExpr
    case Some(e) => if p < |e.argLocs| then e.argLocs[p] else inst.loc
    case None => inst.loc
  }

  /**
   * Where the source's location comes from: the apply itself when there is
   * no ApplyExpr, else subscripting a pointer to the argument list, which
   * yields that list or memory past it.
   */
  datatype ComputedArgLocation = ApplyLocation(at: Loc) | TheArgList(at: Loc) | PastTheArgList

  /**
   * The location as the source computes it. `getArgs()` is a pointer to the
   * ApplyExpr's argument list, so `getArgs()[p]` is the list itself when
   * `p == 0` and lies past the list otherwise; it never selects argument `p`.
   */
  function AsWrittenArgLocation(inst: Instruction, p: nat): (r: ComputedArgLocation)
    requires inst.Apply?
    ensures inst.applyExpr.None? ==> r == ApplyLocation(inst.loc)
    ensures inst.applyExpr.Some? ==> !r.ApplyLocation? && (r.TheArgList? <==> p == 0)
    ensures inst.applyExpr.Some? && r.TheArgList? ==> r.at == inst.applyExpr.value.argListLoc
  {
    match inst.applyExpr
    case None => ApplyLocation(inst.loc)
    case Some(e) => if p == 0 then TheArgList(e.argListLoc) else PastTheArgList
  }

  /**
   * For every source apply, the as-written location of any argument after the
   * first is not the argument's location: it is read past the argument list.
   */
  lemma AsWrittenArgLocationMissesLaterArguments(inst: Instruction, p: nat)
    requires inst.Apply? && inst.applyExpr.Some? && 0 < p < |inst.applyExpr.value.argLocs|
    ensures AsWrittenArgLocation(inst, p) == PastTheArgList
    ensures AsWrittenArgLocation(inst, p) != TheArgList(ArgLocation(inst, p))
    ensures ArgLocation(inst, p) == inst.applyExpr.value.argLocs[p]
  {
  }

  /**
   * A call `f(x, y)` to `func f(a: Int, @const b: Int)` whose `y` is not a
   * constant: the source's location for `b` lies past the argument list,
   * while the intended location is that of `y`.
   */
  lemma AsWrittenArgLocationCounterexample()
    ensures var inst := Apply(FuncDecl([ParamDecl(false), ParamDecl(true)]), [0, 1], 10,
                              Some(ApplyExprNode(11, [12, 15])));
            AsWrittenArgLocation(inst, 1) == PastTheArgList && ArgLocation(inst, 1) == 15
  {
  }

  function DiagnosticsFor(inst: Instruction, v: seq<nat>): seq<Diagnostic>
    requires inst.Apply?
  {
    seq(|v|, k requires 0 <= k < |v| => RequireConstArgForParameter(ArgLocation(inst, v[k])))
  }

  /** The diagnostics for one apply: one per violating parameter, in parameter order. */
  function CallDiagnostics(eval: ConstEvaluator, inst: Instruction): seq<Diagnostic>
    requires inst.Apply?
  {
    match inst.callee
    case FuncDecl(params) => DiagnosticsFor(inst, Violations(eval, params, inst.args, |params|))
    case _ => []
  }

  /**
   * Pairing argument `i` with parameter `i` needs an argument (and, when the
   * apply comes from source, an argument location) for every parameter of a
   * callee that has a `@const` parameter.
   */
  predicate ApplyWellFormed(inst: Instruction) {
    inst.Apply? && inst.callee.FuncDecl? && HasConstParam(inst.callee.params) ==>
      |inst.args| >= |inst.callee.params| &&
      (inst.applyExpr.Some? ==> |inst.applyExpr.value.argLocs| >= |inst.callee.params|)
  }

  method VerifyCallArgumentsAt(eval: ConstEvaluator, inst: Instruction) returns (diags: seq<Diagnostic>)
    requires inst.Apply? && ApplyWellFormed(inst)
    ensures diags == CallDiagnostics(eval, inst)
    ensures !inst.callee.FuncDecl? ==> diags == []
    ensures inst.callee.FuncDecl? && !HasConstParam(inst.callee.params) ==> diags == []
  {
    diags := [];
    if !inst.callee.FuncDecl? {
      return;
    }
    var params := inst.callee.params;
    var args := inst.args;

    var hasConst := false;
    for i := 0 to |params|
      invariant hasConst <==> exists k :: 0 <= k < i && params[k].isConstVal
    {
      if params[i].isConstVal {
        hasConst := true;
      }
    }

    if hasConst {
      for i := 0 to |params|
        invariant diags == DiagnosticsFor(inst, Violations(eval, params, args, i))
      {
        ghost var v := Violations(eval, params, args, i);
        var correspondingArg := args[i];
        if params[i].isConstVal {
          if !eval.isConstant(correspondingArg) {
            var at := inst.loc;
            if inst.applyExpr.Some? {
              at := inst.applyExpr.value.argLocs[i];
            }
            DiagnosticsForSnoc(inst, v, i);
            diags := diags + [RequireConstArgForParameter(at)];
          }
        }
      }
    } else {
      NoConstParamNoViolations(eval, params, args, |params|);
    }
  }

  lemma DiagnosticsForSnoc(inst: Instruction, v: seq<nat>, p: nat)
    requires inst.Apply?
    ensures DiagnosticsFor(inst, v + [p]) == DiagnosticsFor(inst, v) + [RequireConstArgForParameter(ArgLocation(inst, p))]
  {
  }

  lemma NoConstParamNoViolations(eval: ConstEvaluator, params: seq<ParamDecl>, args: seq<Value>, n: nat)
    requires n <= |params| && !HasConstParam(params)
    ensures Violations(eval, params, args, n) == []
  {
    ViolationsCharacterized(eval, params, args, n);
  }

  /** A parameter is diagnosed exactly when it is `@const` and its argument is unknown. */
  predicate ViolatingParam(eval: ConstEvaluator, inst: Instruction, p: int) {
    inst.Apply? && inst.callee.FuncDecl? &&
    0 <= p < |inst.callee.params| && inst.callee.params[p].isConstVal &&
    p < |inst.args| && !eval.isConstant(inst.args[p])
  }

  lemma CallDiagnosticsMembers(eval: ConstEvaluator, inst: Instruction, d: Diagnostic)
    requires inst.Apply?
    ensures d in CallDiagnostics(eval, inst) <==>
            exists p :: ViolatingParam(eval, inst, p) && d == RequireConstArgForParameter(ArgLocation(inst, p))
  {
    if inst.callee.FuncDecl? {
      var params := inst.callee.params;
      var v := Violations(eval, params, inst.args, |params|);
      ViolationsCharacterized(eval, params, inst.args, |params|);
      var ds := CallDiagnostics(eval, inst);
      if d in ds {
        var k :| 0 <= k < |ds| && ds[k] == d;
        assert v[k] in v;
        assert ViolatingParam(eval, inst, v[k]);
      }
      if exists p :: ViolatingParam(eval, inst, p) && d == RequireConstArgForParameter(ArgLocation(inst, p)) {
        var p :| ViolatingParam(eval, inst, p) && d == RequireConstArgForParameter(ArgLocation(inst, p));
        assert p in v;
        var k :| 0 <= k < |v| && v[k] == p;
        assert ds[k] == d;
      }
    }
  }

  /** The number of diagnostics for one apply is the number of violating parameters: each at most once. */
  lemma CallDiagnosticsCount(eval: ConstEvaluator, inst: Instruction)
    requires inst.Apply? && inst.callee.FuncDecl?
    ensures |CallDiagnostics(eval, inst)| ==
            |set p | 0 <= p < |inst.callee.params| && ViolatingParam(eval, inst, p)|
  {
    var params := inst.callee.params;
    var v := Violations(eval, params, inst.args, |params|);
    ViolationsCharacterized(eval, params, inst.args, |params|);
    var s := set p | 0 <= p < |params| && ViolatingParam(eval, inst, p);
    assert s == set k | 0 <= k < |v| :: v[k];
    DistinctCard(v);
  }

  /** A strictly increasing sequence has as many elements as its set of elements. */
  lemma {:induction false} DistinctCard(v: seq<nat>)
    requires forall k, l :: 0 <= k < l < |v| ==> v[k] < v[l]
    ensures |set k | 0 <= k < |v| :: v[k]| == |v|
  {
    if v != [] {
      var init := v[..|v| - 1];
      DistinctCard(init);
      var s := set k | 0 <= k < |v| :: v[k];
      var si := set k | 0 <= k < |init| :: init[k];
      assert s == si + {v[|v| - 1]};
      assert v[|v| - 1] !in si;
    }
  }

  // ---------------------------------------------------------------------
  // Walking every instruction of every function

  datatype Check = LocalsCheck | CallArgumentsCheck

  function InstructionDiagnostics(check: Check, eval: ConstEvaluator, inst: Instruction): seq<Diagnostic> {
    match check
    case LocalsCheck => if inst.DebugValue? then LocalDiagnostics(eval, inst) else []
    case CallArgumentsCheck => if inst.Apply? then CallDiagnostics(eval, inst) else []
  }

  /** What `g` yields for each element of `xs`, concatenated in order. */
  function Flatten<T>(g: T -> seq<Diagnostic>, xs: seq<T>): seq<Diagnostic> {
    if xs == [] then [] else Flatten(g, xs[..|xs| - 1]) + g(xs[|xs| - 1])
  }

  lemma FlattenSnoc<T>(g: T -> seq<Diagnostic>, xs: seq<T>, i: nat)
    requires i < |xs|
    ensures Flatten(g, xs[..i + 1]) == Flatten(g, xs[..i]) + g(xs[i])
  {
    assert xs[..i + 1][..i] == xs[..i];
  }

  /** A diagnostic of the concatenation comes from one of the elements. */
  lemma {:induction false} FlattenMembers<T>(g: T -> seq<Diagnostic>, xs: seq<T>, d: Diagnostic)
    ensures d in Flatten(g, xs) <==> exists k :: 0 <= k < |xs| && d in g(xs[k])
  {
    if xs != [] {
      var init := xs[..|xs| - 1];
      FlattenMembers(g, init, d);
      if d in Flatten(g, xs) && d !in g(xs[|xs| - 1]) {
        var k :| 0 <= k < |init| && d in g(init[k]);
        assert xs[k] == init[k];
      }
      if exists k :: 0 <= k < |xs| && d in g(xs[k]) {
        var k :| 0 <= k < |xs| && d in g(xs[k]);
        if k < |init| {
          assert init[k] == xs[k];
        }
      }
    }
  }

  /** The diagnostics of one basic block, instruction by instruction. */
  function BlockDiagnostics(check: Check, eval: ConstEvaluator, insts: seq<Instruction>): seq<Diagnostic> {
    Flatten((inst: Instruction) => InstructionDiagnostics(check, eval, inst), insts)
  }

  /** The diagnostics of a function body, block by block. */
  function BlocksDiagnostics(check: Check, eval: ConstEvaluator, bs: seq<Block>): seq<Diagnostic> {
    Flatten((insts: Block) => BlockDiagnostics(check, eval, insts), bs)
  }

  /** The diagnostics of a module, function by function. */
  function FunctionsDiagnostics(check: Check, eval: ConstEvaluator, fs: seq<Function>): seq<Diagnostic> {
    Flatten((fn: Function) => BlocksDiagnostics(check, eval, fn.blocks), fs)
  }

  ghost predicate WellFormed(m: Module) {
    forall f, b, i ::
      (0 <= f < |m.functions| && 0 <= b < |m.functions[f].blocks| && 0 <= i < |m.functions[f].blocks[b]|) ==>
        ApplyWellFormed(m.functions[f].blocks[b][i])
  }

  method VerifyLocals(m: Module, eval: ConstEvaluator) returns (diags: seq<Diagnostic>)
    ensures diags == FunctionsDiagnostics(LocalsCheck, eval, m.functions)
  {
    diags := [];
    var fs := m.functions;
    for f := 0 to |fs|
      invariant diags == FunctionsDiagnostics(LocalsCheck, eval, fs[..f])
    {
      FlattenSnoc((fn: Function) => BlocksDiagnostics(LocalsCheck, eval, fn.blocks), fs, f);
      var bs := fs[f].blocks;
      var fnDiags := [];
      for b := 0 to |bs|
        invariant fnDiags == BlocksDiagnostics(LocalsCheck, eval, bs[..b])
      {
        FlattenSnoc((insts: Block) => BlockDiagnostics(LocalsCheck, eval, insts), bs, b);
        var insts := bs[b];
        var blockDiags := [];
        for i := 0 to |insts|
          invariant blockDiags == BlockDiagnostics(LocalsCheck, eval, insts[..i])
        {
          FlattenSnoc((inst: Instruction) => InstructionDiagnostics(LocalsCheck, eval, inst), insts, i);
          var inst := insts[i];
          if inst.DebugValue? {
            var more := VerifyLocal(eval, inst);
            assert more == LocalDiagnostics(eval, inst);
            blockDiags := blockDiags + more;
          }
        }
        assert insts[..|insts|] == insts;
        fnDiags := fnDiags + blockDiags;
      }
      assert bs[..|bs|] == bs;
      diags := diags + fnDiags;
    }
    assert fs[..|fs|] == fs;
  }

  method VerifyCallArguments(m: Module, eval: ConstEvaluator) returns (diags: seq<Diagnostic>)
    requires WellFormed(m)
    ensures diags == FunctionsDiagnostics(CallArgumentsCheck, eval, m.functions)
  {
    diags := [];
    var fs := m.functions;
    for f := 0 to |fs|
      invariant diags == FunctionsDiagnostics(CallArgumentsCheck, eval, fs[..f])
    {
      FlattenSnoc((fn: Function) => BlocksDiagnostics(CallArgumentsCheck, eval, fn.blocks), fs, f);
      var bs := fs[f].blocks;
      var fnDiags := [];
      for b := 0 to |bs|
        invariant fnDiags == BlocksDiagnostics(CallArgumentsCheck, eval, bs[..b])
      {
        FlattenSnoc((insts: Block) => BlockDiagnostics(CallArgumentsCheck, eval, insts), bs, b);
        var insts := bs[b];
        var blockDiags := [];
        for i := 0 to |insts|
          invariant blockDiags == BlockDiagnostics(CallArgumentsCheck, eval, insts[..i])
        {
          FlattenSnoc((inst: Instruction) => InstructionDiagnostics(CallArgumentsCheck, eval, inst), insts, i);
          var inst := insts[i];
          if inst.Apply? {
            assert ApplyWellFormed(m.functions[f].blocks[b][i]);
            var more := VerifyCallArgumentsAt(eval, inst);
            blockDiags := blockDiags + more;
          }
        }
        assert insts[..|insts|] == insts;
        fnDiags := fnDiags + blockDiags;
      }
      assert bs[..|bs|] == bs;
      diags := diags + fnDiags;
    }
    assert fs[..|fs|] == fs;
  }

  /** The pass: globals, then locals, then call arguments. */
  method Run(m: Module, eval: ConstEvaluator) returns (diags: seq<Diagnostic>)
    requires WellFormed(m)
    ensures diags == GlobalsDiagnostics(m, eval, m.globals) +
                     FunctionsDiagnostics(LocalsCheck, eval, m.functions) +
                     FunctionsDiagnostics(CallArgumentsCheck, eval, m.functions)
  {
    var globals := VerifyGlobals(m, eval);
    var locals := VerifyLocals(m, eval);
    var calls := VerifyCallArguments(m, eval);
    diags := globals + locals + calls;
  }

  // ---------------------------------------------------------------------
  // Which instruction a module-wide diagnostic comes from

  ghost predicate DiagnosedInBlock(check: Check, eval: ConstEvaluator, insts: seq<Instruction>, i: int, d: Diagnostic) {
    0 <= i < |insts| && d in InstructionDiagnostics(check, eval, insts[i])
  }

  ghost predicate DiagnosedInBlocks(check: Check, eval: ConstEvaluator, bs: seq<Block>, b: int, i: int, d: Diagnostic) {
    0 <= b < |bs| && DiagnosedInBlock(check, eval, bs[b], i, d)
  }

  ghost predicate DiagnosedInFunctions(check: Check, eval: ConstEvaluator, fs: seq<Function>, f: int, b: int, i: int, d: Diagnostic) {
    0 <= f < |fs| && DiagnosedInBlocks(check, eval, fs[f].blocks, b, i, d)
  }

  /** A diagnostic of the whole module comes from one instruction of one block of one function. */
  lemma FunctionsDiagnosticsMembers(check: Check, eval: ConstEvaluator, fs: seq<Function>, d: Diagnostic)
    ensures d in FunctionsDiagnostics(check, eval, fs) <==> exists f, b, i :: DiagnosedInFunctions(check, eval, fs, f, b, i, d)
  {
    var gf := (fn: Function) => BlocksDiagnostics(check, eval, fn.blocks);
    var gb := (insts: Block) => BlockDiagnostics(check, eval, insts);
    var gi := (inst: Instruction) => InstructionDiagnostics(check, eval, inst);
    FlattenMembers(gf, fs, d);
    if d in FunctionsDiagnostics(check, eval, fs) {
      var f :| 0 <= f < |fs| && d in gf(fs[f]);
      FlattenMembers(gb, fs[f].blocks, d);
      var b :| 0 <= b < |fs[f].blocks| && d in gb(fs[f].blocks[b]);
      FlattenMembers(gi, fs[f].blocks[b], d);
      var i :| 0 <= i < |fs[f].blocks[b]| && d in gi(fs[f].blocks[b][i]);
      assert DiagnosedInFunctions(check, eval, fs, f, b, i, d);
    }
    if exists f, b, i :: DiagnosedInFunctions(check, eval, fs, f, b, i, d) {
      var f, b, i :| DiagnosedInFunctions(check, eval, fs, f, b, i, d);
      FlattenMembers(gi, fs[f].blocks[b], d);
      assert d in gb(fs[f].blocks[b]);
      FlattenMembers(gb, fs[f].blocks, d);
      assert d in gf(fs[f]);
    }
  }

  /** Instruction `i` of block `b` of function `f` is a debug_value of a `@const` local holding an unknown value. */
  ghost predicate UnknownConstLocalAt(eval: ConstEvaluator, fs: seq<Function>, f: int, b: int, i: int, d: Diagnostic) {
    0 <= f < |fs| && 0 <= b < |fs[f].blocks| && 0 <= i < |fs[f].blocks[b]| &&
    var inst := fs[f].blocks[b][i];
    inst.DebugValue? && inst.decl.Some? && inst.decl.value.isConstVal && !eval.isConstant(inst.operand) &&
    d == RequireConstArgForParameter(inst.decl.value.startLoc)
  }

  /** The local check emits `d` iff some debug_value of a `@const` local holds an unknown value at `d`'s location. */
  lemma LocalsDiagnosedIff(eval: ConstEvaluator, fs: seq<Function>, d: Diagnostic)
    ensures d in FunctionsDiagnostics(LocalsCheck, eval, fs) <==> exists f, b, i :: UnknownConstLocalAt(eval, fs, f, b, i, d)
  {
    FunctionsDiagnosticsMembers(LocalsCheck, eval, fs, d);
    forall f, b, i
      ensures DiagnosedInFunctions(LocalsCheck, eval, fs, f, b, i, d) <==> UnknownConstLocalAt(eval, fs, f, b, i, d)
    {
    }
  }

  /** Argument `p` of the apply at instruction `i` of block `b` of function `f` is unknown but its parameter is `@const`. */
  ghost predicate UnknownConstArgAt(eval: ConstEvaluator, fs: seq<Function>, f: int, b: int, i: int, p: int, d: Diagnostic) {
    0 <= f < |fs| && 0 <= b < |fs[f].blocks| && 0 <= i < |fs[f].blocks[b]| &&
    var inst := fs[f].blocks[b][i];
    ViolatingParam(eval, inst, p) && d == RequireConstArgForParameter(ArgLocation(inst, p))
  }

  /** The call check emits `d` iff some `@const` parameter of some call receives an unknown argument at `d`'s location. */
  lemma CallArgumentsDiagnosedIff(eval: ConstEvaluator, fs: seq<Function>, d: Diagnostic)
    ensures d in FunctionsDiagnostics(CallArgumentsCheck, eval, fs) <==>
            exists f, b, i, p :: UnknownConstArgAt(eval, fs, f, b, i, p, d)
  {
    FunctionsDiagnosticsMembers(CallArgumentsCheck, eval, fs, d);
    if d in FunctionsDiagnostics(CallArgumentsCheck, eval, fs) {
      var f, b, i :| DiagnosedInFunctions(CallArgumentsCheck, eval, fs, f, b, i, d);
      var inst := fs[f].blocks[b][i];
      assert inst.Apply?;
      CallDiagnosticsMembers(eval, inst, d);
      var p :| ViolatingParam(eval, inst, p) && d == RequireConstArgForParameter(ArgLocation(inst, p));
      assert UnknownConstArgAt(eval, fs, f, b, i, p, d);
    }
    if exists f, b, i, p :: UnknownConstArgAt(eval, fs, f, b, i, p, d) {
      var f, b, i, p :| UnknownConstArgAt(eval, fs, f, b, i, p, d);
      var inst := fs[f].blocks[b][i];
      CallDiagnosticsMembers(eval, inst, d);
      assert DiagnosedInFunctions(CallArgumentsCheck, eval, fs, f, b, i, d);
    }
  }
}
