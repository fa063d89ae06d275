# Swift compiler: migration warnings, compile-time value checks, C++ interop runtime

This project models three pieces of the Swift compiler and its generated C++ support in Dafny, and proves properties of each.

**Async-caller-execution migration warning** (`AsyncCallerExecutionMigration`). The model covers `AsyncCallerExecutionMigrationTarget::diagnose` and its three entry points.
- The feature is AsyncCallerExecution, and the warning fires in adoption mode.
- It warns about an explicit, nonisolated, async declaration, closure or function type whose execution behaviour will change.
- It offers a fix-it that adds an implicit `@execution(concurrent)` attribute.
- The model is pure. Each guard is an early return.
- The compiler's `ASSERT`s and `cast<>`s become an `AssertionFailed` outcome. The single warning becomes a `Diagnosed` outcome.

**Unknown compile-time values** (`CompileTimeValues`). The model covers the mandatory SIL pass `DiagnoseUnknownCompileTimeValues`, which runs three checks:
- every `@const` global is initialised with compile-time known values;
- every `@const` local, seen through its `debug_value`, holds a constant;
- every argument passed to a `@const` parameter is a constant.

The pass walks globals, functions, blocks and instructions in nested loops and appends to a diagnostic sink. The model does the same, with `for` loops over sequences. Each method is proved equal to a specification function. Lemmas characterise exactly which diagnostics those functions contain.

**C++ interoperability support header** (`CxxInterop`). The model covers:
- `opaqueAlloc`, which clamps the alignment before calling posix_memalign;
- `OpaqueStorage`, an owning container for an opaque Swift value;
- `RefCountedClass`, a strong handle to a Swift class instance;
- `Error`, a handle to a Swift error box.

These are classes whose fields the operations update in place. The runtime they call is modelled by the state it changes:
- `Allocator` holds the live aligned blocks and the containers.
- `SwiftObjects` and `SwiftErrors` hold the retain counts, plus ghost bookkeeping of which handle holds which object.

Invariants state who owns what:
- No block has two containers.
- A handle always points at a live object.
- No object has more handles than strong references.

The `Counted` invariant and the lemmas that each operation keeps it are pure. They hold for handles of any kind.

`Wrappers` defines the shared `Option` datatype.

Swift's synthesis of bounds-safe wrappers for pointer/count parameters is not part of this model. The model follows the three source files listed below.

## Model

| member | source | states |
|---|---|---|
| AsyncCallerExecutionMigration.Diagnose | lib/Sema/AsyncCallerExecutionMigration.cpp:59-182 | In adoption mode, a warning is emitted exactly when the node is explicit, is not an autoclosure, can carry the attribute, is nonisolated, has no explicit execution attribute, is async, and has an accepted shape. The assertion fails exactly outside adoption mode, for an explicit autoclosure, or for a declaration that passes every guard and is storage with a setter or neither function nor storage. The warning's kind follows the node's tag, and its fix-it inserts an implicit concurrent execution attribute. A function decl is diagnosed at its own location. Storage is diagnosed at its parsed getter, with the fix-it on the storage decl. A closure is diagnosed and fixed at the closure. A type repr is diagnosed and fixed at its start location. |
| AsyncCallerExecutionMigration.WarnForTypeRepr | lib/Sema/AsyncCallerExecutionMigration.cpp:184-187 | For a function type: a warning exactly when in adoption mode, the type's isolation is nonisolated, and it is async. It is the type-repr warning, at and fixed at the start location. |
| AsyncCallerExecutionMigration.WarnForDecl | lib/Sema/AsyncCallerExecutionMigration.cpp:189-192 | For a declaration: a warning exactly when every condition holds: explicit, the attribute allowed, nonisolated or unspecified isolation, no execution attribute, async, and either a function or storage with a parsed getter and no setter. An implicit decl is never diagnosed. |
| AsyncCallerExecutionMigration.WarnForClosure | lib/Sema/AsyncCallerExecutionMigration.cpp:194-197 | For a closure: a warning exactly when it is explicit, not an autoclosure, nonisolated or unspecified, has no execution attribute and has an async body. It is the closure warning with the add-attribute fix-it on the closure. |
| AsyncCallerExecutionMigration.ImplicitNodesAreNotDiagnosed | lib/Sema/AsyncCallerExecutionMigration.cpp:69-92 | Implicit declarations and closures produce no diagnostic. |
| AsyncCallerExecutionMigration.AttributeThatCannotAppearIsNotDiagnosed | lib/Sema/AsyncCallerExecutionMigration.cpp:75-80 | A declaration that cannot carry the execution attribute produces no diagnostic. |
| AsyncCallerExecutionMigration.StorageWithoutParsedGetterIsNotDiagnosed | lib/Sema/AsyncCallerExecutionMigration.cpp:82-87 | Storage without a getter written in source produces no diagnostic. |
| AsyncCallerExecutionMigration.IsolatedTargetsAreNotDiagnosed | lib/Sema/AsyncCallerExecutionMigration.cpp:100-113 | A target that is not nonisolated is never diagnosed. |
| AsyncCallerExecutionMigration.ExplicitExecutionAttributeSuppresses | lib/Sema/AsyncCallerExecutionMigration.cpp:115-127 | An explicit execution attribute suppresses the warning. Only declarations and closures can carry one. |
| AsyncCallerExecutionMigration.SyncTargetsAreNotDiagnosed | lib/Sema/AsyncCallerExecutionMigration.cpp:129-143 | A target that is not async is never diagnosed. |
| AsyncCallerExecutionMigration.OutcomeIsDeterminedByTag | lib/Sema/AsyncCallerExecutionMigration.cpp:148-181 | The warning's kind is the decl, closure or type-repr kind exactly for a decl, closure or type-repr node. |
| AsyncCallerExecutionMigration.StorageWithSetterFailsAssertion | lib/Sema/AsyncCallerExecutionMigration.cpp:151-157 | An async storage decl that passes every guard but has a setter makes the assertion fail. |
| CompileTimeValues.CountNotOnlyConstants | lib/SILOptimizer/Mandatory/DiagnoseUnknownCompileTimeValues.cpp:103-111 | The count of struct operands that are not made only of constants is at most the operand count. It is zero exactly when every operand is constant-only, and equals the operand count exactly when none is. It is the size of the set of operand indices whose value is not constant-only. |
| CompileTimeValues.VerifyStaticallyInitializedGlobal | lib/SILOptimizer/Mandatory/DiagnoseUnknownCompileTimeValues.cpp:94-113 | A non-struct initializer yields nothing. A struct initializer yields one diagnostic per operand that is not constant-only. Every diagnostic is the const-initializer diagnostic at the global's declaration. |
| CompileTimeValues.VerifyInitializeOnceGlobal | lib/SILOptimizer/Mandatory/DiagnoseUnknownCompileTimeValues.cpp:115-159 | The result is no diagnostic exactly when some initializer of the global holds a global_addr of it whose sole store writes a constant. Otherwise it is exactly one const-initializer diagnostic at the declaration. The search returns early at the first such store. |
| CompileTimeValues.VerifyGlobals | lib/SILOptimizer/Mandatory/DiagnoseUnknownCompileTimeValues.cpp:161-175 | The diagnostics are those of the `@const` globals in order. A global with a static initializer goes to the static check, any other to the init-once check. |
| CompileTimeValues.GlobalDiagnosticsNameConstGlobals | lib/SILOptimizer/Mandatory/DiagnoseUnknownCompileTimeValues.cpp:165-173 | Every global diagnostic points at the declaration of some `@const` global. |
| CompileTimeValues.UnknownInitOnceGlobalIsDiagnosed | lib/SILOptimizer/Mandatory/DiagnoseUnknownCompileTimeValues.cpp:115-171 | A `@const` global without a static initializer and without a constant sole store is diagnosed at its declaration. |
| CompileTimeValues.VerifyLocal | lib/SILOptimizer/Mandatory/DiagnoseUnknownCompileTimeValues.cpp:177-192 | A debug_value gives at most one diagnostic. It gives one exactly when its decl exists, is `@const` and the value is not constant, and then it is at the decl's start location. |
| CompileTimeValues.VerifyLocals | lib/SILOptimizer/Mandatory/DiagnoseUnknownCompileTimeValues.cpp:194-200 | The diagnostics are those of every debug_value of every block of every function, in order. |
| CompileTimeValues.LocalsDiagnosedIff | lib/SILOptimizer/Mandatory/DiagnoseUnknownCompileTimeValues.cpp:177-200 | The local check emits a diagnostic exactly when some debug_value of a `@const` local holds an unknown value and has that start location. |
| CompileTimeValues.ViolationsCharacterized | lib/SILOptimizer/Mandatory/DiagnoseUnknownCompileTimeValues.cpp:243-265 | The diagnosed parameter indices below `n` are strictly increasing, so each parameter appears at most once. Index `p` is among them exactly when parameter `p` is `@const` and argument `p` is not constant. |
| CompileTimeValues.VerifyCallArgumentsAt | lib/SILOptimizer/Mandatory/DiagnoseUnknownCompileTimeValues.cpp:211-268 | The diagnostics equal one per violating parameter in parameter order. Each points at argument `p` of the call's ApplyExpr, or at the apply when there is no ApplyExpr. This is the intended location, not the one the code computes (see Findings). A call whose callee is missing or not a FuncDecl gives nothing, and so does a callee without a `@const` parameter. |
| CompileTimeValues.AsWrittenArgLocation | lib/SILOptimizer/Mandatory/DiagnoseUnknownCompileTimeValues.cpp:259-261 | The location as the code computes it. Without an ApplyExpr it is the apply's location. With one, subscripting the argument-list pointer gives the list itself exactly for index 0, located at the list, and memory past the list for every other index. |
| CompileTimeValues.AsWrittenArgLocationMissesLaterArguments | lib/SILOptimizer/Mandatory/DiagnoseUnknownCompileTimeValues.cpp:259-261 | For every call from source and every argument after the first, the computed location lies past the argument list and is not the argument's own location, which the intended definition returns. |
| CompileTimeValues.AsWrittenArgLocationCounterexample | lib/SILOptimizer/Mandatory/DiagnoseUnknownCompileTimeValues.cpp:259-261 | For `f(x, y)` with `@const` second parameter, the computed location for `y` lies past the argument list, while the intended one is `y`'s location. |
| CompileTimeValues.NoConstParamNoViolations | lib/SILOptimizer/Mandatory/DiagnoseUnknownCompileTimeValues.cpp:237-242 | If no parameter is `@const`, no index is diagnosed. |
| CompileTimeValues.CallDiagnosticsMembers | lib/SILOptimizer/Mandatory/DiagnoseUnknownCompileTimeValues.cpp:243-265 | A diagnostic is emitted for a call exactly when some `@const` parameter receives a non-constant argument at that location. |
| CompileTimeValues.CallDiagnosticsCount | lib/SILOptimizer/Mandatory/DiagnoseUnknownCompileTimeValues.cpp:243-265 | A call gives exactly as many diagnostics as it has violating parameters. |
| CompileTimeValues.VerifyCallArguments | lib/SILOptimizer/Mandatory/DiagnoseUnknownCompileTimeValues.cpp:202-209 | The diagnostics are those of every apply of every block of every function, in order. |
| CompileTimeValues.CallArgumentsDiagnosedIff | lib/SILOptimizer/Mandatory/DiagnoseUnknownCompileTimeValues.cpp:202-268 | The call check emits a diagnostic exactly when some apply passes a non-constant argument to a `@const` parameter at that location. |
| CompileTimeValues.FunctionsDiagnosticsMembers | lib/SILOptimizer/Mandatory/DiagnoseUnknownCompileTimeValues.cpp:194-209 | A diagnostic of a module-wide walk comes from exactly one kind of place: one instruction of one block of one function. |
| CompileTimeValues.Run | lib/SILOptimizer/Mandatory/DiagnoseUnknownCompileTimeValues.cpp:56-67 | The pass emits the global diagnostics, then the local ones, then the call-argument ones. |
| CxxInterop.EffectiveAlignment | lib/PrintAsClang/_SwiftCxxInteroperability.h:46-47 | The requested alignment is at least the pointer size and at least the caller's. It is one of the two. |
| CxxInterop.ClampedAlignmentIsAccepted | lib/PrintAsClang/_SwiftCxxInteroperability.h:46-49 | Every power-of-two alignment, 1, 2 and 4 included, becomes one that posix_memalign accepts. |
| CxxInterop.SmallAlignmentIsRejected | lib/PrintAsClang/_SwiftCxxInteroperability.h:46-47 | An unclamped alignment below the pointer size would be rejected by posix_memalign. |
| CxxInterop.Allocator.OpaqueAlloc | lib/PrintAsClang/_SwiftCxxInteroperability.h:42-53 | Returns what posix_memalign grants, or null on failure. A granted block is recorded with its size and the clamped alignment. |
| CxxInterop.Allocator.OpaqueFree | lib/PrintAsClang/_SwiftCxxInteroperability.h:55-61 | The freed block leaves the live set. |
| CxxInterop.OpaqueStorage.Empty | lib/PrintAsClang/_SwiftCxxInteroperability.h:66 | A default container holds null. Ownership is unchanged. |
| CxxInterop.OpaqueStorage.Sized | lib/PrintAsClang/_SwiftCxxInteroperability.h:67-68 | The container owns the fresh block, or nothing if allocation failed. No block gains a second owner. |
| CxxInterop.OpaqueStorage.Move | lib/PrintAsClang/_SwiftCxxInteroperability.h:69-72 | The new container takes the other's block and the other becomes null. The owned set is unchanged and ownership stays unique. |
| CxxInterop.OpaqueStorage.Destroy | lib/PrintAsClang/_SwiftCxxInteroperability.h:75-79 | The block is freed exactly when the storage is non-null. The container leaves the registry. |
| CxxInterop.OpaqueStorage.MoveAssign | lib/PrintAsClang/_SwiftCxxInteroperability.h:81-85 | The two pointers are swapped: the owned set is unchanged and no block has two containers. |
| CxxInterop.Retained | lib/PrintAsClang/_SwiftCxxInteroperability.h:38 | One retain adds one to that object's count. Every other count is unchanged. |
| CxxInterop.Released | lib/PrintAsClang/_SwiftCxxInteroperability.h:40 | One release takes one from that object's count. The object is gone exactly when its count was 1. Every other count is unchanged. |
| CxxInterop.RetainThenReleaseRestores | lib/PrintAsClang/_SwiftCxxInteroperability.h:107-112 | Retaining and then releasing the same object restores every count. |
| CxxInterop.ReleaseFirstDestroysLastReference | lib/PrintAsClang/_SwiftCxxInteroperability.h:107-112 | Releasing first would destroy an object held once before it could be retained. |
| CxxInterop.AdoptKeepsCounted | lib/PrintAsClang/_SwiftCxxInteroperability.h:120 | A new handle adopting a spare strong reference keeps the accounting invariant. The same lemma serves the adopting `Error` constructor at line 241. |
| CxxInterop.CopyKeepsCounted | lib/PrintAsClang/_SwiftCxxInteroperability.h:103-106 | A new handle that retains a live object keeps the accounting invariant. The same lemma serves the `Error` copy constructor at lines 250-254. |
| CxxInterop.DestroyKeepsCounted | lib/PrintAsClang/_SwiftCxxInteroperability.h:102 | Removing a handle and releasing its object keeps the accounting invariant. The same lemma serves the `Error` destructor at lines 242-245. No remaining handle points at a destroyed object. |
| CxxInterop.ReleaseSpareKeepsCounted | lib/PrintAsClang/_SwiftCxxInteroperability.h:109 | Releasing an object that has more strong references than handles keeps the accounting invariant, and every handle's object stays live. |
| CxxInterop.ReassignKeepsCounted | lib/PrintAsClang/_SwiftCxxInteroperability.h:107-112 | Retaining the new object before releasing the old keeps the accounting invariant for every new object, the handle's own included. |
| CxxInterop.MoveKeepsCounted | lib/PrintAsClang/_SwiftCxxInteroperability.h:247-249 | Moving a reference from one handle to a new one keeps the accounting invariant. |
| CxxInterop.SwiftObjects.Retain | lib/PrintAsClang/_SwiftCxxInteroperability.h:38 | The counts become `Retained` of the old counts. |
| CxxInterop.SwiftObjects.Release | lib/PrintAsClang/_SwiftCxxInteroperability.h:40 | The counts become `Released` of the old counts. |
| CxxInterop.RefCountedClass.Adopt | lib/PrintAsClang/_SwiftCxxInteroperability.h:120 | The handle takes over a spare reference without a retain, and the invariant holds. |
| CxxInterop.RefCountedClass.Copy | lib/PrintAsClang/_SwiftCxxInteroperability.h:103-106 | The handle shares the other's object and retains it once. |
| CxxInterop.RefCountedClass.Destroy | lib/PrintAsClang/_SwiftCxxInteroperability.h:102 | The object is released once and the handle leaves the registry. |
| CxxInterop.RefCountedClass.CopyAssign | lib/PrintAsClang/_SwiftCxxInteroperability.h:107-112 | The handle points at the other's object. The counts are the old ones with that object retained and then its own released. With the same object on both sides, the counts are unchanged. The invariant holds. |
| CxxInterop.SwiftErrors.ErrorRetain | lib/PrintAsClang/_SwiftCxxInteroperability.h:194 | The error counts become `Retained` of the old counts. |
| CxxInterop.SwiftErrors.ErrorRelease | lib/PrintAsClang/_SwiftCxxInteroperability.h:196 | The error counts become `Released` of the old counts. |
| CxxInterop.Error.Empty | lib/PrintAsClang/_SwiftCxxInteroperability.h:240 | A default Error holds null, from the member initializer at line 280. |
| CxxInterop.Error.Adopt | lib/PrintAsClang/_SwiftCxxInteroperability.h:241 | The Error takes over a spare reference without a retain. |
| CxxInterop.Error.Move | lib/PrintAsClang/_SwiftCxxInteroperability.h:247-249 | The new value takes the other's reference and the other becomes null. No count changes. |
| CxxInterop.Error.Copy | lib/PrintAsClang/_SwiftCxxInteroperability.h:250-254 | The value shares the other's error. It retains exactly when the pointer is non-null. |
| CxxInterop.Error.Destroy | lib/PrintAsClang/_SwiftCxxInteroperability.h:242-245 | The error is released exactly when the pointer is non-null. |

## Left out

- Diagnostic text, feature names and fix-it rendering are left out. Diagnostics are a kind plus an abstract location.
- `LLVM_DEBUG` output and `printSymbolicValueValue` are debug I/O and are left out.
- The constant evaluator (`ConstExprState`, `SymbolicValue`) is an oracle. It supplies `isConstant` and `containsOnlyConstants` for each SSA value.
- AST queries are fields of the node values:
  - `canAttributeAppearOnDecl`, `isImplicit`, `isAsync`, `isBodyAsync`;
  - parsed accessors and attribute lists;
  - the isolation kinds, which come from a header that is not part of this model.
  - The `ASSERT(node)` on a non-null node is implied by the datatype.
- The model of `verifyInitializeOnceGlobal` needs two inputs:
  - A global_addr's sole use is given as its stored value. A sole use that is not a store is not modelled: the source asserts it is a store.
  - `findInitializer` is an input: the function's once-initializer body.
- `VerifyCallArgumentsAt`, `VerifyCallArguments` and `Run` require that every apply with a `@const` parameter has at least as many arguments as its callee has parameters, and enough argument locations.
  - The source indexes the argument list by parameter position without checking this, and flags the pairing as unfinished (`// (AC) TODO`). The specification functions are total.
  - An `ApplyExpr` is given as the location of its argument list and the list of its arguments' locations.
- `VerifyCallArgumentsAt`: points each diagnostic at argument `p`'s own location, as evidently intended. The code's `getArgs()[i]` subscripts the `ArgumentList` pointer instead of selecting argument `i`. `AsWrittenArgLocation` models that reading (see Findings).
- Global identities (`GlobalId`) are not required to be distinct. The source compares `SILGlobalVariable` addresses, which are distinct per global. With a repeated id, the model's init-once search would accept a store to the other global of that id.
- The runtime entry points are foreign calls and are modelled only by the state they change: `posix_memalign`, `free`, `swift_retain`, `swift_release`, `swift_errorRetain`, `swift_errorRelease`.
  - posix_memalign's outcome is an input. It either grants a fresh block for an alignment POSIX accepts, or fails and leaves the result null; its return code is ignored, as in the source.
  - The pointer size is fixed at 8 (64-bit targets).
- The Windows branch (`_aligned_malloc`, `_aligned_free`) is left out.
- `RefCountedClass`'s move constructor always aborts. It is left out instead of being given an uncallable member.
- `OpaqueStorage::getOpaquePointer`, `_impl_RefCountedClass`, `Error::getPointerToOpaquePointer` and the `getOpaquePointer` templates are left out. They are plain field reads or `reinterpret_cast`s.
- The compile-time type traits (`isUsableInGenericContext`, `TypeMetadataTrait`, `implClassFor`, `isValueType`, `isOpaqueLayout`, `isSwiftBridgedCxxRecord`) are left out.
- `testErrorCall` is left out. It lays out a packed symbol and computes relative addresses.
- `Error::as` is left out. It is a dynamic cast through the runtime that aborts on failure.
- `Error` cannot be assigned: its declared move constructor deletes the implicit copy assignment, and its declared copy constructor and destructor suppress the implicit move assignment.
- Object lifetime is not modelled. A C++ destructor is a `Destroy` method, and each runtime's ghost bookkeeping records which handles exist. Compiler-inserted copies and destructions are not modelled.

## Findings

| source | as written | input that shows it | evidently intended | confidence | as-written member | corrected member |
|---|---|---|---|---|---|---|
| lib/SILOptimizer/Mandatory/DiagnoseUnknownCompileTimeValues.cpp:260-261 | `ApplyExprNode->getArgs()[i].getLoc()`. `getArgs()` returns a pointer to the `ArgumentList`, so `[i]` steps the pointer: index 0 is the whole list, and every other index reads past it. | A call `f(x, y)` to `func f(a: Int, @const b: Int)` where `y` is not a compile-time constant: the diagnostic for `b` uses `getArgs()[1]`, past the argument list. | The location of argument `i`, i.e. `getArgs()->getExpr(i)->getLoc()`. | medium, not executed | CompileTimeValues.AsWrittenArgLocationCounterexample | CompileTimeValues.VerifyCallArgumentsAt |
