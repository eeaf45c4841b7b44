# Groovy method processor and SVN working-copy info, in Dafny

This project models two pieces of IntelliJ IDEA's community code base.

**The Groovy method processor** (`MethodProcessor`). This is the scope
processor the Groovy resolver hands to the scope walker when it looks up a
method call. The walker calls `execute(element, state)` once for each
declaration it finds. It calls `handleEvent(CHANGE_LEVEL)` each time it
moves out to a wider scope. It asks `shouldProcess(kind)` whether to
continue at all. The processor keeps:

- the methods of the looked-up name as candidate records, in the order it
  found them;
- an applicability result that it caches at scope boundaries.

Once the cached applicable list is non-empty, `acceptMore` turns false and
the walker must stop. After the walk, `applicableCandidates` hands the
applicable list to the overload chooser, or to the signature filter when
the candidates cannot be ranked.

- `resolve_api.dfy` (module `ResolveApi`) holds the vocabulary:
  - PSI elements, resolve states and candidate records;
  - the resolution routines the processor calls but does not define
    (`correctStaticScope`, `findApplicable`, `chooseOverloads`,
    `filterBySignature`, `putAll`, `getName(state, element)` and a
    method's type parameters).

  The routines are total functions in a `Collaborators` value. Every
  property below holds whatever they compute.
- `method_protocol.dfy` (module `MethodProtocol`) gives the processor as a
  state machine over values:
  - `execute` and `handleEvent` are step functions on `ProcessorState`, the
    pair of the two mutable fields;
  - the queries are functions of that state;
  - the protocol's laws are proved for one call and for any sequence of
    walker calls (`Run`).
- `method_processor.dfy` (module `MethodProcessing`) is the class the walker
  holds. `Execute` and `HandleEvent` update its two fields in place. Each is
  proved to follow the step function and to keep the invariant `CacheValid`:
  a cached result equals the one that would be computed from the current
  candidates.

**`WCInfo`** is an immutable description of a Subversion working copy:
path, URL, format and repository root. Its `equals` and `hashCode` depend
only on the path, and a null path is handled. `wc_info.dfy` (module
`WorkingCopyInfo`) models it as a datatype and proves the equality laws.

`wrappers.dfy` holds the `Option` type used for nullable references.

## Model

| member | source | states |
|---|---|---|
| `MethodProtocol.ExecuteStep` | plugins/groovy/groovy-psi/src/org/jetbrains/plugins/groovy/lang/resolve/processors/MethodProcessor.kt:53-76 | When `acceptMore` is false: throws `IllegalArgument` with the `require` message and changes nothing. A non-method element: returns true unchanged if its state says the kind cannot be known, otherwise throws `IllegalState`. A method of another name: returns true, no change. An accepted method: appends exactly one candidate at the end and clears the cache. Never returns false. Never turns `acceptMore` off. |
| `MethodProtocol.AcceptMore` | plugins/groovy/groovy-psi/src/org/jetbrains/plugins/groovy/lang/resolve/processors/MethodProcessor.kt:51 | `acceptMore` holds when nothing is cached, and is false exactly when a cached result has a non-empty applicable list. |
| `MethodProtocol.ComputeApplicableCandidates` | plugins/groovy/groovy-psi/src/org/jetbrains/plugins/groovy/lang/resolve/processors/MethodProcessor.kt:84-88 | `computeApplicableCandidates` is `findApplicable` applied to the result of `correctStaticScope` on the candidates. |
| `MethodProtocol.NewCandidate` | plugins/groovy/groovy-psi/src/org/jetbrains/plugins/groovy/lang/resolve/processors/MethodProcessor.kt:67-73 | With non-empty type arguments: a base result whose substitutor is `putAll(state substitutor, type parameters, type arguments)`, with the rest of the state kept. Otherwise: a plain result with the state unchanged. Both carry the element, `place` and `arguments`. |
| `ResolveApi.ResolveState.WithSubstitutor` | plugins/groovy/groovy-psi/src/org/jetbrains/plugins/groovy/lang/resolve/processors/MethodProcessor.kt:68-69 | `state.put(PsiSubstitutor.KEY, sub)` replaces the substitutor and keeps every other entry. |
| `MethodProtocol.HandleEventStep` | plugins/groovy/groovy-psi/src/org/jetbrains/plugins/groovy/lang/resolve/processors/MethodProcessor.kt:78-88 | The state changes iff the event is `CHANGE_LEVEL` and nothing is cached. The cache is then `findApplicable(correctStaticScope(candidates))`. Candidates never change. A valid cache stays valid. A stopped processor is left as it is. |
| `MethodProtocol.CurrentApplicabilities` | plugins/groovy/groovy-psi/src/org/jetbrains/plugins/groovy/lang/resolve/processors/MethodProcessor.kt:84-92 | The cached result if there is one, otherwise a fresh computation. Under `CacheValid` it always equals the fresh computation. |
| `MethodProtocol.ApplicableCandidates` | plugins/groovy/groovy-psi/src/org/jetbrains/plugins/groovy/lang/resolve/processors/MethodProcessor.kt:90-100 | Null iff the applicable list is empty. Otherwise `chooseOverloads(list, DefaultMethodComparatorContext(place, arguments))` when overloads can be chosen, and `filterBySignature(list)` when they cannot. It is a function of the state, so it stores nothing. |
| `MethodProtocol.AllCandidates` | plugins/groovy/groovy-psi/src/org/jetbrains/plugins/groovy/lang/resolve/processors/MethodProcessor.kt:102 | `allCandidates` is the candidate list as it is, in acceptance order. |
| `MethodProcessing.MethodProcessor.constructor` | plugins/groovy/groovy-psi/src/org/jetbrains/plugins/groovy/lang/resolve/processors/MethodProcessor.kt:23-50 | Keeps the four constructor arguments. Registers the name, resolve-kind, element-class and dynamic-members hints. Starts with no candidates and no cache, which satisfies the invariant. |
| `MethodProcessing.MethodProcessor.Execute` | plugins/groovy/groovy-psi/src/org/jetbrains/plugins/groovy/lang/resolve/processors/MethodProcessor.kt:53-76 | The in-place `execute` moves the fields exactly as `ExecuteStep` does and returns its outcome. The old candidates stay as a prefix. A change is exactly one appended candidate plus a cleared cache. When `acceptMore` was false, it throws and nothing changes. Keeps `CacheValid`. |
| `MethodProcessing.MethodProcessor.HandleEvent` | plugins/groovy/groovy-psi/src/org/jetbrains/plugins/groovy/lang/resolve/processors/MethodProcessor.kt:78-82 | The in-place `handleEvent` moves the fields exactly as `HandleEventStep` does. It fills an empty cache on `CHANGE_LEVEL` and otherwise changes nothing. Keeps `CacheValid`. |
| `MethodProtocol.GetName` | plugins/groovy/groovy-psi/src/org/jetbrains/plugins/groovy/lang/resolve/processors/MethodProcessor.kt:41 | `getName(state)` is the constructor's `name`. |
| `MethodProtocol.ShouldProcessResolveKind` | plugins/groovy/groovy-psi/src/org/jetbrains/plugins/groovy/lang/resolve/processors/MethodProcessor.kt:43 | `shouldProcess(GroovyResolveKind)` holds iff the kind is METHOD and `acceptMore` holds, including when the cache holds an empty applicable list. |
| `MethodProtocol.ShouldProcessDeclarationKind` | plugins/groovy/groovy-psi/src/org/jetbrains/plugins/groovy/lang/resolve/processors/MethodProcessor.kt:45 | `shouldProcess(DeclarationKind)` holds iff the kind is METHOD and `acceptMore` holds, including when the cache holds an empty applicable list. |
| `MethodProtocol.ObeyingHintsKeepsRequire` | plugins/groovy/groovy-psi/src/org/jetbrains/plugins/groovy/lang/resolve/processors/MethodProcessor.kt:43-56 | A walker that passes an element only while either `shouldProcess` hint asks for methods never trips `require(acceptMore)`. |
| `MethodProtocol.EmptyCheckpointKeepsAsking` | plugins/groovy/groovy-psi/src/org/jetbrains/plugins/groovy/lang/resolve/processors/MethodProcessor.kt:43-51 | A `CHANGE_LEVEL` checkpoint that finds nothing applicable caches the empty list, and both `shouldProcess` overloads still ask for methods, so the walk goes on outward. |
| `MethodProtocol.HintsStayOffAfterStop` | plugins/groovy/groovy-psi/src/org/jetbrains/plugins/groovy/lang/resolve/processors/MethodProcessor.kt:43-56 | Once `acceptMore` is false, neither `shouldProcess` overload asks for any kind again, whatever sequence of walker calls follows. |
| `MethodProtocol.ShouldProcessMethods` | plugins/groovy/groovy-psi/src/org/jetbrains/plugins/groovy/lang/resolve/processors/MethodProcessor.kt:47 | `shouldProcessMethods()` holds iff there are no candidates. |
| `MethodProtocol.InitialIsValid` | plugins/groovy/groovy-psi/src/org/jetbrains/plugins/groovy/lang/resolve/processors/MethodProcessor.kt:47-51 | A new processor accepts more, wants dynamic methods (no candidates yet) and satisfies the cache invariant. |
| `MethodProtocol.HandleEventIdempotent` | plugins/groovy/groovy-psi/src/org/jetbrains/plugins/groovy/lang/resolve/processors/MethodProcessor.kt:78-82 | A repeated event has no further effect. After a `CHANGE_LEVEL`, any further event changes nothing. |
| `MethodProtocol.ApplyKeepsCacheValid` | plugins/groovy/groovy-psi/src/org/jetbrains/plugins/groovy/lang/resolve/processors/MethodProcessor.kt:74-88 | Any single walker call keeps the cache either absent or up to date. |
| `MethodProtocol.RunKeepsCacheValid` | plugins/groovy/groovy-psi/src/org/jetbrains/plugins/groovy/lang/resolve/processors/MethodProcessor.kt:53-88 | Any sequence of walker calls keeps the cache either absent or up to date. |
| `MethodProtocol.StopIsPermanent` | plugins/groovy/groovy-psi/src/org/jetbrains/plugins/groovy/lang/resolve/processors/MethodProcessor.kt:51-82 | Once `acceptMore` is false, no sequence of walker calls changes the state, so `acceptMore` never becomes true again. |
| `MethodProtocol.RunOnlyAppends` | plugins/groovy/groovy-psi/src/org/jetbrains/plugins/groovy/lang/resolve/processors/MethodProcessor.kt:65-75 | Over any sequence of calls the old candidates stay a prefix, in order, and each call adds at most one. |
| `MethodProtocol.ShouldProcessMethodsStaysOff` | plugins/groovy/groovy-psi/src/org/jetbrains/plugins/groovy/lang/resolve/processors/MethodProcessor.kt:47 | Once a candidate exists, `shouldProcessMethods()` stays false whatever the walker does. |
| `MethodProtocol.CacheIsTransparent` | plugins/groovy/groovy-psi/src/org/jetbrains/plugins/groovy/lang/resolve/processors/MethodProcessor.kt:90-92 | With a valid cache, `applicableCandidates` is the same as with no cache. |
| `MethodProtocol.StopMeansApplicableFound` | plugins/groovy/groovy-psi/src/org/jetbrains/plugins/groovy/lang/resolve/processors/MethodProcessor.kt:90-93 | When the processor has told the walker to stop, the computed applicable list is non-empty, so `applicableCandidates` is not null. |
| `MethodProtocol.ResultFixedAfterStop` | plugins/groovy/groovy-psi/src/org/jetbrains/plugins/groovy/lang/resolve/processors/MethodProcessor.kt:90-102 | After a stop, no walker calls change `applicableCandidates` or `allCandidates`. |
| `WorkingCopyInfo.GettersReturnConstructorArguments` | plugins/svn4idea/src/org/jetbrains/idea/svn/dialogs/WCInfo.java:7-33 | Each getter returns the value passed to the constructor. |
| `WorkingCopyInfo.Equals` | plugins/svn4idea/src/org/jetbrains/idea/svn/dialogs/WCInfo.java:35-45 | An object equals itself. Null and objects of other classes are never equal. Two `WCInfo` objects are equal iff their paths are equal (both null, or the same string). |
| `WorkingCopyInfo.EqualsReflexive` | plugins/svn4idea/src/org/jetbrains/idea/svn/dialogs/WCInfo.java:37 | Every `WCInfo` equals itself. |
| `WorkingCopyInfo.EqualsOnlyWCInfo` | plugins/svn4idea/src/org/jetbrains/idea/svn/dialogs/WCInfo.java:38 | Null and objects of other classes are never equal to a `WCInfo`. |
| `WorkingCopyInfo.EqualsIffSamePath` | plugins/svn4idea/src/org/jetbrains/idea/svn/dialogs/WCInfo.java:36-45 | Two `WCInfo`s are equal iff both paths are null, or both are non-null and hold the same string. |
| `WorkingCopyInfo.EqualsIgnoresOtherFields` | plugins/svn4idea/src/org/jetbrains/idea/svn/dialogs/WCInfo.java:42 | Changing URL, format or repository root never changes the result of `equals`. |
| `WorkingCopyInfo.EqualsSymmetric` | plugins/svn4idea/src/org/jetbrains/idea/svn/dialogs/WCInfo.java:42 | `a.equals(b) == b.equals(a)`. |
| `WorkingCopyInfo.EqualsTransitive` | plugins/svn4idea/src/org/jetbrains/idea/svn/dialogs/WCInfo.java:42 | `equals` is transitive. |
| `WorkingCopyInfo.HashCode` | plugins/svn4idea/src/org/jetbrains/idea/svn/dialogs/WCInfo.java:47-50 | `hashCode` is 0 for a null path and the path's string hash otherwise. |
| `WorkingCopyInfo.EqualObjectsEqualHashCodes` | plugins/svn4idea/src/org/jetbrains/idea/svn/dialogs/WCInfo.java:42-49 | Equal objects have equal hash codes, whatever `String.hashCode` computes. |

## Left out

- Collaborator bodies. `correctStaticScope`, `findApplicable`, `chooseOverloads`, `filterBySignature`, `putAll`, `getName(state, element)` and `PsiMethod.typeParameters` live in packages that are not part of this model. They are arbitrary total functions, so no applicability, specificity or signature-deduplication rule is modelled.
- PSI and SVN library types (`PsiMethod`, other PSI elements, `PsiType`, `PsiSubstitutor`, `Arguments`, `SVNURL`, `WorkingCopyFormat`) are opaque types.
- `ResolveState` is reduced to the two keys the processor reads (the substitutor and `sorryCannotKnowElementKind`) plus an opaque rest.
- The hint registration in `init` is a constant set of hint keys. The framework side effect of registering is not modelled.
- `GroovyResolveKind` is reduced to "method" or "another kind". Scope-processor events other than `CHANGE_LEVEL` are one numbered family.
- The `associated` argument of `handleEvent` is not modelled: the processor ignores it.
- The message of the `IllegalState` error (`elementInfo(element)`) is not modelled. Only the kind of exception is kept.
- Exceptions are outcome values (`Thrown`), not control flow. A thrown `execute` is shown to leave the processor unchanged.
- `typeArguments` is an array held by reference and read on every `execute`. Here it is a value fixed at construction, so a caller that changes the array's contents later is not modelled.
- `allCandidates` returns the live mutable list in Kotlin. Here it returns a value, so aliasing through that list is not captured.
- `String.hashCode` is a parameter function, not Java's 31-polynomial over UTF-16 code units. Dafny characters are not UTF-16 code units.
- Java object identity in `WCInfo.equals` is a reference number. The laws that need it assume one reference denotes one object (`SameHeap`).
- java/java-tests/testSrc/com/intellij/refactoring/FindMethodDuplicatesBaseTest.java is not part of this model. It is an editor-driven test fixture with no logic of the two cores.
- Three behaviours of the code that are easy to expect otherwise, modelled as written:
  - `execute` checks the element kind before the name, so a non-method of the looked-up name whose kind is known is still an error;
  - an element of unknown kind is skipped and never becomes a candidate (it is not kept as an untyped candidate);
  - when overloads cannot be ranked, the result is whatever `filterBySignature` returns; no deduplication rule of its own is modelled.
