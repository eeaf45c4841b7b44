/**
 * The Groovy method processor as a state machine over values.
 *
 * The processor's state is its candidate list (`myCandidates`) and its
 * cached applicability result (`myApplicable`). The scope walker drives it
 * with two kinds of call: `execute(element, state)`, which may append one
 * candidate, and `handleEvent(event)`, which fills the cache at a change
 * of scope level. This module gives each call as a function from the old
 * state to the new one, the read-only queries as functions of the state,
 * and proves the protocol's laws, including over any sequence of walker
 * calls. The class in method_processor.dfy is proved to follow it.
 */
module MethodProtocol {
  import opened Wrappers
  import opened ResolveApi

  /** The constructor arguments of a processor, fixed for its lifetime. */
  datatype Lookup = Lookup(
    name: string,
    place: Place,
    arguments: Option<Arguments>,
    typeArguments: seq<PsiType>)

  /** The message of the failed `require(acceptMore)`. */
  const NotAcceptingMessage := "Don't pass more methods if processor doesn't want to accept them"

  /** The exceptions `execute` can end with. */
  datatype Exception =
    | IllegalArgument(message: string)  // `require` failed
    | IllegalState                       // `error(...)`: an element that is known not to be a method

  /** How a call to `execute` ends: a returned Boolean or a thrown exception. */
  datatype ExecuteOutcome = Returned(keepWalking: bool) | Thrown(exception: Exception)

  /** `myCandidates` and `myApplicable`. */
  datatype ProcessorState = ProcessorState(
    candidates: seq<GroovyMethodResult>,
    applicable: Option<ApplicabilitiesResult>)

  /** A new processor: no candidates, nothing cached. */
  const Initial := ProcessorState([], None)

  /** The state after a call to `execute`, and how the call ended. */
  datatype Step = Step(next: ProcessorState, outcome: ExecuteOutcome)

  /** One call the scope walker makes into the processor. */
  datatype WalkerCall =
    | ExecuteCall(element: PsiElement, state: ResolveState)
    | EventCall(event: Event)

  /** `acceptMore`: nothing is cached, or the cached applicable list is empty. */
  predicate AcceptMore(s: ProcessorState): (more: bool)
    ensures s.applicable == None ==> more
    ensures !more <==> s.applicable != None && |s.applicable.value.applicable| > 0
  {
    s.applicable.None? || s.applicable.value.applicable == []
  }

  /** `computeApplicableCandidates`: correct the static scope, then find the applicable candidates. */
  function ComputeApplicableCandidates(env: Collaborators, candidates: seq<GroovyMethodResult>): (a: ApplicabilitiesResult)
    ensures a == env.findApplicable(env.correctStaticScope(candidates))
  {
    env.findApplicable(env.correctStaticScope(candidates))
  }

  /** The cache is absent or holds exactly what would be computed from the current candidates. */
  ghost predicate CacheValid(env: Collaborators, s: ProcessorState)
  {
    s.applicable.Some? ==> s.applicable.value == ComputeApplicableCandidates(env, s.candidates)
  }

  /**
   * The candidate record for an accepted method. With explicit type
   * arguments the record is a base result whose state's substitutor maps
   * the method's own type parameters to them; otherwise it is a plain
   * result that keeps the walker's state.
   */
  function NewCandidate(env: Collaborators, lookup: Lookup, m: PsiMethod, state: ResolveState): (c: GroovyMethodResult)
    ensures c.element == m && c.place == lookup.place && c.arguments == lookup.arguments
    ensures c.BaseMethodResolveResult? <==> lookup.typeArguments != []
    ensures c.BaseMethodResolveResult? ==>
      c.state.substitutor == env.putAll(state.substitutor, env.typeParameters(m), lookup.typeArguments)
      && c.state.cannotKnowElementKind == state.cannotKnowElementKind && c.state.rest == state.rest
    ensures c.MethodResolveResult? ==> c.state == state
  {
    if lookup.typeArguments != [] then
      var newSub := env.putAll(state.substitutor, env.typeParameters(m), lookup.typeArguments);
      BaseMethodResolveResult(m, lookup.place, state.WithSubstitutor(newSub), lookup.arguments)
    else
      MethodResolveResult(m, lookup.place, state, lookup.arguments)
  }

  /** Whether `execute` appends a candidate for this element and state. */
  predicate Accepts(env: Collaborators, lookup: Lookup, s: ProcessorState, element: PsiElement, state: ResolveState)
  {
    AcceptMore(s) && element.MethodElement? && env.resolvedName(state, element.psiMethod) == Some(lookup.name)
  }

  /** `execute(element, state)`. */
  function ExecuteStep(env: Collaborators, lookup: Lookup, s: ProcessorState, element: PsiElement, state: ResolveState): (r: Step)
    // calling it while the processor does not accept more is a contract failure that changes nothing
    ensures !AcceptMore(s) ==> r == Step(s, Thrown(IllegalArgument(NotAcceptingMessage)))
    // a non-method is skipped when its kind cannot be known, and is fatal otherwise
    ensures AcceptMore(s) && element.OtherElement? ==>
      r.next == s && (r.outcome == Returned(true) <==> state.cannotKnowElementKind == Some(true))
      && (r.outcome.Thrown? ==> r.outcome.exception == IllegalState)
    // a method of another name is ignored
    ensures AcceptMore(s) && element.MethodElement? && env.resolvedName(state, element.psiMethod) != Some(lookup.name) ==>
      r == Step(s, Returned(true))
    // an accepted method appends exactly one candidate at the end and clears the cache
    ensures Accepts(env, lookup, s, element, state) ==>
      r.next.candidates == s.candidates + [NewCandidate(env, lookup, element.psiMethod, state)]
      && r.next.applicable == None && r.outcome == Returned(true)
    // nothing else changes the state
    ensures !Accepts(env, lookup, s, element, state) ==> r.next == s
    // `execute` never returns false
    ensures r.outcome != Returned(false)
    // a processor that accepts more still does afterwards
    ensures AcceptMore(s) ==> AcceptMore(r.next) && r.outcome != Thrown(IllegalArgument(NotAcceptingMessage))
  {
    if !AcceptMore(s) then
      Step(s, Thrown(IllegalArgument(NotAcceptingMessage)))
    else
      match element
      case OtherElement(_) =>
        if state.cannotKnowElementKind == Some(true) then Step(s, Returned(true)) else Step(s, Thrown(IllegalState))
      case MethodElement(m) =>
        if Some(lookup.name) != env.resolvedName(state, m) then
          Step(s, Returned(true))
        else
          Step(ProcessorState(s.candidates + [NewCandidate(env, lookup, m, state)], None), Returned(true))
  }

  /** `handleEvent(event, associated)`: fill an empty cache at a change of scope level. */
  function HandleEventStep(env: Collaborators, s: ProcessorState, event: Event): (r: ProcessorState)
    ensures r.candidates == s.candidates
    ensures event == ChangeLevel && s.applicable == None ==>
      r.applicable == Some(ComputeApplicableCandidates(env, s.candidates))
    ensures r != s <==> event == ChangeLevel && s.applicable == None
    ensures CacheValid(env, s) ==> CacheValid(env, r)
    ensures !AcceptMore(s) ==> r == s
  {
    if event == ChangeLevel && s.applicable == None then
      s.(applicable := Some(ComputeApplicableCandidates(env, s.candidates)))
    else
      s
  }

  /** The state after one walker call. */
  function Apply(env: Collaborators, lookup: Lookup, s: ProcessorState, call: WalkerCall): ProcessorState
  {
    match call
    case ExecuteCall(element, state) => ExecuteStep(env, lookup, s, element, state).next
    case EventCall(event) => HandleEventStep(env, s, event)
  }

  /** The state after a sequence of walker calls, in order. */
  function Run(env: Collaborators, lookup: Lookup, s: ProcessorState, calls: seq<WalkerCall>): ProcessorState
    decreases |calls|
  {
    if calls == [] then s else Run(env, lookup, Apply(env, lookup, s, calls[0]), calls[1..])
  }

  /** `getName(state)`: the name hint is the processor's own name, whatever the state. */
  function GetName(lookup: Lookup, state: ResolveState): (r: Option<string>)
    ensures r == Some(lookup.name)
  {
    Some(lookup.name)
  }

  /** `shouldProcess(kind: GroovyResolveKind)`. */
  predicate ShouldProcessResolveKind(s: ProcessorState, kind: GroovyResolveKind): (wanted: bool)
    ensures wanted ==> kind == GroovyMethodKind && AcceptMore(s)
    ensures kind == GroovyMethodKind && AcceptMore(s) ==> wanted
  {
    kind == GroovyMethodKind && AcceptMore(s)
  }

  /** `shouldProcess(kind: DeclarationKind)`. */
  predicate ShouldProcessDeclarationKind(s: ProcessorState, kind: DeclarationKind): (wanted: bool)
    ensures wanted ==> kind == MethodDeclaration && AcceptMore(s)
    ensures kind == MethodDeclaration && AcceptMore(s) ==> wanted
  {
    kind == MethodDeclaration && AcceptMore(s)
  }

  /** `shouldProcessMethods()`: dynamic members are wanted only while no candidate was found. */
  predicate ShouldProcessMethods(s: ProcessorState): (wanted: bool)
    ensures wanted <==> |s.candidates| == 0
  {
    s.candidates == []
  }

  /** The applicability result `applicableCandidates` works from: the cache, or a fresh computation. */
  function CurrentApplicabilities(env: Collaborators, s: ProcessorState): (a: ApplicabilitiesResult)
    ensures s.applicable.Some? ==> a == s.applicable.value
    ensures CacheValid(env, s) ==> a == ComputeApplicableCandidates(env, s.candidates)
  {
    if s.applicable.Some? then s.applicable.value else ComputeApplicableCandidates(env, s.candidates)
  }

  /**
   * `applicableCandidates`: absent when nothing is applicable; otherwise the
   * overload chooser's pick when the candidates can be ranked, and the
   * signature filter's result when they cannot. Being a function of the
   * state, it stores nothing.
   */
  function ApplicableCandidates(env: Collaborators, lookup: Lookup, s: ProcessorState): (r: Option<seq<GroovyMethodResult>>)
    ensures r == None <==> CurrentApplicabilities(env, s).applicable == []
    ensures r != None && CurrentApplicabilities(env, s).canChooseOverload ==>
      r.value == env.chooseOverloads(CurrentApplicabilities(env, s).applicable,
                                     DefaultMethodComparatorContext(lookup.place, lookup.arguments))
    ensures r != None && !CurrentApplicabilities(env, s).canChooseOverload ==>
      r.value == env.filterBySignature(CurrentApplicabilities(env, s).applicable)
  {
    var a := CurrentApplicabilities(env, s);
    if a.applicable == [] then None
    else if a.canChooseOverload then
      Some(env.chooseOverloads(a.applicable, DefaultMethodComparatorContext(lookup.place, lookup.arguments)))
    else
      Some(env.filterBySignature(a.applicable))
  }

  /** `allCandidates`: every candidate, in the order it was accepted. */
  function AllCandidates(s: ProcessorState): (all: seq<GroovyMethodResult>)
    ensures all == s.candidates
  {
    s.candidates
  }

  // ---------------------------------------------------------------------------
  // Laws of the protocol
  // ---------------------------------------------------------------------------

  /** A walker that passes methods only while either hint asks for them never trips `require(acceptMore)`. */
  lemma ObeyingHintsKeepsRequire(env: Collaborators, lookup: Lookup, s: ProcessorState,
                                 element: PsiElement, state: ResolveState)
    requires ShouldProcessResolveKind(s, GroovyMethodKind) || ShouldProcessDeclarationKind(s, MethodDeclaration)
    ensures ExecuteStep(env, lookup, s, element, state).outcome != Thrown(IllegalArgument(NotAcceptingMessage))
  {
  }

  /**
   * A checkpoint that finds nothing applicable caches an empty list, and the
   * walker is still asked for methods, so it goes on to the wider scopes.
   */
  lemma EmptyCheckpointKeepsAsking(env: Collaborators, s: ProcessorState)
    requires CacheValid(env, s) && AcceptMore(s)
    requires ComputeApplicableCandidates(env, s.candidates).applicable == []
    ensures HandleEventStep(env, s, ChangeLevel).applicable == Some(ComputeApplicableCandidates(env, s.candidates))
    ensures ShouldProcessResolveKind(HandleEventStep(env, s, ChangeLevel), GroovyMethodKind)
    ensures ShouldProcessDeclarationKind(HandleEventStep(env, s, ChangeLevel), MethodDeclaration)
  {
  }

  /** Once the processor stops, neither hint asks for anything again, whatever the walker does. */
  lemma HintsStayOffAfterStop(env: Collaborators, lookup: Lookup, s: ProcessorState, calls: seq<WalkerCall>,
                              k: GroovyResolveKind, d: DeclarationKind)
    requires !AcceptMore(s)
    ensures !ShouldProcessResolveKind(Run(env, lookup, s, calls), k)
    ensures !ShouldProcessDeclarationKind(Run(env, lookup, s, calls), d)
  {
    StopIsPermanent(env, lookup, s, calls);
  }

  /** Asking for the result a second time, or at another checkpoint, changes nothing. */
  lemma HandleEventIdempotent(env: Collaborators, s: ProcessorState, e1: Event, e2: Event)
    ensures HandleEventStep(env, HandleEventStep(env, s, e1), e1) == HandleEventStep(env, s, e1)
    ensures e1 == ChangeLevel ==> HandleEventStep(env, HandleEventStep(env, s, e1), e2) == HandleEventStep(env, s, e1)
  {
  }

  /** The initial state keeps the cache invariant. */
  lemma InitialIsValid(env: Collaborators)
    ensures CacheValid(env, Initial) && AcceptMore(Initial) && ShouldProcessMethods(Initial)
  {
  }

  /** One walker call keeps the cache invariant. */
  lemma ApplyKeepsCacheValid(env: Collaborators, lookup: Lookup, s: ProcessorState, call: WalkerCall)
    requires CacheValid(env, s)
    ensures CacheValid(env, Apply(env, lookup, s, call))
  {
  }

  /** Any sequence of walker calls keeps the cache invariant. */
  lemma {:induction false} RunKeepsCacheValid(env: Collaborators, lookup: Lookup, s: ProcessorState, calls: seq<WalkerCall>)
    requires CacheValid(env, s)
    ensures CacheValid(env, Run(env, lookup, s, calls))
    decreases |calls|
  {
    if calls != [] {
      ApplyKeepsCacheValid(env, lookup, s, calls[0]);
      RunKeepsCacheValid(env, lookup, Apply(env, lookup, s, calls[0]), calls[1..]);
    }
  }

  /**
   * Once the processor stops accepting, nothing the walker does changes it:
   * `execute` throws without effect and `handleEvent` finds the cache full.
   * In particular `acceptMore` never becomes true again.
   */
  lemma {:induction false} StopIsPermanent(env: Collaborators, lookup: Lookup, s: ProcessorState, calls: seq<WalkerCall>)
    requires !AcceptMore(s)
    ensures Run(env, lookup, s, calls) == s
    ensures !AcceptMore(Run(env, lookup, s, calls))
    decreases |calls|
  {
    if calls != [] {
      assert Apply(env, lookup, s, calls[0]) == s;
      StopIsPermanent(env, lookup, s, calls[1..]);
    }
  }

  /** Candidates are only ever appended: earlier ones stay in place and in order. */
  lemma {:induction false} RunOnlyAppends(env: Collaborators, lookup: Lookup, s: ProcessorState, calls: seq<WalkerCall>)
    ensures s.candidates <= Run(env, lookup, s, calls).candidates
    ensures |Run(env, lookup, s, calls).candidates| <= |s.candidates| + |calls|
    decreases |calls|
  {
    if calls != [] {
      var s' := Apply(env, lookup, s, calls[0]);
      assert s.candidates <= s'.candidates && |s'.candidates| <= |s.candidates| + 1;
      RunOnlyAppends(env, lookup, s', calls[1..]);
    }
  }

  /** After a first candidate was found, dynamic members are no longer wanted. */
  lemma ShouldProcessMethodsStaysOff(env: Collaborators, lookup: Lookup, s: ProcessorState, calls: seq<WalkerCall>)
    requires !ShouldProcessMethods(s)
    ensures !ShouldProcessMethods(Run(env, lookup, s, calls))
  {
    RunOnlyAppends(env, lookup, s, calls);
  }

  /** Reading the result from a valid cache gives what a fresh computation would give. */
  lemma CacheIsTransparent(env: Collaborators, lookup: Lookup, s: ProcessorState)
    requires CacheValid(env, s)
    ensures ApplicableCandidates(env, lookup, s) == ApplicableCandidates(env, lookup, s.(applicable := None))
  {
  }

  /** When the processor tells the walker to stop, a non-empty applicable set has been found. */
  lemma StopMeansApplicableFound(env: Collaborators, lookup: Lookup, s: ProcessorState)
    requires CacheValid(env, s) && !AcceptMore(s)
    ensures ComputeApplicableCandidates(env, s.candidates).applicable != []
    ensures ApplicableCandidates(env, lookup, s) != None
  {
  }

  /** A processor that has stopped keeps the result and the candidates it had at that moment. */
  lemma ResultFixedAfterStop(env: Collaborators, lookup: Lookup, s: ProcessorState, calls: seq<WalkerCall>)
    requires !AcceptMore(s)
    ensures ApplicableCandidates(env, lookup, Run(env, lookup, s, calls)) == ApplicableCandidates(env, lookup, s)
    ensures AllCandidates(Run(env, lookup, s, calls)) == AllCandidates(s)
  {
    StopIsPermanent(env, lookup, s, calls);
  }
}
