/**
 * The Groovy method processor as the object the scope walker holds: two
 * mutable fields, the candidate list and the cached applicability result,
 * updated in place by `Execute` and `HandleEvent`. Each method is proved
 * to move the object exactly as the corresponding step of MethodProtocol
 * moves its state, and to keep the cache invariant; the read-only
 * members are the MethodProtocol functions of `State()`.
 */
module MethodProcessing {
  import opened Wrappers
  import opened ResolveApi
  import opened MethodProtocol

  /** The hint keys the processor registers itself under when it is built. */
  const RegisteredHints: set<HintKey> :=
    {NameHintKey, GroovyResolveKindHintKey, ElementClassHintKey, DynamicMembersHintKey}

  class MethodProcessor {
    const lookup: Lookup
    const env: Collaborators
    const hints: set<HintKey>
    var candidates: seq<GroovyMethodResult>
    var applicable: Option<ApplicabilitiesResult>

    /** The processor's mutable state as a value. */
    function State(): ProcessorState
      reads this
    {
      ProcessorState(candidates, applicable)
    }

    /** The object invariant: the cache, when present, is up to date. */
    ghost predicate Valid()
      reads this
    {
      CacheValid(env, State())
    }

    constructor (name: string, place: Place, arguments: Option<Arguments>, typeArguments: seq<PsiType>,
                 env: Collaborators)
      ensures Valid()
      ensures lookup == Lookup(name, place, arguments, typeArguments) && this.env == env
      ensures hints == RegisteredHints
      ensures State() == Initial
    {
      lookup := Lookup(name, place, arguments, typeArguments);
      this.env := env;
      hints := RegisteredHints;
      candidates := [];
      applicable := None;
    }

    /** `execute(element, state)`. */
    method Execute(element: PsiElement, state: ResolveState) returns (outcome: ExecuteOutcome)
      requires Valid()
      modifies this
      ensures Valid()
      ensures State() == ExecuteStep(env, lookup, old(State()), element, state).next
      ensures outcome == ExecuteStep(env, lookup, old(State()), element, state).outcome
      ensures old(candidates) <= candidates
      ensures candidates != old(candidates) ==>
        candidates == old(candidates) + [NewCandidate(env, lookup, element.psiMethod, state)] && applicable == None
      ensures old(AcceptMore(State())) ==> AcceptMore(State())
      ensures !old(AcceptMore(State())) ==> unchanged(this) && outcome.Thrown?
    {
      if !AcceptMore(State()) {
        return Thrown(IllegalArgument(NotAcceptingMessage));
      }
      match element {
        case OtherElement(_) =>
          if state.cannotKnowElementKind == Some(true) {
            return Returned(true);
          }
          return Thrown(IllegalState);
        case MethodElement(m) =>
          if Some(lookup.name) != env.resolvedName(state, m) {
            return Returned(true);
          }
          if lookup.typeArguments != [] {
            var newSub := env.putAll(state.substitutor, env.typeParameters(m), lookup.typeArguments);
            candidates := candidates + [BaseMethodResolveResult(m, lookup.place, state.WithSubstitutor(newSub), lookup.arguments)];
          } else {
            candidates := candidates + [MethodResolveResult(m, lookup.place, state, lookup.arguments)];
          }
          applicable := None;
          return Returned(true);
      }
    }

    /** `handleEvent(event, associated)`. */
    method HandleEvent(event: Event)
      requires Valid()
      modifies this
      ensures Valid()
      ensures State() == HandleEventStep(env, old(State()), event)
      ensures candidates == old(candidates)
      ensures event == ChangeLevel && old(applicable) == None ==>
        applicable == Some(ComputeApplicableCandidates(env, candidates))
      ensures !(event == ChangeLevel && old(applicable) == None) ==> unchanged(this)
    {
      if event == ChangeLevel && applicable.None? {
        applicable := Some(ComputeApplicableCandidates(env, candidates));
      }
    }
  }
}
