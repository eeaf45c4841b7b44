/**
 * The vocabulary the Groovy method processor works with: PSI elements, the
 * resolve state handed in by the scope walker, the candidate records it
 * builds, and the resolution routines it calls but does not define.
 *
 * PSI objects and types live outside the processor, so they are opaque
 * types here. The routines imported from the resolve implementation
 * package are total functions bundled in `Collaborators`: the processor
 * is modelled for every choice of them, and nothing is assumed about what
 * they compute.
 */
module ResolveApi {
  import opened Wrappers

  /** A method declaration (`PsiMethod`). */
  type PsiMethod(==)
  /** Any PSI element that is not a method (a field, a class, a variable, ...). */
  type OtherPsiElement(==)
  /** The call-site element the lookup is made from (`place`). */
  type Place(==)
  /** The call's argument list (`Arguments`). */
  type Arguments(==)
  /** A type, as used for explicit type arguments (`PsiType`). */
  type PsiType(==)
  /** A declared type parameter (`PsiTypeParameter`). */
  type TypeParameter(==)
  /** A type substitution (`PsiSubstitutor`). */
  type Substitutor(==)
  /** Whatever else a `ResolveState` carries besides the keys read here. */
  type OtherStateEntries(==)

  /** The element the scope walker hands to `execute`: a method or not. */
  datatype PsiElement =
    | MethodElement(psiMethod: PsiMethod)
    | OtherElement(other: OtherPsiElement)

  /**
   * The key/value state the walker passes with each element. Two keys are
   * read: the substitutor, and the flag `sorryCannotKnowElementKind`, whose
   * Kotlin type is `Boolean?` (absent, false or true).
   */
  datatype ResolveState = ResolveState(
    substitutor: Substitutor,
    cannotKnowElementKind: Option<bool>,
    rest: OtherStateEntries)
  {
    /** `state.put(PsiSubstitutor.KEY, sub)`: the same state with another substitutor. */
    function WithSubstitutor(sub: Substitutor): (r: ResolveState)
      ensures r.substitutor == sub
      ensures r.cannotKnowElementKind == cannotKnowElementKind && r.rest == rest
    {
      this.(substitutor := sub)
    }
  }

  /**
   * One candidate (`GroovyMethodResult`). The processor builds the base
   * kind when explicit type arguments were given and the plain kind
   * otherwise.
   */
  datatype GroovyMethodResult =
    | BaseMethodResolveResult(element: PsiMethod, place: Place, state: ResolveState, arguments: Option<Arguments>)
    | MethodResolveResult(element: PsiMethod, place: Place, state: ResolveState, arguments: Option<Arguments>)

  /** `ApplicabilitiesResult`: the applicable candidates and whether they can be ranked by specificity. */
  datatype ApplicabilitiesResult = ApplicabilitiesResult(
    applicable: seq<GroovyMethodResult>,
    canChooseOverload: bool)

  /** `DefaultMethodComparatorContext(place, arguments)`, passed to the overload chooser. */
  datatype ComparatorContext = DefaultMethodComparatorContext(place: Place, arguments: Option<Arguments>)

  /** The events a scope processor is notified of; only the change of scope level matters here. */
  datatype Event =
    | ChangeLevel
    | OtherEvent(id: nat)

  /** `GroovyResolveKind`, reduced to what the processor tests: method or not. */
  datatype GroovyResolveKind = GroovyMethodKind | GroovyOtherKind(kindName: string)

  /** `ElementClassHint.DeclarationKind`. */
  datatype DeclarationKind = MethodDeclaration | VariableDeclaration | FieldDeclaration
                           | EnumConstDeclaration | ClassDeclaration | PackageDeclaration

  /** The hint keys a processor registers itself under. */
  datatype HintKey = NameHintKey | GroovyResolveKindHintKey | ElementClassHintKey | DynamicMembersHintKey

  /** The resolution routines the processor calls but does not define. */
  datatype Collaborators = Collaborators(
    correctStaticScope: seq<GroovyMethodResult> -> seq<GroovyMethodResult>,
    findApplicable: seq<GroovyMethodResult> -> ApplicabilitiesResult,
    chooseOverloads: (seq<GroovyMethodResult>, ComparatorContext) -> seq<GroovyMethodResult>,
    filterBySignature: seq<GroovyMethodResult> -> seq<GroovyMethodResult>,
    putAll: (Substitutor, seq<TypeParameter>, seq<PsiType>) -> Substitutor,
    resolvedName: (ResolveState, PsiMethod) -> Option<string>,
    typeParameters: PsiMethod -> seq<TypeParameter>)
}
