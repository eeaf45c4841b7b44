/**
 * `WCInfo`, the description of one Subversion working copy: its path, URL,
 * format and repository root, all fixed when the object is built. Two
 * descriptions are equal when their paths are (both absent, or both present
 * with the same characters), and the hash code follows the path alone.
 *
 * The URL and the working-copy format are library types and stay opaque.
 * Java references may be null, so every field is an Option. `equals` takes
 * any Java object, so objects are modelled with their reference, which is
 * what `this == o` compares.
 */
module WorkingCopyInfo {
  import opened Wrappers

  /** `SVNURL`. */
  type SvnUrl(==)
  /** `WorkingCopyFormat`. */
  type WorkingCopyFormat(==)

  /** Java's `int`. */
  newtype int32 = x: int | -0x8000_0000 <= x < 0x8000_0000

  /** The four final fields; the datatype's destructors are the four getters. */
  datatype WCInfo = WCInfo(
    path: Option<string>,
    url: Option<SvnUrl>,
    format: Option<WorkingCopyFormat>,
    repositoryRoot: Option<string>)

  /** A Java reference as `equals` receives it. */
  datatype JavaObject =
    | Null
    | WCInfoObject(ref: nat, info: WCInfo)
    | OtherObject(ref: nat)

  /** One reference denotes one object: two WCInfo objects at the same reference are the same. */
  predicate SameHeap(a: JavaObject, b: JavaObject)
  {
    a.WCInfoObject? && b.WCInfoObject? && a.ref == b.ref ==> a == b
  }

  /** `String.equals(Object)`: true exactly for a non-null string with the same characters. */
  predicate StringEquals(s: string, o: Option<string>)
  {
    o.Some? && o.value == s
  }

  /** `equals(o)` of the WCInfo object `self`. */
  predicate Equals(self: JavaObject, o: JavaObject): (eq: bool)
    requires self.WCInfoObject?
    ensures o == self ==> eq
    ensures !o.WCInfoObject? ==> !eq
    ensures o.WCInfoObject? && SameHeap(self, o) ==> (eq <==> self.info.path == o.info.path)
  {
    if o.WCInfoObject? && o.ref == self.ref then true
    else if !o.WCInfoObject? then false
    else
      var mine := self.info.path;
      var differ := if mine.Some? then !StringEquals(mine.value, o.info.path) else o.info.path.Some?;
      !differ
  }

  /** `hashCode()`, for a given `String.hashCode`. */
  function HashCode(w: WCInfo, stringHash: string -> int32): (h: int32)
    ensures w.path == None ==> h == 0
    ensures w.path != None ==> h == stringHash(w.path.value)
  {
    if w.path.Some? then stringHash(w.path.value) else 0
  }

  /** Each getter returns what was passed to the constructor. */
  lemma GettersReturnConstructorArguments(path: Option<string>, url: Option<SvnUrl>,
                                          format: Option<WorkingCopyFormat>, root: Option<string>)
    ensures WCInfo(path, url, format, root).path == path
    ensures WCInfo(path, url, format, root).url == url
    ensures WCInfo(path, url, format, root).format == format
    ensures WCInfo(path, url, format, root).repositoryRoot == root
  {
  }

  /** `equals` is reflexive. */
  lemma EqualsReflexive(a: JavaObject)
    requires a.WCInfoObject?
    ensures Equals(a, a)
  {
  }

  /** Nothing but a WCInfo equals a WCInfo, null included. */
  lemma EqualsOnlyWCInfo(a: JavaObject, o: JavaObject)
    requires a.WCInfoObject? && !o.WCInfoObject?
    ensures !Equals(a, o)
  {
  }

  /** Two WCInfo objects are equal exactly when both paths are null or both are the same string. */
  lemma EqualsIffSamePath(a: JavaObject, b: JavaObject)
    requires a.WCInfoObject? && b.WCInfoObject? && SameHeap(a, b)
    ensures Equals(a, b) <==>
      (a.info.path.None? && b.info.path.None?)
      || (a.info.path.Some? && b.info.path.Some? && a.info.path.value == b.info.path.value)
  {
  }

  /** URL, format and repository root play no part in equality. */
  lemma EqualsIgnoresOtherFields(a: JavaObject, b: JavaObject,
                                 url: Option<SvnUrl>, format: Option<WorkingCopyFormat>, root: Option<string>)
    requires a.WCInfoObject? && b.WCInfoObject?
    ensures Equals(a, b) == Equals(a, b.(info := b.info.(url := url, format := format, repositoryRoot := root)))
    ensures Equals(a, b) == Equals(a.(info := a.info.(url := url, format := format, repositoryRoot := root)), b)
  {
  }

  /** `equals` is symmetric. */
  lemma EqualsSymmetric(a: JavaObject, b: JavaObject)
    requires a.WCInfoObject? && b.WCInfoObject?
    ensures Equals(a, b) == Equals(b, a)
  {
  }

  /** `equals` is transitive. */
  lemma EqualsTransitive(a: JavaObject, b: JavaObject, c: JavaObject)
    requires a.WCInfoObject? && b.WCInfoObject? && c.WCInfoObject?
    requires SameHeap(a, b) && SameHeap(b, c) && SameHeap(a, c)
    requires Equals(a, b) && Equals(b, c)
    ensures Equals(a, c)
  {
    EqualsIffSamePath(a, b);
    EqualsIffSamePath(b, c);
    EqualsIffSamePath(a, c);
  }

  /** Equal objects have equal hash codes, whatever `String.hashCode` computes. */
  lemma EqualObjectsEqualHashCodes(a: JavaObject, b: JavaObject, stringHash: string -> int32)
    requires a.WCInfoObject? && b.WCInfoObject? && SameHeap(a, b)
    requires Equals(a, b)
    ensures HashCode(a.info, stringHash) == HashCode(b.info, stringHash)
  {
    EqualsIffSamePath(a, b);
  }
}
