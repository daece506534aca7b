/**
 * Set detection (`isSetType`): a type is a Set when its classified name
 * begins with the text "Set<".  The test is purely textual: it knows nothing
 * about which declaration the name refers to.
 */
module SetTypes {
  import opened Wrappers
  import opened TypeNames

  /** The prefix that marks a Set type's rendered name. */
  const SetPrefix: string := "Set<"

  /** `s.startsWith(prefix)`, compared character by character. */
  function StartsWith(s: string, prefix: string): (r: bool)
    ensures r <==> |prefix| <= |s| && s[..|prefix|] == prefix
  {
    |prefix| == 0 || (|s| > 0 && s[0] == prefix[0] && StartsWith(s[1..], prefix[1..]))
  }

  /**
   * `isSetType`, applied to the type the checker resolved for the node.  A
   * string-like type is never a Set; otherwise the answer is decided by the
   * rendered text of the type, or of the end of its constraint chain.
   */
  predicate IsSetType(t: TsType)
    ensures StringLikeType(t) ==> !IsSetType(t)
    ensures IsSetType(t) <==> TypeName(t) != StringName && StartsWith(Target(t).display, SetPrefix)
  {
    StringLikeNamedString(t);
    StartsWith(TypeName(t), SetPrefix)
  }

  /**
   * For a well-rendered type, being a Set is exactly: not string-like, and
   * the end of the constraint chain is rendered with the "Set<" prefix.
   */
  lemma SetTypeCharacterized(t: TsType)
    requires WellRendered(t)
    ensures IsSetType(t) <==> !StringLikeType(t) && StartsWith(Target(t).display, SetPrefix)
  {
    TypeNameCharacterized(t);
  }

  /**
   * Only names that begin with exactly "Set<" match: the similarly named
   * `WeakSet` and `ReadonlySet`, a bare `Set`, and "string" do not; any type
   * rendered as `Set<...>` does, whatever declared it.
   */
  lemma PrefixExamples()
    ensures StartsWith("Set<number>", SetPrefix)
    ensures !StartsWith("WeakSet<string>", SetPrefix)
    ensures !StartsWith("ReadonlySet<number>", SetPrefix)
    ensures !StartsWith("Set", SetPrefix)
    ensures !StartsWith(StringName, SetPrefix)
  {
  }

  /**
   * A type parameter `T extends Set<number>` is a Set: it is named as its
   * constraint, through any chain of parameters.
   */
  lemma ConstrainedParameterExample()
    ensures var setType := TsType("Set<number>", false, Plain);
            var t := TsType("T", false, TypeParameter(Some(setType)));
            var u := TsType("U", false, TypeParameter(Some(t)));
            TypeName(t) == "Set<number>" && IsSetType(t) && IsSetType(u)
  {
  }
}
