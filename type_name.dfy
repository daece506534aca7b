/**
 * The type-name classifier of the set-iterable lint rules (`getTypeName`).
 *
 * A TypeScript type is reduced to the parts the classifier looks at: the text
 * the checker renders for it, whether its flags include `StringLike`, and its
 * shape (a type parameter with its constraint already resolved to a type, a
 * union or intersection of member types, or anything else).  The classifier
 * answers either the canonical name "string" or the type's rendered text.
 */
module TypeNames {
  import opened Wrappers

  /** The shape of a type, as far as the classifier distinguishes it. */
  datatype TypeKind =
    | TypeParameter(constraint: Option<TsType>)
    | Union(types: seq<TsType>)
    | Intersection(types: seq<TsType>)
    | Plain

  /**
   * A type: `display` is what the checker's `typeToString` renders for it,
   * `stringLike` whether its flags include `TypeFlags.StringLike` (the string
   * type, string literals, template literals).  A type parameter's
   * constraint is the type its declared `extends` clause resolves to.
   */
  datatype TsType = TsType(display: string, stringLike: bool, kind: TypeKind)

  /** The canonical name of every string-like type. */
  const StringName: string := "string"

  /** `names.every(n => n === name)`. */
  function AllAre(names: seq<string>, name: string): (r: bool)
    ensures r <==> forall i | 0 <= i < |names| :: names[i] == name
  {
    |names| == 0 || (names[0] == name && AllAre(names[1..], name))
  }

  /** `names.some(n => n === name)`. */
  function AnyIs(names: seq<string>, name: string): (r: bool)
    ensures r <==> exists i | 0 <= i < |names| :: names[i] == name
  {
    |names| > 0 && (names[0] == name || AnyIs(names[1..], name))
  }

  /**
   * The end of a chain of constrained type parameters: the first type on the
   * chain that is string-like or not a type parameter with a constraint.
   */
  ghost function Target(t: TsType): (r: TsType)
    ensures r.stringLike || !(r.kind.TypeParameter? && r.kind.constraint.Some?)
  {
    if !t.stringLike && t.kind.TypeParameter? && t.kind.constraint.Some?
    then Target(t.kind.constraint.value)
    else t
  }

  /**
   * `getTypeName`: the rules are tried in order.  A string-like type is
   * "string"; a type parameter with a constraint is named as its constraint;
   * a union is "string" when every member is; an intersection is "string"
   * when some member is; otherwise the answer is the type's rendered text.
   * The answer is never the text of a member, only the text of the type
   * itself or of the end of its constraint chain.
   */
  function TypeName(t: TsType): (r: string)
    ensures r == StringName || r == Target(t).display
  {
    if t.stringLike then StringName
    else if t.kind.TypeParameter? && t.kind.constraint.Some? then
      TypeName(t.kind.constraint.value)
    else if t.kind.Union? && AllAre(MemberNames(t), StringName) then StringName
    else if t.kind.Intersection? && AnyIs(MemberNames(t), StringName) then StringName
    else t.display
  }

  /** `type.types.map(value => getTypeName(typeChecker, value))`. */
  function MemberNames(t: TsType): (names: seq<string>)
    requires t.kind.Union? || t.kind.Intersection?
    ensures |names| == |t.kind.types|
    ensures forall i | 0 <= i < |names| :: names[i] == TypeName(t.kind.types[i])
    decreases t, 0
  {
    seq(|t.kind.types|, i requires 0 <= i < |t.kind.types| => TypeName(t.kind.types[i]))
  }

  /**
   * The declarative meaning of "string-like": the type's own flag says so,
   * or it is a type parameter whose constraint is string-like, a union all of
   * whose members are, or an intersection one of whose members is.
   */
  ghost predicate StringLikeType(t: TsType)
  {
    || t.stringLike
    || (t.kind.TypeParameter? && t.kind.constraint.Some? && StringLikeType(t.kind.constraint.value))
    || (t.kind.Union? && forall i | 0 <= i < |t.kind.types| :: StringLikeType(t.kind.types[i]))
    || (t.kind.Intersection? && exists i | 0 <= i < |t.kind.types| :: StringLikeType(t.kind.types[i]))
  }

  /**
   * What the checker guarantees about its rendering: only a string-like type
   * is rendered as the bare word "string", at every node of the type.
   */
  ghost predicate WellRendered(t: TsType)
  {
    && (t.display == StringName ==> t.stringLike)
    && match t.kind
       case TypeParameter(c) => c.None? || WellRendered(c.value)
       case Union(ts) => forall i | 0 <= i < |ts| :: WellRendered(ts[i])
       case Intersection(ts) => forall i | 0 <= i < |ts| :: WellRendered(ts[i])
       case Plain => true
  }

  /** The first rule wins over every other: a string-flagged type is "string", whatever its shape. */
  lemma StringFlagWins(t: TsType)
    requires t.stringLike
    ensures TypeName(t) == StringName
  {
  }

  /**
   * A type parameter that is not itself string-like is named exactly as its
   * constraint is; without a constraint it is named by its own text.
   */
  lemma ConstraintRule(t: TsType)
    requires !t.stringLike && t.kind.TypeParameter?
    ensures t.kind.constraint.Some? ==> TypeName(t) == TypeName(t.kind.constraint.value)
    ensures t.kind.constraint.None? ==> TypeName(t) == t.display
  {
  }

  /**
   * A union is "string" exactly when every member is named "string";
   * otherwise it is named by the union's own text, never a member's.
   */
  lemma UnionRule(t: TsType)
    requires !t.stringLike && t.kind.Union?
    ensures TypeName(t) == if forall i | 0 <= i < |t.kind.types| :: TypeName(t.kind.types[i]) == StringName
                           then StringName else t.display
  {
  }

  /**
   * An intersection is "string" exactly when some member is named "string";
   * otherwise it is named by the intersection's own text.
   */
  lemma IntersectionRule(t: TsType)
    requires !t.stringLike && t.kind.Intersection?
    ensures TypeName(t) == if exists i | 0 <= i < |t.kind.types| :: TypeName(t.kind.types[i]) == StringName
                           then StringName else t.display
  {
  }

  /** Every string-like type, however deeply composed, is named "string". */
  lemma {:induction false} StringLikeNamedString(t: TsType)
    ensures StringLikeType(t) ==> TypeName(t) == StringName
  {
    if StringLikeType(t) && !t.stringLike {
      match t.kind
      case TypeParameter(c) =>
        StringLikeNamedString(c.value);
      case Union(ts) =>
        forall i | 0 <= i < |ts| ensures TypeName(ts[i]) == StringName {
          StringLikeNamedString(ts[i]);
        }
      case Intersection(ts) =>
        var i :| 0 <= i < |ts| && StringLikeType(ts[i]);
        StringLikeNamedString(ts[i]);
    }
  }

  /** When the checker renders only string-like types as "string", the name "string" means string-like. */
  lemma {:induction false} NamedStringIsStringLike(t: TsType)
    requires WellRendered(t)
    ensures TypeName(t) == StringName ==> StringLikeType(t)
  {
    if TypeName(t) == StringName && !t.stringLike {
      match t.kind
      case TypeParameter(c) =>
        NamedStringIsStringLike(c.value);
      case Union(ts) =>
        forall i | 0 <= i < |ts| ensures StringLikeType(ts[i]) {
          NamedStringIsStringLike(ts[i]);
        }
      case Intersection(ts) =>
        var i :| 0 <= i < |ts| && TypeName(ts[i]) == StringName;
        NamedStringIsStringLike(ts[i]);
      case Plain =>
    }
  }

  /**
   * The whole classifier in one statement: a well-rendered type is named
   * "string" when it is string-like, and otherwise by the text of the end of
   * its constraint chain (its own text when it is not a constrained type
   * parameter).
   */
  lemma TypeNameCharacterized(t: TsType)
    requires WellRendered(t)
    ensures TypeName(t) == if StringLikeType(t) then StringName else Target(t).display
  {
    StringLikeNamedString(t);
    NamedStringIsStringLike(t);
  }

  /** `"a" | "b"` is "string"; `string | string[]` is not. */
  lemma UnionExamples()
    ensures TypeName(TsType("\"a\" | \"b\"", false,
                            Union([TsType("\"a\"", true, Plain), TsType("\"b\"", true, Plain)]))) == StringName
    ensures TypeName(TsType("string | string[]", false,
                            Union([TsType("string", true, Plain), TsType("string[]", false, Plain)]))) == "string | string[]"
  {
  }

  /** `string & {__htmlEscaped: void}` is "string". */
  lemma IntersectionExample()
    ensures TypeName(TsType("string & { __htmlEscaped: void; }", false,
                            Intersection([TsType("string", true, Plain), TsType("{ __htmlEscaped: void; }", false, Plain)]))) == StringName
  {
  }
}
