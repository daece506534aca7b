/**
 * The two lint rules, `no-set-spread` and `no-for-of-set`.  Each checks its
 * configuration once, when created, and then answers each visited node with
 * at most one diagnostic, located at that node, with a fixed message.  A
 * node's sub-expression carries the type the checker resolves for it.
 */
module Rules {
  import opened Wrappers
  import opened TypeNames
  import opened SetTypes
  import opened ParserServicesCheck

  /** Where a syntax node lies in the file. */
  datatype Location = Location(start: nat, end: nat)

  /** An expression, with the type the checker resolves at its location. */
  datatype Expression = Expression(loc: Location, staticType: TsType)

  /** `...argument` in an array literal, call or object literal. */
  datatype SpreadElement = SpreadElement(loc: Location, argument: Expression)

  /** `for (left of right) body`; only the iterated expression is inspected. */
  datatype ForOfStatement = ForOfStatement(loc: Location, right: Expression)

  /** A reported problem: the node it is attached to and its message. */
  datatype Diagnostic = Diagnostic(loc: Location, message: string)

  const SpreadMessage: string := "Can't use spread operator with Set<T>"
  const ForOfMessage: string := "Can't use for-of to iterate over Set<T>"

  /**
   * Creating either rule: the parser services are checked with missing type
   * information not allowed, so creation fails, with the fixed message,
   * unless the services are complete and `hasFullTypeInformation` is not
   * explicitly false.
   */
  function Create(context: RuleContext): (r: Result<ParserServices, string>)
    ensures r.Success? <==>
              HasRequiredServices(context) && context.parserServices.value.hasFullTypeInformation != Some(false)
    ensures r.Failure? ==> r.error == ErrorMessage
  {
    GetParserServices(context, false)
  }

  /** The `SpreadElement` handler of `no-set-spread`. */
  function CheckSpreadElement(node: SpreadElement): (d: Option<Diagnostic>)
    ensures d.Some? <==> IsSetType(node.argument.staticType)
    ensures d.Some? ==> d.value.loc == node.loc && d.value.message == SpreadMessage
  {
    if IsSetType(node.argument.staticType) then Some(Diagnostic(node.loc, SpreadMessage)) else None
  }

  /** The `ForOfStatement` handler of `no-for-of-set`. */
  function CheckForOfStatement(node: ForOfStatement): (d: Option<Diagnostic>)
    ensures d.Some? <==> IsSetType(node.right.staticType)
    ensures d.Some? ==> d.value.loc == node.loc && d.value.message == ForOfMessage
  {
    if IsSetType(node.right.staticType) then Some(Diagnostic(node.loc, ForOfMessage)) else None
  }

  /**
   * Spreading a well-rendered value is reported exactly when its type is not
   * string-like and the end of its constraint chain renders as `Set<...>`;
   * spreading a string-like value is never reported.
   */
  lemma SpreadReportedIffSet(node: SpreadElement)
    requires WellRendered(node.argument.staticType)
    ensures CheckSpreadElement(node).Some? <==>
              !StringLikeType(node.argument.staticType)
              && StartsWith(Target(node.argument.staticType).display, SetPrefix)
  {
    SetTypeCharacterized(node.argument.staticType);
  }

  /** The same for the value a for-of loop iterates over. */
  lemma ForOfReportedIffSet(node: ForOfStatement)
    requires WellRendered(node.right.staticType)
    ensures CheckForOfStatement(node).Some? <==>
              !StringLikeType(node.right.staticType)
              && StartsWith(Target(node.right.staticType).display, SetPrefix)
  {
    SetTypeCharacterized(node.right.staticType);
  }

  /**
   * Spreading a `Set<number>` gives one diagnostic at the spread; spreading
   * an `Array<number>` gives none; iterating a `ReadonlySet<string>` gives
   * none, because its rendered name does not begin with "Set<".
   */
  lemma ScenarioExamples(at: Location, inner: Location)
    ensures CheckSpreadElement(SpreadElement(at, Expression(inner, TsType("Set<number>", false, Plain))))
            == Some(Diagnostic(at, SpreadMessage))
    ensures CheckSpreadElement(SpreadElement(at, Expression(inner, TsType("Array<number>", false, Plain)))).None?
    ensures CheckForOfStatement(ForOfStatement(at, Expression(inner, TsType("ReadonlySet<string>", false, Plain)))).None?
  {
  }
}
