/**
 * `getParserServices`: the configuration check every rule runs when it is
 * created.  The rules need the parser's program and its two node maps, and by
 * default they need full type information; a context that lacks any of them
 * is rejected with one fixed error message.
 */
module ParserServicesCheck {
  import opened Wrappers

  /** An opaque reference to an object owned by the parser (the program, a node map). */
  type Handle = nat

  /**
   * The services object the TypeScript parser attaches to a rule context.
   * Each member may be absent; `hasFullTypeInformation` is absent in
   * services produced by older parsers.
   */
  datatype ParserServices = ParserServices(
    program: Option<Handle>,
    esTreeNodeToTSNodeMap: Option<Handle>,
    tsNodeToESTreeNodeMap: Option<Handle>,
    hasFullTypeInformation: Option<bool>)

  /** The part of a rule's context the check reads. */
  datatype RuleContext = RuleContext(parserServices: Option<ParserServices>)

  /** The message of the error thrown for every rejected configuration. */
  const ErrorMessage: string :=
    "You have used a rule which requires parserServices to be generated. You must therefore provide a value for the \"parserOptions.project\" property for @typescript-eslint/parser."

  /** The services are present and carry the program and both node maps. */
  predicate HasRequiredServices(context: RuleContext)
    ensures !HasRequiredServices(context) <==>
              || context.parserServices.None?
              || context.parserServices.value.program.None?
              || context.parserServices.value.esTreeNodeToTSNodeMap.None?
              || context.parserServices.value.tsNodeToESTreeNodeMap.None?
  {
    && context.parserServices.Some?
    && context.parserServices.value.program.Some?
    && context.parserServices.value.esTreeNodeToTSNodeMap.Some?
    && context.parserServices.value.tsNodeToESTreeNodeMap.Some?
  }

  /**
   * The services, or the thrown error.  They are accepted exactly when they
   * are complete and do not explicitly declare a lack of full type
   * information, unless the caller allows that; they are returned unchanged.
   */
  function GetParserServices(context: RuleContext, allowWithoutFullTypeInformation: bool): (r: Result<ParserServices, string>)
    ensures r.Success? <==>
              HasRequiredServices(context)
              && (context.parserServices.value.hasFullTypeInformation != Some(false) || allowWithoutFullTypeInformation)
    ensures r.Success? ==> context.parserServices == Some(r.value)
    ensures r.Failure? ==> r.error == ErrorMessage
  {
    if !HasRequiredServices(context) then Failure(ErrorMessage)
    else
      var hasFullTypeInformation := context.parserServices.value.hasFullTypeInformation.GetOr(true);
      if !hasFullTypeInformation && !allowWithoutFullTypeInformation then Failure(ErrorMessage)
      else Success(context.parserServices.value)
  }

  /** Services from an older parser, which do not say whether type information is full, are treated as having it. */
  lemma AbsentFullTypeInformationMeansFull(context: RuleContext, allow: bool)
    requires HasRequiredServices(context)
    requires context.parserServices.value.hasFullTypeInformation.None?
    ensures GetParserServices(context, allow) == Success(context.parserServices.value)
    ensures GetParserServices(context, allow) == GetParserServices(context, !allow)
  {
  }

  /** Allowing missing type information only ever turns a rejection into acceptance, never the reverse. */
  lemma AllowOnlyWidens(context: RuleContext)
    ensures GetParserServices(context, false).Success? ==> GetParserServices(context, true) == GetParserServices(context, false)
    ensures GetParserServices(context, true).Failure? ==> !HasRequiredServices(context)
  {
  }
}
