/** Constructors for actions, rules, tokens and states, including the rule shorthand. */
module LexerBuilders {
  import opened Wrappers
  import opened LexerTypes

  function NextAction(value: string): (a: Action)
    ensures a.Next? && a.value == value
  {
    Next(value)
  }

  function PushAction(value: string): (a: Action)
    ensures a.Push? && a.value == value
  {
    Push(value)
  }

  function PopAction(): (a: Action)
    ensures a.Pop?
  {
    Pop
  }

  /** A rule pattern as given: a string, or a regular expression literal known by its source text. */
  datatype PatternSource = Text(text: string) | RegExpLiteral(source: string)

  function SourceOf(p: PatternSource): string {
    match p
    case Text(t) => t
    case RegExpLiteral(s) => s
  }

  /** The optional fields of `RuleOptions`; an absent field is `None`. */
  datatype RuleOptions = RuleOptions(discard: Option<bool>, action: Option<Action>)

  const NoOptions := RuleOptions(None, None)

  /**
   * rule(name, pattern?, options?): the pattern defaults to the name itself,
   * discarding defaults to false.
   */
  function MakeRule(name: string, pattern: Option<PatternSource>, options: RuleOptions): (r: Rule)
    ensures r.name == name
    ensures r.pattern == (if pattern.Some? then SourceOf(pattern.value) else name)
    ensures r.discard <==> options.discard == Some(true)
    ensures r.action == options.action
  {
    Rule(name, if pattern.Some? then SourceOf(pattern.value) else name, options.action, options.discard.GetOr(false))
  }

  /** keyword(name): the name followed by a word boundary. */
  function Keyword(name: string): (r: Rule)
    ensures r.name == name && r.pattern == name + "\\b" && !r.discard && r.action.None?
  {
    MakeRule(name, Some(RegExpLiteral(name + "\\b")), NoOptions)
  }

  datatype TokenOptions = TokenOptions(value: Option<string>, values: Option<seq<string>>, position: Option<Position>)

  /** The second argument of token(): absent, a single value, or options. */
  datatype TokenArgument = NoArgument | SingleValue(text: string) | WithOptions(options: TokenOptions)

  /**
   * token(type, optionsOrValue?): values default to none and the position
   * to [0, 0]; the `value` option is not read.
   */
  function MakeToken(tokenType: string, arg: TokenArgument): (t: Token)
    ensures t.tokenType == tokenType
    ensures t.values == (match arg
                         case NoArgument => []
                         case SingleValue(v) => [v]
                         case WithOptions(o) => o.values.GetOr([]))
    ensures arg.WithOptions? && arg.options.position.Some? ==> t.position == arg.options.position.value
    ensures !(arg.WithOptions? && arg.options.position.Some?) ==> t.position == Position(0, 0)
  {
    match arg
    case NoArgument => Token(tokenType, [], Position(0, 0))
    case SingleValue(v) => Token(tokenType, [v], Position(0, 0))
    case WithOptions(o) => Token(tokenType, o.values.GetOr([]), o.position.GetOr(Position(0, 0)))
  }

  /** The third element of a rule tuple: a state to switch to, or rule options. */
  datatype ShorthandOptions = NextState(state: string) | Options(options: RuleOptions)

  /** The forms a rule may be written in: a full rule, a bare name, or a tuple. */
  datatype RuleShorthand =
    | FullRule(rule: Rule)
    | Bare(name: string)
    | Tuple(name: string, pattern: Option<PatternSource>, options: Option<ShorthandOptions>)

  /**
   * normalizeRule: a bare name is the one-element tuple; a tuple's third
   * element is either `next` to a state or options spread over the defaults;
   * a full rule is returned as it is.
   */
  function NormalizeRule(shorthand: RuleShorthand): (r: Rule)
    ensures shorthand.FullRule? ==> r == shorthand.rule
  {
    match shorthand
    case FullRule(rule) => rule
    case Bare(name) => NormalizeTuple(name, None, None)
    case Tuple(name, pattern, options) => NormalizeTuple(name, pattern, options)
  }

  /** `[name, pattern?, options?]`: defaults first, then the options on top. */
  function NormalizeTuple(name: string, pattern: Option<PatternSource>, options: Option<ShorthandOptions>): Rule {
    var source := if pattern.Some? then SourceOf(pattern.value) else name;
    match options
    case None => Rule(name, source, None, false)
    case Some(NextState(s)) => Rule(name, source, Some(Next(s)), false)
    case Some(Options(o)) => Rule(name, source, o.action, o.discard.GetOr(false))
  }

  /** Every shorthand that is not a full rule means the same as calling rule() with matching arguments. */
  lemma NormalizeRuleAgreesWithMakeRule(shorthand: RuleShorthand)
    requires !shorthand.FullRule?
    ensures NormalizeRule(shorthand) == match shorthand
      case Bare(name) => MakeRule(name, None, NoOptions)
      case Tuple(name, pattern, None) => MakeRule(name, pattern, NoOptions)
      case Tuple(name, pattern, Some(NextState(s))) => MakeRule(name, pattern, RuleOptions(None, Some(NextAction(s))))
      case Tuple(name, pattern, Some(Options(o))) => MakeRule(name, pattern, o)
  {
  }

  /** state(name, rules): at least one rule, each normalised, order kept. */
  function State(name: string, rules: seq<RuleShorthand>): (r: Result<StateDefinition, LexerError>)
    ensures r.Err? <==> |rules| == 0
    ensures r.Err? ==> r.error == NoRules(name)
    ensures r.Ok? ==> r.value.name == name && |r.value.rules| == |rules|
    ensures r.Ok? ==> forall k :: 0 <= k < |rules| ==> r.value.rules[k] == NormalizeRule(rules[k])
  {
    if |rules| == 0 then Err(NoRules(name))
    else Ok(StateDefinition(name, seq(|rules|, k requires 0 <= k < |rules| => NormalizeRule(rules[k]))))
  }
}
