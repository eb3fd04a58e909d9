/**
 * The state-stack lexer. At each position the rules of the state on top of
 * the stack are tried in order against the rest of the input; the first rule
 * whose pattern matches there produces a token (unless it discards), applies
 * its action to the stack, and the position moves past the match. When no
 * rule matches, lexing stops and the tokens found so far are the result.
 *
 * Regular expressions are not modelled: a matcher is a parameter that, given
 * a rule pattern and the remaining input, reports the match anchored at its
 * start (its length and capture-group values), or nothing.
 */
module Lexing {
  import opened Wrappers
  import opened LexerTypes
  import opened LexerBuilders

  /** A match of `^(?:pattern)` against the remaining input. */
  datatype RegexMatch = RegexMatch(length: nat, captures: seq<string>)

  type Matcher = (string, string) -> Option<RegexMatch>

  /** A real anchored match never extends beyond the input it was run on. */
  ghost predicate Anchored(matcher: Matcher) {
    forall pattern, input :: matcher(pattern, input).Some? ==> matcher(pattern, input).value.length <= |input|
  }

  datatype Lexer = Lexer(stateDefinitions: seq<StateDefinition>)

  /** new Lexer(states): refused when there is no state. */
  function NewLexer(states: seq<StateDefinition>): (r: Result<Lexer, LexerError>)
    ensures r.Ok? <==> |states| > 0
    ensures r.Ok? ==> r.value.stateDefinitions == states
    ensures r.Err? ==> r.error == NoStates
  {
    if |states| == 0 then Err(NoStates) else Ok(Lexer(states))
  }

  /** Lexer.stateless(rules): a lexer with the single state "main". */
  function Stateless(rules: seq<RuleShorthand>): (r: Result<Lexer, LexerError>)
    ensures r.Ok? <==> |rules| > 0
    ensures r.Ok? ==> |r.value.stateDefinitions| == 1
    ensures r.Ok? ==> r.value.stateDefinitions[0].name == "main" && |r.value.stateDefinitions[0].rules| == |rules|
    ensures r.Ok? ==> forall k :: 0 <= k < |rules| ==> r.value.stateDefinitions[0].rules[k] == NormalizeRule(rules[k])
    ensures r.Err? ==> r.error == NoRules("main")
  {
    var main :- State("main", rules);
    NewLexer([main])
  }

  /** The first state definition with the given name (`find`). */
  function FindState(defs: seq<StateDefinition>, name: Option<string>): (r: Option<StateDefinition>)
    ensures r.Some? ==> name == Some(r.value.name) && r.value in defs
    ensures r.Some? ==> exists k :: 0 <= k < |defs| && defs[k] == r.value && forall j :: 0 <= j < k ==> name != Some(defs[j].name)
    ensures r.None? ==> forall k :: 0 <= k < |defs| ==> name != Some(defs[k].name)
  {
    if |defs| == 0 then None
    else if name == Some(defs[0].name) then
      assert defs[0] == defs[0];
      Some(defs[0])
    else
      var r := FindState(defs[1..], name);
      if r.Some? then
        var k :| 0 <= k < |defs[1..]| && defs[1..][k] == r.value && forall j :: 0 <= j < k ==> name != Some(defs[1..][j].name);
        assert defs[k + 1] == r.value;
        assert forall j :: 0 < j < k + 1 ==> defs[j] == defs[1..][j - 1];
        r
      else r
  }

  /** The first stack entry that names no state, if any. */
  function FirstUndefined(stack: seq<string>, defs: seq<StateDefinition>): (r: Option<string>)
    ensures r.Some? ==> r.value in stack && FindState(defs, r).None?
    ensures r.Some? ==>
      exists k :: 0 <= k < |stack| && stack[k] == r.value && forall j :: 0 <= j < k ==> FindState(defs, Some(stack[j])).Some?
    ensures r.None? ==> forall k :: 0 <= k < |stack| ==> FindState(defs, Some(stack[k])).Some?
  {
    if |stack| == 0 then None
    else if FindState(defs, Some(stack[0])).None? then
      assert stack[0] == stack[0];
      Some(stack[0])
    else
      var r := FirstUndefined(stack[1..], defs);
      if r.Some? then
        var k :| 0 <= k < |stack[1..]| && stack[1..][k] == r.value
          && forall j :: 0 <= j < k ==> FindState(defs, Some(stack[1..][j])).Some?;
        assert stack[k + 1] == r.value;
        assert forall j :: 0 < j < k + 1 ==> stack[j] == stack[1..][j - 1];
        r
      else r
  }

  /** The index of the first rule whose pattern matches, with its match. */
  function FirstMatch(rules: seq<Rule>, input: string, matcher: Matcher): (r: Option<(nat, RegexMatch)>)
    ensures r.Some? ==> r.value.0 < |rules| && matcher(rules[r.value.0].pattern, input) == Some(r.value.1)
    ensures r.Some? ==> forall j :: 0 <= j < r.value.0 ==> matcher(rules[j].pattern, input).None?
    ensures r.None? ==> forall j :: 0 <= j < |rules| ==> matcher(rules[j].pattern, input).None?
  {
    FirstMatchFrom(rules, input, matcher, 0)
  }

  /** The first matching rule at index `k` or later. */
  function FirstMatchFrom(rules: seq<Rule>, input: string, matcher: Matcher, k: nat): (r: Option<(nat, RegexMatch)>)
    requires k <= |rules|
    ensures r.Some? ==> k <= r.value.0 < |rules| && matcher(rules[r.value.0].pattern, input) == Some(r.value.1)
    ensures r.Some? ==> forall j :: k <= j < r.value.0 ==> matcher(rules[j].pattern, input).None?
    ensures r.None? ==> forall j :: k <= j < |rules| ==> matcher(rules[j].pattern, input).None?
    decreases |rules| - k
  {
    if k == |rules| then None
    else match matcher(rules[k].pattern, input)
      case Some(m) => Some((k, m))
      case None => FirstMatchFrom(rules, input, matcher, k + 1)
  }

  /** The stack after a rule's action, or the error a pop from the last state raises. */
  function ApplyAction(stack: seq<string>, action: Option<Action>): (r: Result<seq<string>, LexerError>)
    requires |stack| > 0
    ensures r.Ok? ==> |r.value| > 0
    ensures r.Err? <==> action == Some(Pop) && |stack| == 1
    ensures r.Err? ==> r.error == PopFromLast(stack[0])
    // no action leaves the stack alone
    ensures action.None? ==> r == Ok(stack)
    // next replaces the top, keeping everything below it
    ensures action.Some? && action.value.Next? ==>
      r.Ok? && |r.value| == |stack| && r.value[..|stack| - 1] == stack[..|stack| - 1] && r.value[|stack| - 1] == action.value.value
    // push puts a new top over the whole stack
    ensures action.Some? && action.value.Push? ==>
      r.Ok? && |r.value| == |stack| + 1 && r.value[..|stack|] == stack && r.value[|stack|] == action.value.value
    // pop drops the top, unless it is the only state left
    ensures action == Some(Pop) && |stack| > 1 ==> r == Ok(stack[..|stack| - 1])
  {
    match action
    case None => Ok(stack)
    case Some(Next(v)) => Ok(stack[..|stack| - 1] + [v])
    case Some(Push(v)) => Ok(stack + [v])
    case Some(Pop) => if |stack| == 1 then Err(PopFromLast(stack[0])) else Ok(stack[..|stack| - 1])
  }

  datatype LexState = LexState(stack: seq<string>, pos: nat, tokens: seq<Token>)

  datatype Step = Continue(next: LexState) | Halt | Fail(error: LexerError)

  /** One iteration of the main loop, at a position inside the input. */
  function StepAt(lexer: Lexer, source: string, tracking: bool, matcher: Matcher, st: LexState): Step
    requires st.pos < |source|
  {
    var current := if |st.stack| > 0 then Some(st.stack[|st.stack| - 1]) else None;
    match FindState(lexer.stateDefinitions, current)
    case None => Fail(InvalidState(current))
    case Some(def) =>
      match FirstMatch(def.rules, source[st.pos..], matcher)
      case None => Halt
      case Some((k, m)) =>
        var rule := def.rules[k];
        if m.length == 0 && rule.action.None? then Fail(Stalled(rule))
        else
          var position := if tracking then Position(st.pos, st.pos + m.length) else Position(0, 0);
          var tokens := if rule.discard then st.tokens else st.tokens + [Token(rule.name, m.captures, position)];
          match ApplyAction(st.stack, rule.action)
          case Err(e) => Fail(e)
          case Ok(stack) => Continue(LexState(stack, st.pos + m.length, tokens))
  }

  /** The main loop, run for at most `fuel` iterations. */
  function Run(lexer: Lexer, source: string, tracking: bool, matcher: Matcher, st: LexState, fuel: nat): Result<seq<Token>, LexerError>
    decreases fuel
  {
    if st.pos >= |source| then Ok(st.tokens)
    else if fuel == 0 then Err(OutOfFuel)
    else match StepAt(lexer, source, tracking, matcher, st)
      case Halt => Ok(st.tokens)
      case Fail(e) => Err(e)
      case Continue(next) => Run(lexer, source, tracking, matcher, next, fuel - 1)
  }

  /** The stack lexing starts from: the given one, or the first state. */
  function InitialStack(lexer: Lexer, initialState: Option<seq<string>>): seq<string>
    requires |lexer.stateDefinitions| > 0
  {
    initialState.GetOr([lexer.stateDefinitions[0].name])
  }

  /** What tokenize returns or raises. */
  function Tokenization(lexer: Lexer, source: string, initialState: Option<seq<string>>, positionTracking: Option<bool>,
                        matcher: Matcher, fuel: nat): Result<seq<Token>, LexerError>
    requires |lexer.stateDefinitions| > 0
  {
    var stack := InitialStack(lexer, initialState);
    match FirstUndefined(stack, lexer.stateDefinitions)
    case Some(name) => Err(UndefinedState(name))
    case None => Run(lexer, source, positionTracking != Some(false), matcher, LexState(stack, 0, []), fuel)
  }

  /** tokenize(source, initialState?, {positionTracking}): the loop, against its specification. */
  method Tokenize(lexer: Lexer, source: string, initialState: Option<seq<string>>, positionTracking: Option<bool>,
                  matcher: Matcher, fuel: nat) returns (r: Result<seq<Token>, LexerError>)
    requires |lexer.stateDefinitions| > 0
    ensures r == Tokenization(lexer, source, initialState, positionTracking, matcher, fuel)
  {
    var stack := if initialState.Some? then initialState.value else [lexer.stateDefinitions[0].name];
    var undefined := CheckStack(stack, lexer.stateDefinitions);
    if undefined.Some? {
      return Err(UndefinedState(undefined.value));
    }
    r := RunLoop(lexer, source, positionTracking != Some(false), matcher, LexState(stack, 0, []), fuel);
  }

  /** The check that every state on the initial stack is defined. */
  method CheckStack(stack: seq<string>, defs: seq<StateDefinition>) returns (undefined: Option<string>)
    ensures undefined == FirstUndefined(stack, defs)
  {
    var i := 0;
    while i < |stack|
      invariant 0 <= i <= |stack|
      invariant FirstUndefined(stack, defs) == FirstUndefined(stack[i..], defs)
    {
      if FindState(defs, Some(stack[i])).None? {
        return Some(stack[i]);
      }
      assert stack[i..][1..] == stack[i + 1..];
      i := i + 1;
    }
    return None;
  }

  /** The main loop of tokenize, from a given state, for at most `fuel` iterations. */
  method RunLoop(lexer: Lexer, source: string, tracking: bool, matcher: Matcher, start: LexState, fuel: nat)
    returns (r: Result<seq<Token>, LexerError>)
    ensures r == Run(lexer, source, tracking, matcher, start, fuel)
  {
    var st := start;
    var budget := fuel;
    while st.pos < |source|
      invariant Run(lexer, source, tracking, matcher, st, budget) == Run(lexer, source, tracking, matcher, start, fuel)
      decreases budget
    {
      if budget == 0 {
        return Err(OutOfFuel);
      }
      var step := LexStep(lexer, source, tracking, matcher, st);
      match step
      case Halt => return Ok(st.tokens);
      case Fail(e) => return Err(e);
      case Continue(next) =>
        st := next;
        budget := budget - 1;
    }
    return Ok(st.tokens);
  }

  /** The body of the main loop: find the state, try its rules in order, act on the first match. */
  method LexStep(lexer: Lexer, source: string, tracking: bool, matcher: Matcher, st: LexState) returns (step: Step)
    requires st.pos < |source|
    ensures step == StepAt(lexer, source, tracking, matcher, st)
  {
    var stack := st.stack;
    var current := if |stack| > 0 then Some(stack[|stack| - 1]) else None;
    var definition := FindState(lexer.stateDefinitions, current);
    if definition.None? {
      return Fail(InvalidState(current));
    }
    var rules := definition.value.rules;
    var slice := source[st.pos..];
    var k := 0;
    while k < |rules|
      invariant 0 <= k <= |rules|
      invariant FirstMatch(rules, slice, matcher) == FirstMatchFrom(rules, slice, matcher, k)
    {
      var m := matcher(rules[k].pattern, slice);
      if m.Some? {
        var rule := rules[k];
        var value := m.value;
        if value.length == 0 && rule.action.None? {
          return Fail(Stalled(rule));
        }
        var tokens := st.tokens;
        if !rule.discard {
          var position := if tracking then Position(st.pos, st.pos + value.length) else Position(0, 0);
          tokens := tokens + [Token(rule.name, value.captures, position)];
        }
        var next := ApplyAction(stack, rule.action);
        if next.Err? {
          return Fail(next.error);
        }
        return Continue(LexState(next.value, st.pos + value.length, tokens));
      }
      k := k + 1;
    }
    return Halt;
  }

  /**
   * Tokens lie within what has been read, in source order and without
   * overlap; with position tracking off every position is [0, 0].
   */
  ghost predicate WellPlaced(tokens: seq<Token>, pos: nat, tracking: bool) {
    if tracking then
      && (forall k :: 0 <= k < |tokens| ==> tokens[k].position.start <= tokens[k].position.end <= pos)
      && (forall i, j :: 0 <= i < j < |tokens| ==> tokens[i].position.end <= tokens[j].position.start)
    else
      forall k :: 0 <= k < |tokens| ==> tokens[k].position == Position(0, 0)
  }

  /** Some state of the lexer has a rule with this name. */
  ghost predicate IsRuleName(lexer: Lexer, name: string) {
    exists d, r :: d in lexer.stateDefinitions && r in d.rules && r.name == name
  }

  ghost predicate Invariant(lexer: Lexer, source: string, tracking: bool, st: LexState) {
    && st.pos <= |source|
    && WellPlaced(st.tokens, st.pos, tracking)
    && (forall k :: 0 <= k < |st.tokens| ==> IsRuleName(lexer, st.tokens[k].tokenType))
  }

  /**
   * One step keeps the invariant and never moves backwards.
   */
  lemma StepPreserves(lexer: Lexer, source: string, tracking: bool, matcher: Matcher, st: LexState)
    requires Anchored(matcher)
    requires st.pos < |source| && Invariant(lexer, source, tracking, st)
    ensures StepAt(lexer, source, tracking, matcher, st).Continue? ==>
      var next := StepAt(lexer, source, tracking, matcher, st).next;
      Invariant(lexer, source, tracking, next) && st.pos <= next.pos
  {
    var current := if |st.stack| > 0 then Some(st.stack[|st.stack| - 1]) else None;
    var def := FindState(lexer.stateDefinitions, current);
    if def.Some? {
      var slice := source[st.pos..];
      var found := FirstMatch(def.value.rules, slice, matcher);
      if found.Some? {
        var (k, m) := found.value;
        var rule := def.value.rules[k];
        assert rule in def.value.rules;
        assert IsRuleName(lexer, rule.name);
        assert m.length <= |slice|;
        var end := st.pos + m.length;
        WellPlacedWeaken(st.tokens, st.pos, end, tracking);
        if !rule.discard {
          var position := if tracking then Position(st.pos, end) else Position(0, 0);
          WellPlacedSnoc(st.tokens, st.pos, end, tracking, Token(rule.name, m.captures, position));
        }
      }
    }
  }

  /** A token spanning from the old position to the new one keeps the tokens well placed. */
  lemma WellPlacedSnoc(tokens: seq<Token>, pos: nat, end: nat, tracking: bool, t: Token)
    requires pos <= end && WellPlaced(tokens, pos, tracking)
    requires t.position == if tracking then Position(pos, end) else Position(0, 0)
    ensures WellPlaced(tokens + [t], end, tracking)
  {
  }

  /** What every token list the lexer returns satisfies. */
  ghost predicate Final(lexer: Lexer, source: string, tracking: bool, tokens: seq<Token>) {
    && WellPlaced(tokens, |source|, tracking)
    && forall k :: 0 <= k < |tokens| ==> IsRuleName(lexer, tokens[k].tokenType)
  }

  lemma WellPlacedWeaken(tokens: seq<Token>, pos: nat, end: nat, tracking: bool)
    requires pos <= end && WellPlaced(tokens, pos, tracking)
    ensures WellPlaced(tokens, end, tracking)
  {
  }

  /**
   * Whatever the lexer returns satisfies the invariant at the end of the
   * input: every token comes from a rule and lies within the source, in order.
   */
  lemma {:induction false} RunPreserves(lexer: Lexer, source: string, tracking: bool, matcher: Matcher, st: LexState, fuel: nat)
    requires Anchored(matcher)
    requires Invariant(lexer, source, tracking, st)
    ensures Run(lexer, source, tracking, matcher, st, fuel).Ok? ==>
      Final(lexer, source, tracking, Run(lexer, source, tracking, matcher, st, fuel).value)
    decreases fuel
  {
    if st.pos >= |source| {
      assert Run(lexer, source, tracking, matcher, st, fuel) == Ok(st.tokens);
    } else if fuel > 0 {
      StepPreserves(lexer, source, tracking, matcher, st);
      match StepAt(lexer, source, tracking, matcher, st)
      case Continue(next) =>
        RunPreserves(lexer, source, tracking, matcher, next, fuel - 1);
      case Halt =>
        WellPlacedWeaken(st.tokens, st.pos, |source|, tracking);
      case Fail(_) =>
    }
  }

  /** tokenize's tokens are named after rules and, when tracked, are ordered spans of the source. */
  lemma TokenizationWellPlaced(lexer: Lexer, source: string, initialState: Option<seq<string>>, positionTracking: Option<bool>,
                               matcher: Matcher, fuel: nat)
    requires |lexer.stateDefinitions| > 0 && Anchored(matcher)
    ensures Tokenization(lexer, source, initialState, positionTracking, matcher, fuel).Ok? ==>
      Final(lexer, source, positionTracking != Some(false), Tokenization(lexer, source, initialState, positionTracking, matcher, fuel).value)
  {
    RunPreserves(lexer, source, positionTracking != Some(false), matcher, LexState(InitialStack(lexer, initialState), 0, []), fuel);
  }

  /**
   * What one step does: the position moves past the match exactly, a
   * discarding rule leaves the tokens as they were, and any other rule adds
   * one token named after it, carrying the match's capture groups.
   */
  lemma StepEffect(lexer: Lexer, source: string, tracking: bool, matcher: Matcher, st: LexState,
                   def: StateDefinition, k: nat, m: RegexMatch)
    requires st.pos < |source| && |st.stack| > 0
    requires FindState(lexer.stateDefinitions, Some(st.stack[|st.stack| - 1])) == Some(def)
    requires FirstMatch(def.rules, source[st.pos..], matcher) == Some((k, m))
    ensures var step := StepAt(lexer, source, tracking, matcher, st);
      step.Continue? ==>
        && step.next.pos == st.pos + m.length
        && (def.rules[k].discard ==> step.next.tokens == st.tokens)
        && (!def.rules[k].discard ==>
              && |step.next.tokens| == |st.tokens| + 1
              && step.next.tokens[..|st.tokens|] == st.tokens
              && step.next.tokens[|st.tokens|].tokenType == def.rules[k].name
              && step.next.tokens[|st.tokens|].values == m.captures
              && step.next.tokens[|st.tokens|].position
                   == (if tracking then Position(st.pos, st.pos + m.length) else Position(0, 0)))
        && Ok(step.next.stack) == ApplyAction(st.stack, def.rules[k].action)
    ensures StepAt(lexer, source, tracking, matcher, st).Fail? ==>
      (m.length == 0 && def.rules[k].action.None?) || (def.rules[k].action == Some(Pop) && |st.stack| == 1)
  {
  }

  /**
   * When no rule of the current state matches at the current position, the
   * lexer stops and returns the tokens produced so far.
   */
  lemma NoMatchStops(lexer: Lexer, source: string, tracking: bool, matcher: Matcher, st: LexState, fuel: nat,
                     def: StateDefinition)
    requires st.pos < |source| && fuel > 0 && |st.stack| > 0
    requires FindState(lexer.stateDefinitions, Some(st.stack[|st.stack| - 1])) == Some(def)
    requires FirstMatch(def.rules, source[st.pos..], matcher).None?
    ensures Run(lexer, source, tracking, matcher, st, fuel) == Ok(st.tokens)
  {
  }

  /** The lexer only ever appends to the tokens it has already produced. */
  lemma {:induction false} RunExtends(lexer: Lexer, source: string, tracking: bool, matcher: Matcher, st: LexState, fuel: nat)
    ensures Run(lexer, source, tracking, matcher, st, fuel).Ok? ==> st.tokens <= Run(lexer, source, tracking, matcher, st, fuel).value
    decreases fuel
  {
    if st.pos < |source| && fuel > 0 {
      match StepAt(lexer, source, tracking, matcher, st)
      case Continue(next) =>
        RunExtends(lexer, source, tracking, matcher, next, fuel - 1);
      case Halt =>
      case Fail(_) =>
    }
  }

  /**
   * Whenever the first rule to match in the current state matches the empty
   * string and has no action, the lexer fails with that rule rather than loop.
   */
  lemma EmptyMatchStalls(lexer: Lexer, source: string, tracking: bool, matcher: Matcher, st: LexState, fuel: nat,
                         def: StateDefinition, k: nat, m: RegexMatch)
    requires st.pos < |source| && fuel > 0 && |st.stack| > 0
    requires FindState(lexer.stateDefinitions, Some(st.stack[|st.stack| - 1])) == Some(def)
    requires FirstMatch(def.rules, source[st.pos..], matcher) == Some((k, m))
    requires m.length == 0 && def.rules[k].action.None?
    ensures Run(lexer, source, tracking, matcher, st, fuel) == Err(Stalled(def.rules[k]))
  {
    assert StepAt(lexer, source, tracking, matcher, st) == Fail(Stalled(def.rules[k]));
  }

  /**
   * A rule whose pattern matches the empty string, tried first and without an
   * action, makes the lexer fail rather than loop on any non-empty input.
   */
  lemma EmptyMatchStallsStateless(source: string, matcher: Matcher, fuel: nat)
    requires |source| > 0 && fuel > 0
    requires forall input :: matcher("", input) == Some(RegexMatch(0, []))
    ensures var lexer := Stateless([Tuple("nothing", Some(Text("")), None)]);
      lexer.Ok? && Tokenization(lexer.value, source, None, None, matcher, fuel) == Err(Stalled(MakeRule("nothing", Some(Text("")), NoOptions)))
  {
    var lexer := Stateless([Tuple("nothing", Some(Text("")), None)]).value;
    var rule := MakeRule("nothing", Some(Text("")), NoOptions);
    assert NormalizeRule(Tuple("nothing", Some(Text("")), None)) == rule;
    assert State("main", [Tuple("nothing", Some(Text("")), None)]).value.rules == [rule];
    assert lexer.stateDefinitions == [StateDefinition("main", [rule])];
    assert FirstMatch([rule], source[0..], matcher) == Some((0, RegexMatch(0, [])));
  }
}
