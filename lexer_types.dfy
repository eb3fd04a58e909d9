/** The vocabulary of the lexer: state-stack actions, rules, states and tokens. */
module LexerTypes {
  import opened Wrappers

  /** What a matching rule does to the state stack. */
  datatype Action =
    | Next(value: string)   // replace the top of the stack
    | Push(value: string)   // enter a nested state
    | Pop                   // leave the current state

  /** A named regular-expression source, with an optional action and a discard flag. */
  datatype Rule = Rule(name: string, pattern: string, action: Option<Action>, discard: bool)

  datatype StateDefinition = StateDefinition(name: string, rules: seq<Rule>)

  /** A half-open range of source offsets. */
  datatype Position = Position(start: nat, end: nat)

  /** A token: the rule's name, the capture-group values and where it was found. */
  datatype Token = Token(tokenType: string, values: seq<string>, position: Position)

  /** The errors the lexer and its builders raise. */
  datatype LexerError =
    | NoStates                        // a lexer needs at least one state
    | NoRules(stateName: string)      // a state needs at least one rule
    | UndefinedState(name: string)    // an initial-stack entry names no state
    | InvalidState(current: Option<string>)  // the top of the stack names no state (or the stack is empty)
    | Stalled(rule: Rule)             // an empty match with no action would loop forever
    | PopFromLast(state: string)      // a pop would empty the stack
    | OutOfFuel                       // the step budget of the model ran out
}
