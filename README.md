# Lona language-tools grammar engine, modelled in Dafny

This project models the grammar engine of Lona's `language-tools`:

- **Lexer.** A state-stack lexer turns a string into tokens.
- **Pattern builders.** Helpers build grammars out of patterns.
- **Parser.** A memoizing, left-recursion-aware engine parses every alternative and rebuilds the first success into a parse tree.
- **Shaper.** It folds a parse tree into a plain JSON-like "shape" (`extract`) and rebuilds a tree from a shape (`inject`).
- **Printer.** It lays a parse tree out as a document of text, lines, indentation and groups.
- **Utilities.** The identifier cache, function memoisation and the `Sets` helpers, all used by the engine.

Modules:

- `Wrappers` holds `Option` and `Result`.
- `JsonValues` holds the shape values.
- `Decimal` is `String(n)` for naturals, with injectivity lemmas for the keys built from it.
- `Sets` covers `src/utils/Sets.ts`.
- `IdentifierCaches` covers `src/utils/identifierCache.ts`.
- `Memoize` covers `src/utils/memoize.ts`.
- `LexerTypes`, `LexerBuilders` and `Lexing` cover `src/lexer/`.
- `ParserTypes` holds patterns, matches and parse trees. It also models `rebuildParseTree`.
- `ParserBuilders` covers `src/parser/builders.ts`.
- `ParseResults` holds results, failures, left-recursion bookkeeping and the pure steps of the engine.
- `Parsing` is the engine, `src/parser/Parser.ts`.
- `Shaping` covers `src/shaper/Shaper.ts`.
- `Printing` covers `src/printer/Printer.ts`.

Modelling conventions:

- Objects whose fields change in place are classes with `modifies` clauses: the identifier cache, the memoisers, the pattern builder's id counter, and the parse context and parser.
- Loops are methods proved against specification functions.
- Recursive pure code is functions and lemmas.
- A pattern thunk is modelled as the name of an entry in a grammar map.
- Regular-expression matching is a parameter of the lexer model. It reports the match anchored at the start of the remaining input.

## Model

| member | source | states |
|---|---|---|
| Decimal.NatToStringInjective | src/utils/identifierCache.ts:26 | Distinct counters render to distinct decimal strings, so every handle issued is new. |
| Decimal.ParseNatToString | src/utils/identifierCache.ts:26 | Reading the decimal rendering of a counter gives the counter back. |
| Decimal.ColonKeyInjective | src/utils/memoize.ts:11-16 | A key `${n}:rest` determines both `n` and `rest`. |
| IdentifierCaches.IdentifierCache.Register | src/utils/identifierCache.ts:19-32 | A key already registered returns its existing handle and changes nothing. A new key gets handle `String(nextIndex)`, then the counter advances and both maps are extended. The two maps stay mutually inverse. |
| IdentifierCaches.IdentifierCache.Get | src/utils/identifierCache.ts:33 | Returns a value exactly for issued handles, and that value is the one cached under the handle. With `Register`'s contract, getting the handle of a registration gives back the value first registered under that key. |
| Memoize.KeyOfInjective | src/utils/memoize.ts:11-16 | When distinct values get distinct numbers, distinct argument lists get distinct keys. |
| Memoize.Memoized.Number | src/utils/memoize.ts:11-16 | A value gets the number it already had, or the next free number. Existing numbers never change. |
| Memoize.Memoized.Key | src/utils/memoize.ts:9-16 | Numbers every argument not seen before and returns the key built from the numbering: each argument's number followed by `:`. Existing numbers never change. |
| Memoize.Memoized.Call | src/utils/memoize.ts:1-23 | Returns exactly `f(values)`. Afterwards every argument has a number, and the numbers given earlier are kept. Cache entries already filled never change. |
| Memoize.DirectKeyInjective | src/utils/memoize.ts:31-35 | If no rendering contains a colon, equal direct keys hold exactly when the renderings are equal argument by argument. |
| Memoize.DirectKeyCollision | src/utils/memoize.ts:31-35 | The arguments `"a:b"` and `"a", "b"` produce the same direct key. |
| Memoize.MemoizedDirect.Call | src/utils/memoize.ts:25-42 | Returns `f` of the first arguments that produced the same key, which is `f(values)` for a key not seen before. Filled entries never change. |
| Sets.AddMembers | src/utils/Sets.ts:12 | Adding a member keeps members distinct and adds exactly that value. |
| Sets.FromSeqMembers | src/utils/Sets.ts:1-16 | A set built from a sequence is duplicate-free and has exactly the sequence's elements. |
| Sets.AddAll | src/utils/Sets.ts:29-31 | Adding the items one after the other gives the set built from everything added so far, in first-occurrence order. |
| Sets.FromSeqDistinct | src/utils/Sets.ts:52-54 | Copying the members of a set one by one reproduces it in the same order. |
| Sets.Map | src/utils/Sets.ts:1-16 | The result is the set of `f(value, index)` with 1-based indices, in first-occurrence order. |
| Sets.FlatMap | src/utils/Sets.ts:18-35 | The result is every member of every `f(value, index)`, in order, each once. |
| Sets.Merge | src/utils/Sets.ts:37-47 | The result is the union in first-met order: `x` is a member exactly when some input set holds it. |
| Sets.WithValue | src/utils/Sets.ts:49-59 | A copy of the set with the value added, unless already present. |
| LexerBuilders.NextAction | src/lexer/builders.ts:14-16 | A `next` action to the given state. |
| LexerBuilders.PushAction | src/lexer/builders.ts:18-20 | A `push` action of the given state. |
| LexerBuilders.PopAction | src/lexer/builders.ts:22-24 | A `pop` action. |
| LexerBuilders.MakeRule | src/lexer/builders.ts:48-62 | The pattern defaults to the name and a regular expression contributes its source. The rule discards only when asked. The action is the option's. |
| LexerBuilders.Keyword | src/lexer/builders.ts:37-39 | A rule whose pattern is the name followed by a word boundary, with no discard and no action. |
| LexerBuilders.MakeToken | src/lexer/builders.ts:72-88 | Values default to none and the position to `[0, 0]`. A single string is the one value, and the `value` option is ignored. |
| LexerBuilders.NormalizeRuleAgreesWithMakeRule | src/lexer/builders.ts:102-121 | A bare name or a tuple normalizes to the rule that `rule()` builds from the same parts. A string third element means a `next` action. |
| LexerBuilders.NormalizeRule | src/lexer/builders.ts:102-121 | A full rule is returned as it is. |
| LexerBuilders.State | src/lexer/builders.ts:123-132 | Fails exactly on an empty rule list. Otherwise it is the named state with every rule normalized, in order. |
| Lexing.NewLexer | src/lexer/Lexer.ts:17-23 | Refused exactly when there is no state. |
| Lexing.Stateless | src/lexer/Lexer.ts:13-15 | One state named `main` whose rules are the shorthands, each normalized, in order. It is refused with `NoRules` exactly when there are no rules. |
| Lexing.FindState | src/lexer/Lexer.ts:45-47 | Returns the first definition with the name, every earlier definition having another name, or none when no definition has it. |
| Lexing.FirstUndefined | src/lexer/Lexer.ts:32-36 | Returns the first stack entry that names no state, every earlier entry naming one, or none when all are defined. |
| Lexing.FirstMatch | src/lexer/Lexer.ts:58-63 | Returns the first rule whose pattern matches. Every earlier rule fails, and none means no rule matches. |
| Lexing.ApplyAction | src/lexer/Lexer.ts:85-103 | No action leaves the stack as it is. Next replaces the top and keeps what is below, push puts a new top over the whole stack, and pop drops the top. It fails exactly on a pop from a one-entry stack. |
| Lexing.Tokenize | src/lexer/Lexer.ts:25-121 | The loop returns exactly what the step-by-step specification `Tokenization` gives. |
| Lexing.RunLoop | src/lexer/Lexer.ts:42-118 | The main loop, from any state, returns exactly what the step-by-step specification `Run` gives with the same fuel. |
| Lexing.LexStep | src/lexer/Lexer.ts:43-117 | One iteration of the main loop: find the state, try rules in order, reject a stalled empty match, emit a token unless discarded, apply the action and advance. |
| Lexing.StepPreserves | src/lexer/Lexer.ts:74-105 | One step never moves backwards. Every token names a rule, and tracked positions stay ordered and within what was read. |
| Lexing.StepEffect | src/lexer/Lexer.ts:58-105 | A step that continues advances by exactly the match length. Unless the rule discards, it appends one token with the rule's name and captures. That token spans `[pos, pos + length)` when positions are tracked and `(0, 0)` otherwise. A discarding rule leaves the tokens unchanged. The stack moves as `ApplyAction` says. A step fails only on a stalled empty match or a pop from the last state. |
| Lexing.RunPreserves | src/lexer/Lexer.ts:42-118 | Every token list the loop returns satisfies that invariant at the end of the input. |
| Lexing.RunExtends | src/lexer/Lexer.ts:42-118 | The loop only ever appends to the tokens already produced. |
| Lexing.TokenizationWellPlaced | src/lexer/Lexer.ts:74-83 | Tokens name rules. With tracking they are ordered, non-overlapping spans of the source; without tracking every position is `[0, 0]`. |
| Lexing.NoMatchStops | src/lexer/Lexer.ts:111-119 | When no rule of the current state matches at the current position, the lexer stops and returns exactly the tokens produced so far. |
| Lexing.EmptyMatchStalls | src/lexer/Lexer.ts:66-72 | Whenever the first rule to match in the current state matches the empty string and has no action, the lexer fails with that rule's stall error instead of looping. |
| Lexing.EmptyMatchStallsStateless | src/lexer/Lexer.ts:13-15 | A stateless lexer whose only rule matches the empty string fails with that rule's stall error on any non-empty input. |
| ParserTypes.Rebuild | src/parser/Parser.ts:207-349 | A rebuilt tree carries the pattern it was rebuilt for. |
| ParserTypes.RebuildForget | src/parser/Parser.ts:207-349 | Rebuilding a fitting tree's own match gives back that tree. |
| ParserTypes.ConformsRebuild | src/parser/Parser.ts:207-349 | A match that conforms to a pattern rebuilds without error into a fitting tree whose match is that match. |
| ParserBuilders.LabelsOf | src/parser/builders.ts:47-54 | A string option stands for `{ as: string }`. |
| ParserBuilders.RangeDistinct | src/parser/builders.ts:26-28 | Ids drawn from successive counter values are pairwise distinct. |
| ParserBuilders.NormalizedIds | src/parser/builders.ts:37-45 | The ids of a freshly normalized pattern are exactly the counter values it consumed, in order. |
| ParserBuilders.Normalized | src/parser/builders.ts:37-45 | A pattern is kept as is, a list becomes a sequence and a function becomes a thunk. The counter advances by exactly the patterns created. |
| ParserBuilders.NormalizedIdsDistinct | src/parser/builders.ts:26-45 | Freshly built patterns have pairwise distinct ids, one per pattern created. |
| ParserBuilders.PatternBuilder.ResetId | src/parser/builders.ts:22-24 | The counter is back at 0. |
| ParserBuilders.PatternBuilder.Id | src/parser/builders.ts:26-28 | Returns the decimal counter and advances it by one. |
| ParserBuilders.PatternBuilder.NormalizePattern | src/parser/builders.ts:37-45 | Returns exactly what `Normalized` describes and leaves the counter where it says. |
| ParserBuilders.PatternBuilder.NormalizeEach | src/parser/builders.ts:63 | Normalizes the children left to right. The patterns and the counter are those `NormalizedEach` gives. |
| ParserBuilders.PatternBuilder.Consume | src/parser/builders.ts:47-54 | A consume pattern with the next id and the given labels. |
| ParserBuilders.PatternBuilder.Sequence | src/parser/builders.ts:56-66 | The id is drawn before the children, which are normalized in order. |
| ParserBuilders.PatternBuilder.Or | src/parser/builders.ts:68-83 | Refused when the count of type names differs from the count of alternatives. Otherwise the id is drawn first and the children are normalized in order. |
| ParserBuilders.PatternBuilder.TypedOr | src/parser/builders.ts:85-97 | Type names and alternatives are taken pairwise from the entries. |
| ParserBuilders.PatternBuilder.Many | src/parser/builders.ts:99-112 | The item is normalized, then the separator. |
| ParserBuilders.PatternBuilder.Optional | src/parser/builders.ts:114-128 | An option pattern with select and default. |
| ParserBuilders.PatternBuilder.Thunk | src/parser/builders.ts:130-139 | A thunk to the named grammar entry. |
| ParserBuilders.PatternBuilder.PrintLiteral | src/parser/builders.ts:141-143 | A literal with the next id. |
| ParserBuilders.PatternBuilder.PrintLine | src/parser/builders.ts:145-147 | A line of the given kind. |
| ParserBuilders.PatternBuilder.PrintIndent | src/parser/builders.ts:149-153 | An indent around the normalized value. |
| ParserBuilders.PatternBuilder.PrintGroup | src/parser/builders.ts:155-159 | A group around the normalized value. |
| ParserBuilders.PatternBuilder.PrintIf | src/parser/builders.ts:161-181 | A print-if with the given reference and markers. |
| ParserBuilders.PatternBuilder.PrintIndentedMany | src/parser/builders.ts:183-199 | Refused without an `as` name. Otherwise it is a group around a print-if (line after) around an indent around a print-if (line before) of the many, both keyed on its name, with ids in evaluation order. |
| ParserBuilders.PatternBuilder.Language | src/parser/builders.ts:201-210 | The grammar and the counter are exactly what `LanguageOf` gives from the counter before. The grammar's names are exactly the entries' names, and nothing else is added. |
| ParserBuilders.LanguageOf | src/parser/builders.ts:201-210 | The grammar's names are exactly the entries' names, and the counter never goes back. |
| ParserBuilders.LanguageLastWins | src/parser/builders.ts:201-210 | A name ends up with its last entry, normalized with the counter where all earlier entries left it. |
| ParseResults.FailureDescription | src/parser/Parser.ts:35-53 | The reason reported for each kind of failure. The found token is looked up, and is absent when its index is past the end. |
| ParseResults.LabelOf | src/parser/Parser.ts:454 | The memo label is the pattern's label for labelled kinds and its id otherwise. |
| ParseResults.MemoKeyInjective | src/parser/Parser.ts:455 | The key `${tokenIndex}:${label}` determines both the index and the label. |
| ParseResults.FindContext | src/parser/Parser.ts:464-470 | Returns the map of the first context entry at the index, or none when no entry has the index. |
| ParseResults.UpdateLeftRecContextSpec | src/parser/Parser.ts:970-988 | An index not yet present is appended with an empty map. Otherwise the key is set to the count in that index's map and every other entry is unchanged. |
| ParseResults.IsMoreConstrained | src/parser/Parser.ts:990-1018 | True exactly when every stored count is at most the current count for that key, where a missing current count is unbounded. |
| ParseResults.ConsumeResult | src/parser/Parser.ts:579-616 | Succeeds exactly when a token remains and matches, and then advances by one. At the end of input it fails with "tokens consumed"; otherwise it fails with "unexpected token". |
| ParseResults.Wrapped | src/parser/Parser.ts:554-577 | Successes are wrapped one-to-one, keeping end index and left-recursion map. Failures pass through unchanged. |
| ParseResults.OptionResults | src/parser/Parser.ts:865-894 | Every result becomes a success. A child success is present with its end; a child failure becomes an absent match at the start index. |
| ParseResults.ExtendSequence | src/parser/Parser.ts:618-698 | Each child success appends its match to the partial sequence. Failures are kept as they are. |
| ParseResults.ExtendMany | src/parser/Parser.ts:766-863 | Each child success appends an item, or a separator when one is due, and merges the left-recursion maps. |
| ParseResults.FirstSuccess | src/parser/Parser.ts:700-764 | Returns the index of the first success, every earlier result being a failure, or none when all fail. |
| ParseResults.OrOutcomeSpec | src/parser/Parser.ts:700-764 | A non-parallel or keeps only the first success. Otherwise it keeps all the results it saw, and every result kept was seen. |
| ParseResults.FinishResult | src/parser/Parser.ts:413-425 | A success that stops before the end becomes a "tokens remaining" failure carrying the remaining count. Everything else is unchanged. |
| ParseResults.ConsumeFailureDescribed | src/parser/Parser.ts:579-616 | A failed consume is reported as input exhausted or as a wrong token of the expected type. |
| ParseResults.FinishSound | src/parser/Parser.ts:413-425 | After finishing, every success ends at the last token and all results stay sound. |
| ParseResults.InfiniteRecursionAgreesBelowTen | src/parser/Parser.ts:527-539 | For handles below ten, the test as written agrees with the intended one. |
| ParseResults.InfiniteRecursionMisread | src/parser/Parser.ts:532 | With eleven pairwise distinct registered failures, handle `10` is read as handle `1`, in both directions. An infinite-recursion failure at handle 1 makes handle 10 count as one, and one at handle 10 is missed. |
| ParseResults.InfiniteRecursionMisreadsLongHandles | src/parser/Parser.ts:532 | For any registry and any handle of two digits or more, the test as written looks at the one-digit handle of its first digit. It disagrees with the intended test whenever exactly one of the two entries is the infinite-recursion failure. |
| Parsing.Report | src/parser/Parser.ts:391-394 | A failure report holds the next three tokens, fewer at the end, and the described reason. |
| Parsing.SelectOutcome | src/parser/Parser.ts:375-394 | Parsed exactly when some result succeeds, from the first success. Otherwise every failure is reported, in order. |
| Parsing.SelectSound | src/parser/Parser.ts:387-389 | From sound results, the selected tree fits the grammar, carries the pattern and records the first success; rebuilding never fails. |
| Parsing.LastInfiniteRecursion | src/parser/Parser.ts:527-539 | Returns the left-recursion map of the last infinite-recursion failure, or none when there is none. |
| Parsing.ParseContext.constructor | src/parser/Parser.ts:163-186 | A fresh context over the tokens and grammar, with empty memo and left-recursion tables, that satisfies the context invariant. |
| Parsing.Parser.constructor | src/parser/Parser.ts:201-205 | Options are stored; verbosity defaults to false. |
| Parsing.Parser.ParseOne | src/parser/Parser.ts:351-395 | Unless aborted, the outcome is `SelectOutcome` of the finished parse results: the tree of the first full-input success, or one report per failure. It is never a malformed rebuild, and a parsed tree carries the pattern and fits the grammar. |
| Parsing.Parser.Parse | src/parser/Parser.ts:397-426 | The results are `FinishResults` of the sound inner results: a success short of the end becomes a "tokens remaining" failure. Every success left ends at the last token. |
| Parsing.Parser.ParseMemoizedInner | src/parser/Parser.ts:448-552 | Reusable memoized results are returned as they are. Otherwise a non-thunk, non-consume key entered more than `tokens - i + 1` times gives one infinite-recursion failure with the context at `i`, or `ImplementationError` when there is none; neither changes the tables. Any other entry raises the key's count and appends the successes to its memo entry. Counts and memo entries never shrink, and every result is sound. |
| Parsing.Parser.ParseEntered | src/parser/Parser.ts:509-551 | Past the reuse and cut-off checks, the key's count is raised and the successes are appended to its memo entry. Memo and counts only grow, and every result is sound. |
| Parsing.Parser.MemoLookup | src/parser/Parser.ts:457-482 | Memoized results are reused exactly when the key has a success and the current context is at least as constrained. Reused results are sound. |
| Parsing.Parser.RecordRecursionContext | src/parser/Parser.ts:527-539 | The key's recorded map becomes that of the last infinite-recursion failure, and is untouched when there is none. |
| Parsing.Parser.Memoize | src/parser/Parser.ts:541-549 | The successes are appended to the key's memo entry. |
| Parsing.Parser.ParsePattern | src/parser/Parser.ts:938-967 | Consume gives `ConsumeResult`, a literal or a line succeeds in place, a thunk to a missing entry fails, a wrapper gives its child's results wrapped, and an option gives `OptionResults` of its child's. Memo and counts only grow, and every result is sound. |
| Parsing.Parser.ParseSingleChild | src/parser/Parser.ts:896-922 | A wrapper's results are its child's sound results, wrapped one-to-one by `Wrapped`. A thunk to a missing entry fails. |
| Parsing.Parser.ParseOption | src/parser/Parser.ts:865-894 | The results are `OptionResults` of the child's sound results: every child success present, every child failure an absent match at the start index. All are successes. |
| Parsing.Parser.ParseSequence | src/parser/Parser.ts:618-698 | The rounds form a `SequenceTrace`: each extends the previous round's partial matches by the next child's results. The result is the last round followed by the failures of every earlier round. Every result is sound. |
| Parsing.Parser.SequenceRound | src/parser/Parser.ts:633-690 | The new partials are `SequenceStep` of the old ones and the child's sound results, each success extended by its child's results. The failures among the old partials are returned separately. |
| Parsing.Parser.ParseOr | src/parser/Parser.ts:700-764 | The results are the or-outcome of what was seen. That is every alternative's tagged results in child order, cut just after the first success when the or is not parallel. Every result is sound. |
| Parsing.SeeAlternative | src/parser/Parser.ts:719-757 | Takes one alternative's results in order, tagging each success with the alternative's index. A non-parallel or stops at the first success, returns it alone and cuts what it saw there. Otherwise every result is seen and added to the accumulated set. |
| Parsing.Parser.ParseMany | src/parser/Parser.ts:766-863 | The states form a `ManyTrace` of `ManyStep` rounds from the empty start. It stops with no partial left, and the result is the matches finished along the way. Each is a sound success. |
| Parsing.Parser.ManyRound | src/parser/Parser.ts:780-860 | The new partials, finished matches and separator links are `ManyStep` of the old ones and the children's sound results. A partial is finished when its extension produced a failure, as its predecessor when it ends with a separator. The round state stays consistent. |
| Parsing.ManyStepSound | src/parser/Parser.ts:780-860 | One extension step of a many keeps its round state consistent. |
| Shaping.UnwrapWrap | src/shaper/Shaper.ts:34-36 | Unwrapping what `wrapShape` wrapped gives the shape back, for both unwrapValue (lines 125-137) and unwrapOptionalValue (lines 139-148). |
| Shaping.AssignLookup | src/shaper/Shaper.ts:64-65 | A key that only one sequence item provides takes that item's value in the merge. |
| Shaping.Extract | src/shaper/Shaper.ts:33-122 | Extraction fails only where a named option with a `select` has a present match, somewhere in the tree. |
| Shaping.ExtractOptionFails | src/shaper/Shaper.ts:107-117 | A named option whose present child extracted fails exactly when it has a `select` and the child's shape is null or undefined and differs from the default. The error names the selected field. |
| Shaping.ExtractAll | src/shaper/Shaper.ts:64 | Extracts every item in order. |
| Shaping.OrIndexRoundTrip | src/shaper/Shaper.ts:80-96 | The alternative index that inject recovers from the type name that extract wrote is the original index, for both type names and decimal indices. |
| Shaping.Inject | src/shaper/Shaper.ts:124-272 | An injected tree carries the pattern it was injected for. |
| Shaping.InjectNeedsNames | src/shaper/Shaper.ts:191-270 | An or, many or option without an `as` name is refused, and so is an option named `.`. |
| Shaping.ProvidesInject | src/shaper/Shaper.ts:124-272 | Injecting any value that supplies a fitting tree's data rebuilds exactly that tree. |
| Shaping.ExtractProvides | src/shaper/Shaper.ts:33-122 | For a reversible tree, extraction succeeds and its shape supplies the tree's data, reading only the tree's own fields. |
| Shaping.RoundTrip | src/shaper/Shaper.ts:33-272 | For a reversible tree that fits its grammar, `inject(extract(t), t.pattern)` gives back `t`. |
| Shaping.InjectFits | src/shaper/Shaper.ts:124-272 | Every tree inject builds fits the grammar and has the shape of a parse: one child per sequence element, a valid alternative, and one separator between items. |
| Printing.GetChildren | src/printer/Printer.ts:6-30 | The children of a node account for its whole tree except the node itself, and each child is strictly smaller. Walking the tree therefore terminates. |
| Printing.FindReference | src/printer/Printer.ts:32-40 | A found node has the reference as its `as` name and is the first such node of the tree in pre-order. None means no node of the tree has it. |
| Printing.TruthyUnlessEmptyMany | src/printer/Printer.ts:42-49 | On a tree shaped like a parse, a node is falsy exactly when it is a many with no children. |
| Printing.FormatSeparated | src/printer/Printer.ts:107-120 | The loop gives items alternating with separators. Separator `i` is emitted only when `i` is before the last item. |
| Printing.SurplusSeparatorsIgnored | src/printer/Printer.ts:111-117 | Separators after the one between the last two items never reach the document. |
| Printing.IndentedManyPadding | src/printer/Printer.ts:70-80 | For the layout printIndentedMany builds, with its own line pattern before and after, the two lines appear around the indented many exactly when it has items. |
| Printing.PrintIfMarkers | src/printer/Printer.ts:70-80 | A print-if prints its child, with its markers before and after exactly when the first node of the child, in pre-order, named by the reference is truthy. |
| Printing.FormatTerminal | src/printer/Printer.ts:85-97 | A literal prints its text. A line prints a hard line exactly for kind `hard`, a soft line exactly for `soft`, and a plain line otherwise. |

## Left out

- **Trampoline.** The engine's continuation stack (`delay`, `callcc`) is replaced by direct recursion. It runs one pending task at a time, in last-in-first-out order.
- **Fuel bounds.** The engine, the lexer loop and inject's thunk recursion each take a fuel bound. It stands for the depth or iteration count at which the program would overflow its stack or loop forever; running out is the error `OutOfFuel`.
- **Interned handles.** The engine interns results, matches, values, failures and maps through identifier caches and compares handles. The model compares values directly. The handle arithmetic behind the misread failure lookup is modelled separately (see Findings).
- **Object properties.** The identifier cache keeps its values in a plain object, so `get` of a name such as `toString` returns a function inherited from the object prototype instead of `undefined`; the model's `Get` has no inherited entries. A pattern built with `label: undefined` passes the `'label' in pattern` test, and the engine then memoises it under the label text `undefined`; `ParseResults.LabelOf` uses the pattern's id for a missing label instead.
- **Parsing.Parser.ParseOne:** requires that patterns are told apart by their memo labels. The engine keys its memo table by label alone, and two different patterns with the same label would share entries.
- **Unused parameters.** The `leftRecCount` and `verbose` arguments of `isMoreConstrained` are unused in the source and are not modelled. The `path` field of the context is not modelled either.
- **Rebuild mismatches.** When `rebuildParseTree` meets a match whose kind differs from the pattern's, the source does not report it. For a consume, print-line or print-literal match it returns a node of the pattern's kind. For a thunk match over a pattern that is not a thunk it throws when it calls `value()`. The model returns an error value for every mismatch.
- **Consume guard.** `parseConsume`'s `token &&` guard only rejects falsy tokens, which the model does not have.
- **Regular expressions.** They are not modelled. The lexer takes the anchored matcher as a parameter, and `keyword` contributes the source text `name\b`.
- **Lexer output.** Console output from the lexer is left out. The stop on unmatched input is modelled as returning the tokens so far.
- **`memoizeDirect` keys.** Arguments are rendered by a caller-given function, not JavaScript's `String`. Collisions are modelled by `DirectKeyCollision`.
- **Shape values.** They have no numbers or booleans. Properties inherited from prototypes, such as `length`, are not modelled. A token shape or or-shape is any shape value.
- **`Number(...)`.** Its whitespace, sign, decimal point, exponent and hexadecimal forms are not modelled. Only decimal digit strings are read as alternative indices.
- **Shaping.RoundTrip:** holds under `Reversible`. That covers a token conversion that inverts itself, non-null shapes under names, siblings that write disjoint fields, options whose present shape differs from their default, and or-shapes that convert back. Without those conditions the source does not round-trip either.
- **Shaping.Inject:** `assert` from `console` only logs and does not stop `inject`. A missing key is modelled as reading an absent field, which the model treats as an error only when the container is not an object.
- **Printing.TruthyUnlessEmptyMany:** the `match === null` case of `isTruthy` does not arise, because parsed and injected options leave an absent match undefined rather than null.
- **Printer rendering.** `print` is modelled only as wrapping the document in a group (`Printing.Print`). Prettier's `printDocToString` (width, indentation, line fitting) is not modelled.
- **Reference search order.** `findReference` uses tree-visit's `find`, which is taken to visit a node before its children and children left to right. tree-visit is not part of this model.
- **UTF-16 positions.** JavaScript's `length` and `slice` count UTF-16 code units, while the model's strings count characters. Token positions and match lengths differ on input outside the Basic Multilingual Plane.
- **Lexing.Tokenize:** the caller's `initialState` array is used as the stack itself and is changed in place by next, push and pop. The model copies it, so the caller never sees the final stack.
- **Unmatched capture groups.** A capture group that did not take part in the match is `undefined` in the token's values. The model's captures are strings and cannot express it.
- **Builder thunks.** A builder's function argument is modelled as the name of a grammar entry. `language` is modelled over an ordered list of entries. The key order of `Object.entries` (integer-like keys first) and the placement of a duplicate key (its first position with its last value) are not modelled.

## Findings

| source | as written | input that shows it | evidently intended | confidence | as-written member | corrected member |
|---|---|---|---|---|---|---|
| src/parser/Parser.ts:532 | `context.failures.get(result.value[0])` looks up the failure registered under the first character of the failure's handle | eleven registered failures with the infinite-recursion failure second: the failure with handle `10` is read as handle `1`, so it counts as infinite recursion; conversely an infinite-recursion failure with handle `10` is missed | look up `result.value` itself | not executed | ParseResults.InfiniteRecursionAsWritten | ParseResults.InfiniteRecursionIntended |
