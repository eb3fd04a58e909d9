/**
 * The parsing engine: a memoizing, left-recursion-aware parser that explores
 * every alternative and returns all results. Continuations and the trampoline
 * that runs them are replaced by direct calls; a fuel bound stands for the
 * depth the program would otherwise recurse to.
 */
module Parsing {
  import opened Wrappers
  import opened Sets
  import opened ParserTypes
  import opened ParseResults

  /** What stops a parse without a result. */
  datatype ParseFault = ImplementationError | OutOfFuel | MissingThunkTarget(target: string)

  /** The pattern `p` is the one registered under its memo label. */
  ghost predicate LabelledIn(patterns: map<string, Pattern>, p: Pattern) {
    LabelOf(p) in patterns && patterns[LabelOf(p)] == p
  }

  /** The patterns parsing `p` descends into are registered under their labels. */
  ghost predicate ChildrenLabelledIn(g: Grammar, patterns: map<string, Pattern>, p: Pattern) {
    match p
    case SequencePattern(_, _, _, children, _) => forall k :: 0 <= k < |children| ==> LabelledIn(patterns, children[k])
    case OrPattern(_, _, _, children, _, _) => forall k :: 0 <= k < |children| ==> LabelledIn(patterns, children[k])
    case ManyPattern(_, _, _, value, separator) =>
      LabelledIn(patterns, value) && (separator.Some? ==> LabelledIn(patterns, separator.value))
    case OptionPattern(_, _, _, value, _, _) => LabelledIn(patterns, value)
    case ThunkPattern(_, _, _, target) => target in g ==> LabelledIn(patterns, g[target])
    case PrintIndentPattern(_, value) => LabelledIn(patterns, value)
    case PrintGroupPattern(_, value) => LabelledIn(patterns, value)
    case PrintIfPattern(_, value, _, _, _) => LabelledIn(patterns, value)
    case _ => true
  }

  /**
   * Memo entries are keyed by token index and label only, so the patterns a
   * parse visits must be told apart by their labels: `patterns` maps each
   * label to the one pattern carrying it, and is closed under descent.
   */
  ghost predicate ClosedUnder(g: Grammar, patterns: map<string, Pattern>) {
    forall l :: l in patterns ==> LabelOf(patterns[l]) == l && ChildrenLabelledIn(g, patterns, patterns[l])
  }

  /** A memo entry holds sound successes of the pattern and index its key was computed for. */
  ghost predicate EntryFits<V>(g: Grammar, n: nat, patterns: map<string, Pattern>, key: string,
                               entry: seq<ParseResult<V>>, source: (nat, Pattern))
  {
    && key == MemoKey(source.0, LabelOf(source.1)) && LabelledIn(patterns, source.1) && source.0 <= n
    && forall k :: 0 <= k < |entry| ==> entry[k].Success? && Sound(g, n, source.1, source.0, entry[k])
  }

  /** Appending sound successes to the entry of their own key keeps that entry fitting. */
  lemma AppendFits<V>(g: Grammar, n: nat, patterns: map<string, Pattern>, key: string, i: nat, p: Pattern,
                      before: seq<ParseResult<V>>, source: (nat, Pattern), results: seq<ParseResult<V>>)
    requires LabelledIn(patterns, p) && i <= n && key == MemoKey(i, LabelOf(p))
    requires before == [] || EntryFits(g, n, patterns, key, before, source)
    requires AllSound(g, n, p, i, results)
    ensures EntryFits(g, n, patterns, key, before + Successes(results), (i, p))
  {
    if before != [] {
      SameKeySameSource(patterns, i, p, source.0, source.1);
    }
    var successes := Successes(results);
    var entry := before + successes;
    forall k | 0 <= k < |entry|
      ensures entry[k].Success? && Sound(g, n, p, i, entry[k])
    {
      if k >= |before| {
        assert entry[k] == successes[k - |before|];
      }
    }
  }

  /** Two labelled patterns sharing a memo key are the same pattern at the same index. */
  lemma SameKeySameSource(patterns: map<string, Pattern>, i: nat, p: Pattern, j: nat, q: Pattern)
    requires LabelledIn(patterns, p) && LabelledIn(patterns, q)
    requires MemoKey(i, LabelOf(p)) == MemoKey(j, LabelOf(q))
    ensures i == j && p == q
  {
    MemoKeyInjective(i, LabelOf(p), j, LabelOf(q));
  }

  /** The shared state of one parse. */
  class ParseContext<T, V(==)> {
    const tokens: seq<T>
    const grammar: Grammar
    ghost const patterns: map<string, Pattern>
    /** Per memo key, the successes found so far. */
    var memo: map<string, seq<ParseResult<V>>>
    /** Per memo key, how many times it has been entered. */
    var leftRecCount: map<string, nat>
    /** Per memo key, the left-recursion map of its latest infinite-recursion failure. */
    var leftRecContextOfResult: map<string, LeftRecMap>
    /** Per memo key, the token index and pattern it was computed for. */
    ghost var memoSource: map<string, (nat, Pattern)>

    ghost predicate MemoEntry(key: string)
      reads this
      requires key in memo && key in memoSource
    {
      EntryFits(grammar, |tokens|, patterns, key, memo[key], memoSource[key])
    }

    /** Every memoized result is a sound success of the pattern and index its key names. */
    ghost predicate Valid()
      reads this
    {
      && ClosedUnder(grammar, patterns)
      && memo.Keys == memoSource.Keys
      && forall key :: key in memo ==> MemoEntry(key)
    }

    constructor(tokens: seq<T>, grammar: Grammar, ghost patterns: map<string, Pattern>)
      requires ClosedUnder(grammar, patterns)
      ensures Valid()
      ensures this.tokens == tokens && this.grammar == grammar && this.patterns == patterns
      ensures memo == map[] && leftRecCount == map[] && leftRecContextOfResult == map[]
    {
      this.tokens := tokens;
      this.grammar := grammar;
      this.patterns := patterns;
      memo := map[];
      leftRecCount := map[];
      leftRecContextOfResult := map[];
      memoSource := map[];
    }
  }

  /** A partial sequence match over the first `round` children. */
  ghost predicate SequencePartial<V>(g: Grammar, n: nat, p: Pattern, i: nat, round: nat, x: ParseResult<V>)
    requires p.SequencePattern? && round <= |p.children|
  {
    && i <= x.tokenIndex <= n
    && (x.Success? ==>
         && x.matched.SequenceMatch? && |x.matched.items| == round
         && forall k :: 0 <= k < round ==> Conforms(g, x.matched.items[k], p.children[k]))
  }

  /** Extending a partial sequence by sound results of the next child gives partial sequences one child longer. */
  lemma ExtendSequencePartial<V>(g: Grammar, n: nat, p: Pattern, i: nat, matchIndex: nat,
                                 partial: ParseResult<V>, rs: seq<ParseResult<V>>)
    requires p.SequencePattern? && matchIndex < |p.children|
    requires partial.Success? && SequencePartial(g, n, p, i, matchIndex, partial)
    requires AllSound(g, n, p.children[matchIndex], partial.tokenIndex, rs)
    ensures forall j :: 0 <= j < |rs| ==> SequencePartial(g, n, p, i, matchIndex + 1, ExtendSequence(partial, rs)[j])
  {
    var extended := ExtendSequence(partial, rs);
    forall j | 0 <= j < |rs|
      ensures SequencePartial(g, n, p, i, matchIndex + 1, extended[j])
    {
      assert Sound(g, n, p.children[matchIndex], partial.tokenIndex, rs[j]);
      if extended[j].Success? {
        var items := extended[j].matched.items;
        assert items == partial.matched.items + [rs[j].matched];
        assert forall m :: 0 <= m < matchIndex ==> items[m] == partial.matched.items[m];
      }
    }
  }

  /** A partial many match: either as many separators as items, or one fewer. */
  ghost predicate ManyPartial<V>(g: Grammar, n: nat, p: Pattern, i: nat, x: ParseResult<V>)
    requires p.ManyPattern?
  {
    && x.Success? && x.matched.ManyMatch? && i <= x.tokenIndex <= n
    && (forall k :: 0 <= k < |x.matched.items| ==> Conforms(g, x.matched.items[k], p.value))
    && (p.separator.None? ==> x.matched.separators == [])
    && (p.separator.Some? ==>
         && (|x.matched.separators| == |x.matched.items| || |x.matched.separators| + 1 == |x.matched.items|)
         && forall k :: 0 <= k < |x.matched.separators| ==> Conforms(g, x.matched.separators[k], p.separator.value))
  }

  /** A partial many match that ends with a separator still waiting for its item. */
  predicate AfterSeparator<V>(p: Pattern, x: ParseResult<V>) {
    && p.ManyPattern? && p.separator.Some? && x.Success? && x.matched.ManyMatch?
    && |x.matched.items| > 0 && |x.matched.separators| == |x.matched.items|
  }

  /** The parse of one pattern, or why there is none. */
  datatype Outcome<T, V> =
    | Parsed(tree: ParseTree<V>)
    | Rejected(reports: seq<FailureReport<T>>)
    | Malformed(error: RebuildError)
    | Aborted(fault: ParseFault)

  /** A failure as reported to the caller: the next three tokens and the reason. */
  datatype FailureReport<T> = FailureReport(tokens: seq<T>, reason: Reason<T>)

  function Report<T, V>(tokens: seq<T>, r: ParseResult<V>): (f: FailureReport<T>)
    requires r.Failure?
    ensures |f.tokens| <= 3
    ensures r.tokenIndex <= |tokens| ==> f.tokens == tokens[r.tokenIndex..if r.tokenIndex + 3 <= |tokens| then r.tokenIndex + 3 else |tokens|]
    ensures f.reason == FailureDescription(r.failure, tokens)
  {
    var start := if r.tokenIndex <= |tokens| then r.tokenIndex else |tokens|;
    var end := if start + 3 <= |tokens| then start + 3 else |tokens|;
    FailureReport(tokens[start..end], FailureDescription(r.failure, tokens))
  }

  /**
   * parseOne after parse: the first success is rebuilt into a tree; with no
   * success, every failure is reported.
   */
  function SelectOutcome<T, V>(g: Grammar, p: Pattern, tokens: seq<T>, rs: seq<ParseResult<V>>): (o: Outcome<T, V>)
    ensures !o.Aborted?
    ensures o.Parsed? || o.Malformed? <==> FirstSuccess(rs).Some?
    ensures o.Parsed? ==> Rebuild(g, rs[FirstSuccess(rs).value].matched, p) == Ok(o.tree)
    ensures o.Rejected? ==> |o.reports| == |rs| && forall k :: 0 <= k < |rs| ==> o.reports[k] == Report(tokens, rs[k])
  {
    var first := FirstSuccess(rs);
    if first.Some? then
      match Rebuild(g, rs[first.value].matched, p)
      case Ok(t) => Parsed(t)
      case Err(e) => Malformed(e)
    else
      Rejected(seq(|rs|, k requires 0 <= k < |rs| => Report(tokens, rs[k])))
  }

  /**
   * Sound, finished results select a tree that fits the grammar and records
   * the first success; a rebuild never goes wrong.
   */
  lemma SelectSound<T, V>(g: Grammar, p: Pattern, tokens: seq<T>, rs: seq<ParseResult<V>>)
    requires AllSound(g, |tokens|, p, 0, rs)
    ensures !SelectOutcome(g, p, tokens, rs).Malformed?
    ensures var o := SelectOutcome(g, p, tokens, rs);
      o.Parsed? ==> o.tree.pattern == p && Fits(g, o.tree) && Forget(o.tree) == rs[FirstSuccess(rs).value].matched
  {
    var first := FirstSuccess(rs);
    if first.Some? {
      ConformsRebuild(g, rs[first.value].matched, p);
    }
  }

  /** The latest infinite-recursion failure's left-recursion map, if any. */
  function LastInfiniteRecursion<V>(rs: seq<ParseResult<V>>): (r: Option<LeftRecMap>)
    ensures r.None? <==> forall k :: 0 <= k < |rs| ==> !(rs[k].Failure? && rs[k].failure == InfiniteRecursion)
    ensures r.Some? ==>
      exists k :: 0 <= k < |rs| && rs[k].Failure? && rs[k].failure == InfiniteRecursion && rs[k].leftRecMap == r.value &&
                  forall j :: k < j < |rs| ==> !(rs[j].Failure? && rs[j].failure == InfiniteRecursion)
  {
    if rs == [] then None
    else
      var last := rs[|rs| - 1];
      if last.Failure? && last.failure == InfiniteRecursion then Some(last.leftRecMap)
      else
        var r := LastInfiniteRecursion(rs[..|rs| - 1]);
        assert forall k :: 0 <= k < |rs| - 1 ==> rs[..|rs| - 1][k] == rs[k];
        r
  }

  /**
   * Between two states of one parse: memo entries are only ever extended,
   * and the count of times a key was entered only ever rises.
   */
  ghost predicate Grew<V>(memo: map<string, seq<ParseResult<V>>>, memo': map<string, seq<ParseResult<V>>>,
                          counts: map<string, nat>, counts': map<string, nat>)
  {
    && (forall key :: key in memo ==> key in memo' && memo[key] <= memo'[key])
    && (forall key :: key in counts ==> key in counts' && counts[key] <= counts'[key])
  }

  lemma GrewTrans<V>(memo: map<string, seq<ParseResult<V>>>, memo': map<string, seq<ParseResult<V>>>,
                     memo'': map<string, seq<ParseResult<V>>>,
                     counts: map<string, nat>, counts': map<string, nat>, counts'': map<string, nat>)
    requires Grew(memo, memo', counts, counts') && Grew(memo', memo'', counts', counts'')
    ensures Grew(memo, memo'', counts, counts'')
  {
    forall key | key in memo
      ensures key in memo'' && memo[key] <= memo''[key]
    {
      assert memo[key] == memo'[key][..|memo[key]|];
      assert memo'[key] == memo''[key][..|memo'[key]|];
    }
  }

  /** `tail` is a suffix of `s`. */
  predicate EndsWith<X(==)>(s: seq<X>, tail: seq<X>) {
    |tail| <= |s| && s[|s| - |tail|..] == tail
  }

  lemma EndsWithAppend<X>(s: seq<X>, tail: seq<X>)
    ensures EndsWith(s + tail, tail)
  {
    assert (s + tail)[|s|..] == tail;
  }

  /** How many times a key has been entered: 0 when it never was. */

  function EnteredCount(counts: map<string, nat>, key: string): nat {
    if key in counts then counts[key] else 0
  }

  /**
   * The memoized successes for `p` at `i` may be reused: the key has a
   * success, and the context they were computed under is at most as
   * constrained as the current context at `i`.
   */
  ghost predicate Reusable<V>(memo: map<string, seq<ParseResult<V>>>, ofResult: map<string, LeftRecMap>,
                              p: Pattern, i: nat, lrc: LeftRecContext)
  {
    var key := MemoKey(i, LabelOf(p));
    && key in memo && (exists k :: 0 <= k < |memo[key]| && memo[key][k].Success?)
    && MoreConstrained(
         if FindContext(lrc, i).Some? then FindContext(lrc, i).value else map[],
         if key in ofResult then ofResult[key] else map[])
  }

  /**
   * The left-recursion cut-off: a pattern other than a thunk or a consume
   * entered at `i` more often than there are tokens left, plus one.
   */
  predicate CutOff(p: Pattern, i: nat, n: nat, counts: map<string, nat>) {
    !p.ThunkPattern? && !p.ConsumePattern? && EnteredCount(counts, MemoKey(i, LabelOf(p))) > n - i + 1
  }

  /** A partial many match extends by a separator next when it has more items than separators. */
  predicate SeparatorDue<V>(p: Pattern, x: ParseResult<V>) {
    p.ManyPattern? && p.separator.Some? && x.Success? && x.matched.ManyMatch? && |x.matched.items| > |x.matched.separators|
  }

  /**
   * One round of a many, given for each partial match what its item (or
   * separator) gave from where it ended: the successes extend it; a match
   * produced by a separator is linked back to the match before it; and a
   * partial match for which any result failed is finished, as the match
   * before its trailing separator when it has one. The round's outcome is
   * the next partial matches, the finished matches and the links.
   */
  function ManyStep<V(==)>(p: Pattern, remaining: seq<ParseResult<V>>, cs: seq<seq<ParseResult<V>>>,
                           finished: seq<ParseResult<V>>, links: map<ParseResult<V>, ParseResult<V>>)
    : (seq<ParseResult<V>>, seq<ParseResult<V>>, map<ParseResult<V>, ParseResult<V>>)
    requires |cs| == |remaining|
  {
    if remaining == [] then ([], finished, links)
    else
      var k := |remaining| - 1;
      ManyStepOne(p, ManyStep(p, remaining[..k], cs[..k], finished, links), remaining[k], cs[k])
  }

  /** The part of a many round for one partial match `x`, given what its item (or separator) gave. */
  function ManyStepOne<V(==)>(p: Pattern, state: (seq<ParseResult<V>>, seq<ParseResult<V>>, map<ParseResult<V>, ParseResult<V>>),
                              x: ParseResult<V>, c: seq<ParseResult<V>>)
    : (seq<ParseResult<V>>, seq<ParseResult<V>>, map<ParseResult<V>, ParseResult<V>>)
  {
    var (following, finished, links) := state;
    if x.Success? && x.matched.ManyMatch? then
      var isSeparator := SeparatorDue(p, x);
      var next := ExtendMany(x, c, isSeparator);
      var linked := LinkSeparators(links, next, x, isSeparator);
      (following + next, FinishPartial(finished, linked, x, HasFailure(c)), linked)
    else state
  }

  lemma ManyStepSnoc<V>(p: Pattern, remaining: seq<ParseResult<V>>, cs: seq<seq<ParseResult<V>>>, c: seq<ParseResult<V>>,
                            finished: seq<ParseResult<V>>, links: map<ParseResult<V>, ParseResult<V>>)
    requires 0 < |remaining| && |cs| + 1 == |remaining|
    ensures ManyStep(p, remaining, cs + [c], finished, links)
      == ManyStepOne(p, ManyStep(p, remaining[..|cs|], cs, finished, links), remaining[|cs|], c)
  {
    assert (cs + [c])[..|cs|] == cs;
  }

  /** The pattern a many tries next after the partial match `x`: its separator when one is due, else its item. */
  function ManyChild<V>(p: Pattern, x: ParseResult<V>): Pattern
    requires p.ManyPattern?
  {
    if SeparatorDue(p, x) then p.separator.value else p.value
  }

  /** What the item or separator gave from the end of each partial match of a many round is sound. */
  ghost predicate ManyRoundSound<V>(g: Grammar, n: nat, p: Pattern, remaining: seq<ParseResult<V>>,
                                    cs: seq<seq<ParseResult<V>>>)
    requires p.ManyPattern?
  {
    && |cs| == |remaining|
    && forall k :: 0 <= k < |remaining| ==> AllSound(g, n, ManyChild(p, remaining[k]), remaining[k].tokenIndex, cs[k])
  }

  lemma ManyRoundSoundSnoc<V>(g: Grammar, n: nat, p: Pattern, remaining: seq<ParseResult<V>>,
                              cs: seq<seq<ParseResult<V>>>, c: seq<ParseResult<V>>)
    requires p.ManyPattern? && 0 < |remaining| && ManyRoundSound(g, n, p, remaining[..|remaining| - 1], cs)
    requires AllSound(g, n, ManyChild(p, remaining[|remaining| - 1]), remaining[|remaining| - 1].tokenIndex, c)
    ensures ManyRoundSound(g, n, p, remaining, cs + [c])
  {
    var last := |remaining| - 1;
    forall k | 0 <= k < last
      ensures AllSound(g, n, ManyChild(p, remaining[k]), remaining[k].tokenIndex, (cs + [c])[k])
    {
      assert remaining[..last][k] == remaining[k] && (cs + [c])[k] == cs[k];
    }
  }

  /**
   * The rounds of a many so far: the first starts from the empty match at
   * `i`, and each next state is the round of the one before over what the
   * item or separator gave.
   */
  ghost predicate ManyTrace<V>(g: Grammar, n: nat, p: Pattern, i: nat,
                                   states: seq<(seq<ParseResult<V>>, seq<ParseResult<V>>, map<ParseResult<V>, ParseResult<V>>)>,
                                   css: seq<seq<seq<ParseResult<V>>>>)
    requires p.ManyPattern?
  {
    && |states| == |css| + 1 && states[0] == ([ManyStart(i)], [], map[])
    && forall m :: 0 <= m < |css| ==>
         && |states[m].0| > 0 && ManyRoundSound(g, n, p, states[m].0, css[m])
         && states[m + 1] == ManyStep(p, states[m].0, css[m], states[m].1, states[m].2)
  }

  lemma ManyTraceSnoc<V>(g: Grammar, n: nat, p: Pattern, i: nat,
                             states: seq<(seq<ParseResult<V>>, seq<ParseResult<V>>, map<ParseResult<V>, ParseResult<V>>)>,
                             css: seq<seq<seq<ParseResult<V>>>>, cs: seq<seq<ParseResult<V>>>,
                             next: (seq<ParseResult<V>>, seq<ParseResult<V>>, map<ParseResult<V>, ParseResult<V>>))
    requires p.ManyPattern? && ManyTrace(g, n, p, i, states, css)
    requires |states[|css|].0| > 0 && ManyRoundSound(g, n, p, states[|css|].0, cs)
    requires next == ManyStep(p, states[|css|].0, cs, states[|css|].1, states[|css|].2)
    ensures ManyTrace(g, n, p, i, states + [next], css + [cs])
  {
    var states', css' := states + [next], css + [cs];
    forall m | 0 <= m < |css'|
      ensures && |states'[m].0| > 0 && ManyRoundSound(g, n, p, states'[m].0, css'[m])
              && states'[m + 1] == ManyStep(p, states'[m].0, css'[m], states'[m].1, states'[m].2)
    {
      assert states'[m] == states[m] && css'[m] == if m < |css| then css[m] else cs;
    }
  }

  /** The first partial match of a many: no items, no separators, where the many starts. */
  function ManyStart<V>(i: nat): ParseResult<V> {
    Success(ManyMatch([], []), i, map[])
  }

  /** The first partial match of a sequence: no children matched yet. */
  function SequenceStart<V>(i: nat): ParseResult<V> {
    Success(SequenceMatch([]), i, map[])
  }

  /** All of `rs` are partial sequences over the first `round` children. */
  ghost predicate AllPartial<V>(g: Grammar, n: nat, p: Pattern, i: nat, round: nat, rs: seq<ParseResult<V>>)
    requires p.SequencePattern? && round <= |p.children|
  {
    forall k :: 0 <= k < |rs| ==> SequencePartial(g, n, p, i, round, rs[k])
  }

  lemma AllPartialAppend<V>(g: Grammar, n: nat, p: Pattern, i: nat, round: nat, rs: seq<ParseResult<V>>,
                            more: seq<ParseResult<V>>)
    requires p.SequencePattern? && round <= |p.children|
    requires AllPartial(g, n, p, i, round, rs) && AllPartial(g, n, p, i, round, more)
    ensures AllPartial(g, n, p, i, round, rs + more)
  {
    forall k | 0 <= k < |rs + more|
      ensures SequencePartial(g, n, p, i, round, (rs + more)[k])
    {
      if k >= |rs| {
        assert (rs + more)[k] == more[k - |rs|];
      }
    }
  }

  /** All of `rs` are failures between `i` and the end of the tokens. */
  predicate FailuresWithin<V>(i: nat, n: nat, rs: seq<ParseResult<V>>) {
    forall k :: 0 <= k < |rs| ==> rs[k].Failure? && i <= rs[k].tokenIndex <= n
  }

  lemma FailuresWithinAppend<V>(i: nat, n: nat, rs: seq<ParseResult<V>>, more: seq<ParseResult<V>>)
    requires FailuresWithin(i, n, rs) && FailuresWithin(i, n, more)
    ensures FailuresWithin(i, n, rs + more)
  {
    forall k | 0 <= k < |rs + more|
      ensures (rs + more)[k].Failure? && i <= (rs + more)[k].tokenIndex <= n
    {
      if k >= |rs| {
        assert (rs + more)[k] == more[k - |rs|];
      }
    }
  }

  /**
   * What a child gave from the end of each result of a sequence round:
   * sound results of the child after a partial success, nothing after a
   * failure.
   */
  ghost predicate RoundSound<V>(g: Grammar, n: nat, child: Pattern, remaining: seq<ParseResult<V>>,
                                cs: seq<seq<ParseResult<V>>>)
  {
    && |cs| == |remaining|
    && forall k :: 0 <= k < |remaining| ==>
         && (remaining[k].Failure? ==> cs[k] == [])
         && (remaining[k].Success? ==> AllSound(g, n, child, remaining[k].tokenIndex, cs[k]))
  }

  lemma RoundSoundSnoc<V>(g: Grammar, n: nat, child: Pattern, remaining: seq<ParseResult<V>>,
                          cs: seq<seq<ParseResult<V>>>, c: seq<ParseResult<V>>)
    requires 0 < |remaining| && RoundSound(g, n, child, remaining[..|remaining| - 1], cs)
    requires remaining[|remaining| - 1].Failure? ==> c == []
    requires remaining[|remaining| - 1].Success? ==> AllSound(g, n, child, remaining[|remaining| - 1].tokenIndex, c)
    ensures RoundSound(g, n, child, remaining, cs + [c])
  {
    var last := |remaining| - 1;
    forall k | 0 <= k < last
      ensures && (remaining[k].Failure? ==> (cs + [c])[k] == [])
              && (remaining[k].Success? ==> AllSound(g, n, child, remaining[k].tokenIndex, (cs + [c])[k]))
    {
      assert remaining[..last][k] == remaining[k] && (cs + [c])[k] == cs[k];
    }
  }

  /** Extending the results of a round by one more: the step adds what the extension of the last gives. */
  lemma SequenceStepSnoc<V>(remaining: seq<ParseResult<V>>, cs: seq<seq<ParseResult<V>>>, c: seq<ParseResult<V>>)
    requires 0 < |remaining| && |cs| + 1 == |remaining|
    ensures var x := remaining[|remaining| - 1];
      SequenceStep(remaining, cs + [c])
        == SequenceStep(remaining[..|remaining| - 1], cs)
           + (if x.Success? && x.matched.SequenceMatch? then ExtendSequence(x, c) else [])
  {
    assert (cs + [c])[..|cs|] == cs;
  }

  /**
   * The rounds of a sequence so far: the first holds the empty match at
   * `i`, and each next round is the step of the one before over what its
   * child gave.
   */
  ghost predicate SequenceTrace<V>(g: Grammar, n: nat, p: Pattern, i: nat, rounds: seq<seq<ParseResult<V>>>,
                                   css: seq<seq<seq<ParseResult<V>>>>)
    requires p.SequencePattern?
  {
    && |rounds| == |css| + 1 && |css| <= |p.children| && rounds[0] == [SequenceStart(i)]
    && forall m :: 0 <= m < |css| ==>
         RoundSound(g, n, p.children[m], rounds[m], css[m]) && rounds[m + 1] == SequenceStep(rounds[m], css[m])
  }

  lemma SequenceTraceSnoc<V>(g: Grammar, n: nat, p: Pattern, i: nat, rounds: seq<seq<ParseResult<V>>>,
                             css: seq<seq<seq<ParseResult<V>>>>, cs: seq<seq<ParseResult<V>>>, next: seq<ParseResult<V>>)
    requires p.SequencePattern? && SequenceTrace(g, n, p, i, rounds, css) && |css| < |p.children|
    requires RoundSound(g, n, p.children[|css|], rounds[|css|], cs) && next == SequenceStep(rounds[|css|], cs)
    ensures SequenceTrace(g, n, p, i, rounds + [next], css + [cs])
  {
    var rounds', css' := rounds + [next], css + [cs];
    forall m | 0 <= m < |css'|
      ensures RoundSound(g, n, p.children[m], rounds'[m], css'[m]) && rounds'[m + 1] == SequenceStep(rounds'[m], css'[m])
    {
      assert rounds'[m] == rounds[m] && css'[m] == if m < |css| then css[m] else cs;
    }
  }

  /** The complete sequences and the failures set aside are sound results of the sequence. */
  lemma SequenceDoneSound<V>(g: Grammar, n: nat, p: Pattern, i: nat, complete: seq<ParseResult<V>>,
                             failures: seq<ParseResult<V>>)
    requires p.SequencePattern? && AllPartial(g, n, p, i, |p.children|, complete) && FailuresWithin(i, n, failures)
    ensures AllSound(g, n, p, i, complete + failures)
  {
    forall k | 0 <= k < |complete + failures|
      ensures Sound(g, n, p, i, (complete + failures)[k])
    {
      if k < |complete| {
        assert SequencePartial(g, n, p, i, |p.children|, complete[k]);
      } else {
        assert (complete + failures)[k] == failures[k - |complete|];
      }
    }
  }

  class Parser<T, V(==)> {
    const matchToken: (T, string) -> bool
    const tokenToValue: T -> V
    const verbose: bool

    constructor(matchToken: (T, string) -> bool, tokenToValue: T -> V, verbose: Option<bool>)
      ensures this.matchToken == matchToken && this.tokenToValue == tokenToValue
      ensures this.verbose == verbose.GetOr(false)
    {
      this.matchToken := matchToken;
      this.tokenToValue := tokenToValue;
      this.verbose := verbose.GetOr(false);
    }

    /**
     * parseOne: parses `p` against all of `tokens` in a fresh context. The
     * outcome is the selection among the finished results of `p` from index
     * 0; a parse tree is returned only for a success that consumed every
     * token, and it always fits the grammar.
     */
    method ParseOne(p: Pattern, tokens: seq<T>, g: Grammar, ghost patterns: map<string, Pattern>, fuel: nat)
      returns (o: Outcome<T, V>, ghost inner: seq<ParseResult<V>>)
      requires ClosedUnder(g, patterns) && LabelledIn(patterns, p)
      ensures !o.Malformed?
      ensures o.Parsed? ==> o.tree.pattern == p && Fits(g, o.tree)
      ensures !o.Aborted? ==> o == SelectOutcome(g, p, tokens, FinishResults(inner, |tokens|))
      ensures !o.Aborted? ==> AllSound(g, |tokens|, p, 0, inner)
    {
      var ctx := new ParseContext<T, V>(tokens, g, patterns);
      var r;
      r, inner := Parse(p, ctx, fuel);
      if r.Err? {
        return Aborted(r.error), inner;
      }
      SelectSound(g, p, tokens, r.value);
      o := SelectOutcome(g, p, tokens, r.value);
    }

    /**
     * parse: the results of `p` from token index 0, with every success that
     * stops short of the end turned into a "tokens remaining" failure.
     */
    method Parse(p: Pattern, ctx: ParseContext<T, V>, fuel: nat)
      returns (r: Result<seq<ParseResult<V>>, ParseFault>, ghost inner: seq<ParseResult<V>>)
      requires ctx.Valid() && LabelledIn(ctx.patterns, p)
      modifies ctx
      ensures ctx.Valid()
      ensures r.Ok? ==> r.value == FinishResults(inner, |ctx.tokens|) && AllSound(ctx.grammar, |ctx.tokens|, p, 0, inner)
      ensures r.Ok? ==> AllSound(ctx.grammar, |ctx.tokens|, p, 0, r.value)
      ensures r.Ok? ==> forall k :: 0 <= k < |r.value| && r.value[k].Success? ==> r.value[k].tokenIndex == |ctx.tokens|
    {
      var results := ParseMemoizedInner(p, 0, ctx, [], fuel);
      if results.Err? {
        return Err(results.error), [];
      }
      inner := results.value;
      FinishSound(ctx.grammar, |ctx.tokens|, p, inner);
      r := Ok(FinishResults(results.value, |ctx.tokens|));
    }

    /**
     * parseMemoizedInner: reuses the memoized successes for this pattern and
     * index when they were computed under a context at most as constrained
     * as the current one; cuts off a left recursion entered more often than
     * there are tokens left (plus one); otherwise counts the entry, parses
     * the pattern and memoizes its successes.
     */
    method ParseMemoizedInner(p: Pattern, i: nat, ctx: ParseContext<T, V>, lrc: LeftRecContext, fuel: nat)
      returns (r: Result<seq<ParseResult<V>>, ParseFault>)
      requires ctx.Valid() && LabelledIn(ctx.patterns, p) && i <= |ctx.tokens|
      modifies ctx
      ensures ctx.Valid()
      ensures r.Ok? ==> AllSound(ctx.grammar, |ctx.tokens|, p, i, r.value)
      ensures Grew(old(ctx.memo), ctx.memo, old(ctx.leftRecCount), ctx.leftRecCount)
      ensures fuel == 0 ==> r == Err(OutOfFuel)
      ensures fuel > 0 && Reusable(old(ctx.memo), old(ctx.leftRecContextOfResult), p, i, lrc) ==>
        r == Ok(old(ctx.memo)[MemoKey(i, LabelOf(p))])
      ensures fuel > 0 && !Reusable(old(ctx.memo), old(ctx.leftRecContextOfResult), p, i, lrc)
              && CutOff(p, i, |ctx.tokens|, old(ctx.leftRecCount)) ==>
        r == if FindContext(lrc, i).None? then Err(ImplementationError) else Ok([Failure(InfiniteRecursion, i, FindContext(lrc, i).value)])
      ensures fuel == 0 || Reusable(old(ctx.memo), old(ctx.leftRecContextOfResult), p, i, lrc)
              || CutOff(p, i, |ctx.tokens|, old(ctx.leftRecCount)) ==>
        ctx.memo == old(ctx.memo) && ctx.leftRecCount == old(ctx.leftRecCount)
      ensures r.Ok? && fuel > 0 && !Reusable(old(ctx.memo), old(ctx.leftRecContextOfResult), p, i, lrc)
              && !CutOff(p, i, |ctx.tokens|, old(ctx.leftRecCount)) ==>
        var key := MemoKey(i, LabelOf(p));
        && key in ctx.leftRecCount && ctx.leftRecCount[key] > EnteredCount(old(ctx.leftRecCount), key)
        && key in ctx.memo && EndsWith(ctx.memo[key], Successes(r.value))
      decreases fuel, 0
    {
      if fuel == 0 {
        return Err(OutOfFuel);
      }
      var key := MemoKey(i, LabelOf(p));
      var reused := MemoLookup(p, i, ctx, lrc);
      if reused.Some? {
        return Ok(reused.value);
      }
      var count := if key in ctx.leftRecCount then ctx.leftRecCount[key] else 0;
      if !p.ThunkPattern? && !p.ConsumePattern? && count > |ctx.tokens| - i + 1 {
        var found := FindContext(lrc, i);
        if found.None? {
          return Err(ImplementationError);
        }
        return Ok([Failure(InfiniteRecursion, i, found.value)]);
      }
      r := ParseEntered(p, i, ctx, lrc, fuel - 1, key, count);
    }

    /** parseMemoizedInner past its cut-off: counts the entry, parses the pattern and memoizes its successes. */
    method ParseEntered(p: Pattern, i: nat, ctx: ParseContext<T, V>, lrc: LeftRecContext, fuel: nat, key: string, count: nat)
      returns (r: Result<seq<ParseResult<V>>, ParseFault>)
      requires ctx.Valid() && LabelledIn(ctx.patterns, p) && i <= |ctx.tokens|
      requires key == MemoKey(i, LabelOf(p)) && count == EnteredCount(ctx.leftRecCount, key)
      modifies ctx
      ensures ctx.Valid()
      ensures r.Ok? ==> AllSound(ctx.grammar, |ctx.tokens|, p, i, r.value)
      ensures Grew(old(ctx.memo), ctx.memo, old(ctx.leftRecCount), ctx.leftRecCount)
      ensures key in ctx.leftRecCount && ctx.leftRecCount[key] > count
      ensures r.Ok? ==> key in ctx.memo && EndsWith(ctx.memo[key], Successes(r.value))
      decreases fuel, 6
    {
      ctx.leftRecCount := ctx.leftRecCount[key := count + 1];
      ghost var memo0, counts0 := ctx.memo, ctx.leftRecCount;
      var results;
      ghost var cs;
      results, cs := ParsePattern(p, i, ctx, UpdateLeftRecContext(lrc, i, key, count + 1), fuel);
      GrewTrans(old(ctx.memo), memo0, ctx.memo, old(ctx.leftRecCount), counts0, ctx.leftRecCount);
      assert key in counts0 && counts0[key] == count + 1;
      if results.Err? {
        return Err(results.error);
      }
      ghost var memo1, counts1 := ctx.memo, ctx.leftRecCount;
      RecordRecursionContext(key, results.value, ctx);
      Memoize(key, p, i, results.value, ctx);
      GrewTrans(old(ctx.memo), memo1, ctx.memo, old(ctx.leftRecCount), counts1, counts1);
      ghost var before := if key in memo1 then memo1[key] else [];
      EndsWithAppend(before, Successes(results.value));
      r := Ok(results.value);
    }

    /**
     * parseMemoizedInner as the methods for the pattern kinds call it: all
     * they rely on is that its results are sound and that the memo only grew.
     */
    method ParseMemoizedChild(p: Pattern, i: nat, ctx: ParseContext<T, V>, lrc: LeftRecContext, fuel: nat)
      returns (r: Result<seq<ParseResult<V>>, ParseFault>)
      requires ctx.Valid() && LabelledIn(ctx.patterns, p) && i <= |ctx.tokens|
      modifies ctx
      ensures ctx.Valid()
      ensures r.Ok? ==> AllSound(ctx.grammar, |ctx.tokens|, p, i, r.value)
      ensures Grew(old(ctx.memo), ctx.memo, old(ctx.leftRecCount), ctx.leftRecCount)
      decreases fuel, 1
    {
      r := ParseMemoizedInner(p, i, ctx, lrc, fuel);
    }

    /** The memoized successes for `p` at `i`, when they may be reused. */
    method MemoLookup(p: Pattern, i: nat, ctx: ParseContext<T, V>, lrc: LeftRecContext)
      returns (reused: Option<seq<ParseResult<V>>>)
      requires ctx.Valid() && LabelledIn(ctx.patterns, p) && i <= |ctx.tokens|
      ensures reused.Some? <==> Reusable(ctx.memo, ctx.leftRecContextOfResult, p, i, lrc)
      ensures reused.Some? ==> reused.value == ctx.memo[MemoKey(i, LabelOf(p))]
      ensures reused.Some? ==> AllSound(ctx.grammar, |ctx.tokens|, p, i, reused.value)
    {
      var key := MemoKey(i, LabelOf(p));
      if key in ctx.memo && exists k :: 0 <= k < |ctx.memo[key]| && ctx.memo[key][k].Success? {
        var ofResult := if key in ctx.leftRecContextOfResult then ctx.leftRecContextOfResult[key] else map[];
        var found := FindContext(lrc, i);
        var current := if found.Some? then found.value else map[];
        var reuse := IsMoreConstrained(current, ofResult);
        if reuse {
          assert ctx.MemoEntry(key);
          MemoKeyInjective(i, LabelOf(p), ctx.memoSource[key].0, LabelOf(ctx.memoSource[key].1));
          return Some(ctx.memo[key]);
        }
      }
      return None;
    }

    /** Remembers, for the key, the left-recursion map of each infinite-recursion failure in turn. */
    method RecordRecursionContext(key: string, results: seq<ParseResult<V>>, ctx: ParseContext<T, V>)
      requires ctx.Valid()
      modifies ctx`leftRecContextOfResult
      ensures ctx.Valid() && ctx.memo == old(ctx.memo) && ctx.leftRecCount == old(ctx.leftRecCount)
      ensures LastInfiniteRecursion(results).None? ==> ctx.leftRecContextOfResult == old(ctx.leftRecContextOfResult)
      ensures LastInfiniteRecursion(results).Some? ==>
        ctx.leftRecContextOfResult == old(ctx.leftRecContextOfResult)[key := LastInfiniteRecursion(results).value]
    {
      var k := 0;
      while k < |results|
        invariant 0 <= k <= |results|
        invariant LastInfiniteRecursion(results[..k]).None? ==> ctx.leftRecContextOfResult == old(ctx.leftRecContextOfResult)
        invariant LastInfiniteRecursion(results[..k]).Some? ==>
          ctx.leftRecContextOfResult == old(ctx.leftRecContextOfResult)[key := LastInfiniteRecursion(results[..k]).value]
      {
        assert results[..k + 1][..k] == results[..k];
        if results[k].Failure? && results[k].failure == InfiniteRecursion {
          ctx.leftRecContextOfResult := ctx.leftRecContextOfResult[key := results[k].leftRecMap];
        }
        k := k + 1;
      }
      assert results[..k] == results;
    }

    /** Appends the successes among `results` to the memo entry of `key`. */
    method Memoize(key: string, p: Pattern, i: nat, results: seq<ParseResult<V>>, ctx: ParseContext<T, V>)
      requires ctx.Valid() && LabelledIn(ctx.patterns, p) && i <= |ctx.tokens| && key == MemoKey(i, LabelOf(p))
      requires AllSound(ctx.grammar, |ctx.tokens|, p, i, results)
      modifies ctx`memo, ctx`memoSource
      ensures ctx.Valid() && ctx.leftRecCount == old(ctx.leftRecCount)
      ensures ctx.memo == old(ctx.memo)[key := (if key in old(ctx.memo) then old(ctx.memo)[key] else []) + Successes(results)]
      ensures Grew(old(ctx.memo), ctx.memo, ctx.leftRecCount, ctx.leftRecCount)
    {
      var before := if key in ctx.memo then ctx.memo[key] else [];
      ghost var source := if key in ctx.memo then ctx.memoSource[key] else (i, p);
      if key in ctx.memo {
        assert ctx.MemoEntry(key);
      }
      AppendFits(ctx.grammar, |ctx.tokens|, ctx.patterns, key, i, p, before, source, results);
      ctx.memo := ctx.memo[key := before + Successes(results)];
      ctx.memoSource := ctx.memoSource[key := (i, p)];
      assert before <= ctx.memo[key];
    }

    /**
     * parsePattern: dispatch on the pattern's kind. A consume and the
     * printing terminals answer directly; the other kinds answer with what
     * the method for their kind gives. `cs` are the child's results for a
     * wrapper or an option.
     */
    method ParsePattern(p: Pattern, i: nat, ctx: ParseContext<T, V>, lrc: LeftRecContext, fuel: nat)
      returns (r: Result<seq<ParseResult<V>>, ParseFault>, ghost cs: seq<ParseResult<V>>)
      requires ctx.Valid() && LabelledIn(ctx.patterns, p) && i <= |ctx.tokens|
      modifies ctx
      ensures ctx.Valid()
      ensures r.Ok? ==> AllSound(ctx.grammar, |ctx.tokens|, p, i, r.value)
      ensures Grew(old(ctx.memo), ctx.memo, old(ctx.leftRecCount), ctx.leftRecCount)
      ensures p.ConsumePattern? ==> r == Ok([ConsumeResult(ctx.tokens, matchToken, tokenToValue, p.tokenType, i)])
      ensures p.PrintLiteralPattern? ==> r == Ok([Success(PrintLiteralMatch, i, map[])])
      ensures p.PrintLinePattern? ==> r == Ok([Success(PrintLineMatch, i, map[])])
      ensures p.ThunkPattern? && p.target !in ctx.grammar ==> r == Err(MissingThunkTarget(p.target))
      ensures r.Ok? && IsWrapper(p) ==> r.value == Wrapped(p, cs)
      ensures r.Ok? && p.OptionPattern? ==> r.value == OptionResults(cs, i)
      decreases fuel, 5
    {
      assert ChildrenLabelledIn(ctx.grammar, ctx.patterns, p);
      cs := [];
      match p
      case ConsumePattern(_, _, _, tokenType) =>
        r := Ok([ConsumeResult(ctx.tokens, matchToken, tokenToValue, tokenType, i)]);
      case PrintLiteralPattern(_, _) =>
        r := Ok([Success(PrintLiteralMatch, i, map[])]);
      case PrintLinePattern(_, _) =>
        r := Ok([Success(PrintLineMatch, i, map[])]);
      case ThunkPattern(_, _, _, _) =>
        r, cs := ParseSingleChild(p, i, ctx, lrc, fuel);
      case PrintIndentPattern(_, _) =>
        r, cs := ParseSingleChild(p, i, ctx, lrc, fuel);
      case PrintGroupPattern(_, _) =>
        r, cs := ParseSingleChild(p, i, ctx, lrc, fuel);
      case PrintIfPattern(_, _, _, _, _) =>
        r, cs := ParseSingleChild(p, i, ctx, lrc, fuel);
      case SequencePattern(_, _, _, _, _) =>
        r := ParseCombination(p, i, ctx, lrc, fuel);
      case OrPattern(_, _, _, _, _, _) =>
        r := ParseCombination(p, i, ctx, lrc, fuel);
      case ManyPattern(_, _, _, _, _) =>
        r := ParseCombination(p, i, ctx, lrc, fuel);
      case OptionPattern(_, _, _, _, _, _) =>
        r, cs := ParseOption(p, i, ctx, lrc, fuel);
    }

    /** parsePattern for a sequence, an or or a many: what the method for the kind gives. */
    method ParseCombination(p: Pattern, i: nat, ctx: ParseContext<T, V>, lrc: LeftRecContext, fuel: nat)
      returns (r: Result<seq<ParseResult<V>>, ParseFault>)
      requires ctx.Valid() && LabelledIn(ctx.patterns, p) && i <= |ctx.tokens|
      requires p.SequencePattern? || p.OrPattern? || p.ManyPattern?
      modifies ctx
      ensures ctx.Valid()
      ensures r.Ok? ==> AllSound(ctx.grammar, |ctx.tokens|, p, i, r.value)
      ensures Grew(old(ctx.memo), ctx.memo, old(ctx.leftRecCount), ctx.leftRecCount)
      decreases fuel, 4
    {
      if p.SequencePattern? {
        ghost var rounds, css;
        r, rounds, css := ParseSequence(p, i, ctx, lrc, fuel);
      } else if p.OrPattern? {
        ghost var seen, tried;
        r, seen, tried := ParseOr(p, i, ctx, lrc, fuel);
      } else {
        ghost var states, css;
        r, states, css := ParseMany(p, i, ctx, lrc, fuel);
      }
    }

    /**
     * parseThunk and parseSingleChild: parse the one child (a thunk's target,
     * otherwise the value) and wrap its successes. `cs` are the child's results.
     */
    method ParseSingleChild(p: Pattern, i: nat, ctx: ParseContext<T, V>, lrc: LeftRecContext, fuel: nat)
      returns (r: Result<seq<ParseResult<V>>, ParseFault>, ghost cs: seq<ParseResult<V>>)
      requires IsWrapper(p)
      requires ctx.Valid() && ChildrenLabelledIn(ctx.grammar, ctx.patterns, p) && i <= |ctx.tokens|
      modifies ctx
      ensures ctx.Valid()
      ensures Grew(old(ctx.memo), ctx.memo, old(ctx.leftRecCount), ctx.leftRecCount)
      ensures p.ThunkPattern? && p.target !in ctx.grammar ==> r == Err(MissingThunkTarget(p.target))
      ensures r.Ok? ==> r.value == Wrapped(p, cs)
      ensures r.Ok? ==> AllSound(ctx.grammar, |ctx.tokens|, if p.ThunkPattern? then ctx.grammar[p.target] else p.value, i, cs)
      ensures r.Ok? ==> AllSound(ctx.grammar, |ctx.tokens|, p, i, r.value)
      decreases fuel, 3
    {
      var child: Pattern;
      if p.ThunkPattern? {
        if p.target !in ctx.grammar {
          return Err(MissingThunkTarget(p.target)), [];
        }
        child := ctx.grammar[p.target];
      } else {
        child := p.value;
      }
      var results := ParseMemoizedChild(child, i, ctx, lrc, fuel);
      if results.Err? {
        return Err(results.error), [];
      }
      cs := results.value;
      WrappedSound(ctx.grammar, |ctx.tokens|, p, child, i, cs);
      r := Ok(Wrapped(p, results.value));
    }

    /**
     * parseOption: never fails; a child success is a present option, a child
     * failure an absent one where the option started. `cs` are the child's results.
     */
    method ParseOption(p: Pattern, i: nat, ctx: ParseContext<T, V>, lrc: LeftRecContext, fuel: nat)
      returns (r: Result<seq<ParseResult<V>>, ParseFault>, ghost cs: seq<ParseResult<V>>)
      requires p.OptionPattern?
      requires ctx.Valid() && ChildrenLabelledIn(ctx.grammar, ctx.patterns, p) && i <= |ctx.tokens|
      modifies ctx
      ensures ctx.Valid()
      ensures Grew(old(ctx.memo), ctx.memo, old(ctx.leftRecCount), ctx.leftRecCount)
      ensures r.Ok? ==> r.value == OptionResults(cs, i) && AllSound(ctx.grammar, |ctx.tokens|, p.value, i, cs)
      ensures r.Ok? ==> AllSound(ctx.grammar, |ctx.tokens|, p, i, r.value)
      ensures r.Ok? ==> forall k :: 0 <= k < |r.value| ==> r.value[k].Success?
      decreases fuel, 3
    {
      var results := ParseMemoizedChild(p.value, i, ctx, lrc, fuel);
      if results.Err? {
        return Err(results.error), [];
      }
      cs := results.value;
      OptionSound(ctx.grammar, |ctx.tokens|, p, i, cs);
      r := Ok(OptionResults(results.value, i));
    }

    /**
     * parseSequence: round by round, each partial success is extended by the
     * next child; failures are set aside. The last round's results come
     * first, then the failures set aside earlier. `rounds[m]` are the
     * partial results before child `m`, and `css[m][k]` what child `m` gave
     * from the end of `rounds[m][k]`.
     */
    method ParseSequence(p: Pattern, i: nat, ctx: ParseContext<T, V>, lrc: LeftRecContext, fuel: nat)
      returns (r: Result<seq<ParseResult<V>>, ParseFault>, ghost rounds: seq<seq<ParseResult<V>>>,
               ghost css: seq<seq<seq<ParseResult<V>>>>)
      requires p.SequencePattern?
      requires ctx.Valid() && ChildrenLabelledIn(ctx.grammar, ctx.patterns, p) && i <= |ctx.tokens|
      modifies ctx
      ensures ctx.Valid()
      ensures Grew(old(ctx.memo), ctx.memo, old(ctx.leftRecCount), ctx.leftRecCount)
      ensures r.Ok? ==> SequenceTrace(ctx.grammar, |ctx.tokens|, p, i, rounds, css) && |css| == |p.children|
      ensures r.Ok? ==> r.value == rounds[|p.children|] + FailuresOfRounds(rounds[..|p.children|])
      ensures r.Ok? ==> AllSound(ctx.grammar, |ctx.tokens|, p, i, r.value)
      decreases fuel, 3
    {
      var remaining := [SequenceStart(i)];
      var finished: seq<ParseResult<V>> := [];
      rounds, css := [remaining], [];
      var matchIndex := 0;
      while matchIndex < |p.children|
        invariant 0 <= matchIndex <= |p.children|
        invariant ctx.Valid()
        invariant Grew(old(ctx.memo), ctx.memo, old(ctx.leftRecCount), ctx.leftRecCount)
        invariant SequenceTrace(ctx.grammar, |ctx.tokens|, p, i, rounds, css) && |css| == matchIndex
        invariant rounds[matchIndex] == remaining && finished == FailuresOfRounds(rounds[..matchIndex])
        invariant AllPartial(ctx.grammar, |ctx.tokens|, p, i, matchIndex, remaining)
        invariant FailuresWithin(i, |ctx.tokens|, finished)
      {
        ghost var memo0, counts0 := ctx.memo, ctx.leftRecCount;
        var following, failed, cs := SequenceRound(p, i, matchIndex, remaining, ctx, lrc, fuel);
        GrewTrans(old(ctx.memo), memo0, ctx.memo, old(ctx.leftRecCount), counts0, ctx.leftRecCount);
        if following.Err? {
          return Err(following.error), rounds, css;
        }
        SequenceTraceSnoc(ctx.grammar, |ctx.tokens|, p, i, rounds, css, cs, following.value);
        FailuresWithinAppend(i, |ctx.tokens|, finished, failed);
        ghost var rounds0 := rounds;
        finished := finished + failed;
        remaining := following.value;
        rounds, css := rounds + [remaining], css + [cs];
        assert rounds[..matchIndex + 1] == rounds0 && rounds0[..|rounds0| - 1] == rounds0[..matchIndex];
        matchIndex := matchIndex + 1;
      }
      SequenceDoneSound(ctx.grammar, |ctx.tokens|, p, i, remaining, finished);
      r := Ok(remaining + finished);
    }

    /**
     * One round of a sequence: extends each partial success by child
     * `matchIndex` and sets the partial failures aside. `cs[k]` is what the
     * child gave from the end of `remaining[k]` (nothing for a failure).
     */
    method SequenceRound(p: Pattern, i: nat, matchIndex: nat, remaining: seq<ParseResult<V>>,
                         ctx: ParseContext<T, V>, lrc: LeftRecContext, fuel: nat)
      returns (r: Result<seq<ParseResult<V>>, ParseFault>, failed: seq<ParseResult<V>>, ghost cs: seq<seq<ParseResult<V>>>)
      requires p.SequencePattern? && matchIndex < |p.children|
      requires ctx.Valid() && ChildrenLabelledIn(ctx.grammar, ctx.patterns, p)
      requires AllPartial(ctx.grammar, |ctx.tokens|, p, i, matchIndex, remaining)
      modifies ctx
      ensures ctx.Valid()
      ensures Grew(old(ctx.memo), ctx.memo, old(ctx.leftRecCount), ctx.leftRecCount)
      ensures r.Ok? ==> RoundSound(ctx.grammar, |ctx.tokens|, p.children[matchIndex], remaining, cs)
      ensures r.Ok? ==> r.value == SequenceStep(remaining, cs) && failed == Failures(remaining)
      ensures r.Ok? ==> AllPartial(ctx.grammar, |ctx.tokens|, p, i, matchIndex + 1, r.value)
      ensures FailuresWithin(i, |ctx.tokens|, failed)
      decreases fuel, 2
    {
      var following: seq<ParseResult<V>> := [];
      failed := [];
      cs := [];
      var k := 0;
      while k < |remaining|
        invariant 0 <= k <= |remaining|
        invariant ctx.Valid()
        invariant Grew(old(ctx.memo), ctx.memo, old(ctx.leftRecCount), ctx.leftRecCount)
        invariant RoundSound(ctx.grammar, |ctx.tokens|, p.children[matchIndex], remaining[..k], cs)
        invariant following == SequenceStep(remaining[..k], cs) && failed == Failures(remaining[..k])
        invariant AllPartial(ctx.grammar, |ctx.tokens|, p, i, matchIndex + 1, following)
        invariant FailuresWithin(i, |ctx.tokens|, failed)
      {
        var result := remaining[k];
        assert remaining[..k + 1][..k] == remaining[..k];
        assert SequencePartial(ctx.grammar, |ctx.tokens|, p, i, matchIndex, result);
        ghost var c: seq<ParseResult<V>> := [];
        if result.Failure? {
          failed := failed + [result];
        } else {
          ghost var memo0, counts0 := ctx.memo, ctx.leftRecCount;
          var newResults := ParseMemoizedChild(p.children[matchIndex], result.tokenIndex, ctx, lrc, fuel);
          GrewTrans(old(ctx.memo), memo0, ctx.memo, old(ctx.leftRecCount), counts0, ctx.leftRecCount);
          if newResults.Err? {
            return Err(newResults.error), failed, cs;
          }
          var extended := ExtendSequence(result, newResults.value);
          ExtendSequencePartial(ctx.grammar, |ctx.tokens|, p, i, matchIndex, result, newResults.value);
          AllPartialAppend(ctx.grammar, |ctx.tokens|, p, i, matchIndex + 1, following, extended);
          following := following + extended;
          c := newResults.value;
        }
        RoundSoundSnoc(ctx.grammar, |ctx.tokens|, p.children[matchIndex], remaining[..k + 1], cs, c);
        SequenceStepSnoc(remaining[..k + 1], cs, c);
        cs := cs + [c];
        k := k + 1;
      }
      assert remaining[..k] == remaining;
      r := Ok(following);
    }

    /**
     * parseOr: tries the alternatives in order from the same index. An
     * ordered or stops at its first success and answers with it alone; a
     * parallel or, or one without a success, answers with every distinct
     * result it saw. `tried[m]` are the results of alternative `m`, and
     * `seen` lists what the or saw of them, successes tagged with their
     * alternative.
     */
    method ParseOr(p: Pattern, i: nat, ctx: ParseContext<T, V>, lrc: LeftRecContext, fuel: nat)
      returns (r: Result<seq<ParseResult<V>>, ParseFault>, ghost seen: seq<ParseResult<V>>,
               ghost tried: seq<seq<ParseResult<V>>>)
      requires p.OrPattern?
      requires ctx.Valid() && ChildrenLabelledIn(ctx.grammar, ctx.patterns, p) && i <= |ctx.tokens|
      modifies ctx
      ensures ctx.Valid()
      ensures Grew(old(ctx.memo), ctx.memo, old(ctx.leftRecCount), ctx.leftRecCount)
      ensures r.Ok? ==> r.value == OrOutcome(p.parallel, seen)
      ensures r.Ok? ==> OrSeen(p.parallel, |p.children|, tried, seen)
      ensures r.Ok? ==> TriedSound(ctx.grammar, |ctx.tokens|, p, i, tried)
      ensures r.Ok? ==> AllSound(ctx.grammar, |ctx.tokens|, p, i, r.value)
      decreases fuel, 3
    {
      var acc: seq<ParseResult<V>> := [];
      seen, tried := [], [];
      var matchIndex := 0;
      while matchIndex < |p.children|
        invariant 0 <= matchIndex <= |p.children|
        invariant ctx.Valid()
        invariant Grew(old(ctx.memo), ctx.memo, old(ctx.leftRecCount), ctx.leftRecCount)
        invariant |tried| == matchIndex && seen == AllTagged(tried) && acc == FromSeq(seen)
        invariant TriedSound(ctx.grammar, |ctx.tokens|, p, i, tried)
        invariant !p.parallel ==> FirstSuccess(seen).None?
        invariant AllSound(ctx.grammar, |ctx.tokens|, p, i, seen)
      {
        ghost var memo0, counts0 := ctx.memo, ctx.leftRecCount;
        var results := ParseMemoizedChild(p.children[matchIndex], i, ctx, lrc, fuel);
        GrewTrans(old(ctx.memo), memo0, ctx.memo, old(ctx.leftRecCount), counts0, ctx.leftRecCount);
        if results.Err? {
          return Err(results.error), seen, tried;
        }
        var rs := results.value;
        ghost var before := seen;
        TriedSoundSnoc(ctx.grammar, |ctx.tokens|, p, i, tried, rs);
        TaggedSound(ctx.grammar, |ctx.tokens|, p, i, matchIndex, rs);
        var found;
        ghost var taken;
        acc, found, taken, seen := SeeAlternative(p.parallel, |p.children|, matchIndex, rs, tried, seen, acc);
        tried := tried + [rs];
        if found.Some? {
          AllSoundTake(ctx.grammar, |ctx.tokens|, p, i, before, Tagged(matchIndex, rs), taken);
          OrOutcomeSound(ctx.grammar, |ctx.tokens|, p, i, p.parallel, seen);
          r := Ok([found.value]);
          return;
        }
        AllSoundAppend(ctx.grammar, |ctx.tokens|, p, i, before, Tagged(matchIndex, rs));
        matchIndex := matchIndex + 1;
      }
      OrOutcomeSound(ctx.grammar, |ctx.tokens|, p, i, p.parallel, seen);
      OrOutcomeAll(p.parallel, |p.children|, tried, seen);
      r := Ok(acc);
    }

    /**
     * parseMany: round by round, every partial match is extended by an item
     * (or, after an item, by a separator); a partial match whose extension
     * failed is finished, without a trailing separator. A many never fails.
     * `states[m]` holds the partial matches, the finished matches and the
     * separator links before round `m`, and `css[m][k]` what the item or
     * separator gave from the end of partial match `k` in that round.
     */
    method ParseMany(p: Pattern, i: nat, ctx: ParseContext<T, V>, lrc: LeftRecContext, fuel: nat)
      returns (r: Result<seq<ParseResult<V>>, ParseFault>,
               ghost states: seq<(seq<ParseResult<V>>, seq<ParseResult<V>>, map<ParseResult<V>, ParseResult<V>>)>,
               ghost css: seq<seq<seq<ParseResult<V>>>>)
      requires p.ManyPattern?
      requires ctx.Valid() && ChildrenLabelledIn(ctx.grammar, ctx.patterns, p) && i <= |ctx.tokens|
      modifies ctx
      ensures ctx.Valid()
      ensures Grew(old(ctx.memo), ctx.memo, old(ctx.leftRecCount), ctx.leftRecCount)
      ensures r.Ok? ==> ManyTrace(ctx.grammar, |ctx.tokens|, p, i, states, css)
      ensures r.Ok? ==> states[|css|].0 == [] && r.value == states[|css|].1
      ensures r.Ok? ==> AllSound(ctx.grammar, |ctx.tokens|, p, i, r.value)
      ensures r.Ok? ==> forall k :: 0 <= k < |r.value| ==> r.value[k].Success?
      decreases fuel, 3
    {
      var remaining := [ManyStart(i)];
      var finished: seq<ParseResult<V>> := [];
      var sepResultMap: map<ParseResult<V>, ParseResult<V>> := map[];
      states, css := [(remaining, finished, sepResultMap)], [];
      var rounds := fuel;
      while |remaining| > 0
        invariant ctx.Valid()
        invariant Grew(old(ctx.memo), ctx.memo, old(ctx.leftRecCount), ctx.leftRecCount)
        invariant ManyReady(ctx.grammar, |ctx.tokens|, p, i, remaining, finished, sepResultMap)
        invariant ManyTrace(ctx.grammar, |ctx.tokens|, p, i, states, css)
        invariant states[|css|] == (remaining, finished, sepResultMap)
        decreases rounds
      {
        if rounds == 0 {
          return Err(OutOfFuel), states, css;
        }
        rounds := rounds - 1;
        ghost var memo0, counts0 := ctx.memo, ctx.leftRecCount;
        var next, finished', links', cs := ManyRound(p, i, remaining, finished, sepResultMap, ctx, lrc, fuel);
        GrewTrans(old(ctx.memo), memo0, ctx.memo, old(ctx.leftRecCount), counts0, ctx.leftRecCount);
        if next.Err? {
          return Err(next.error), states, css;
        }
        ManyTraceSnoc(ctx.grammar, |ctx.tokens|, p, i, states, css, cs, (next.value, finished', links'));
        remaining, finished, sepResultMap := next.value, finished', links';
        states, css := states + [(remaining, finished, sepResultMap)], css + [cs];
      }
      r := Ok(finished);
    }

    /**
     * One round of a many: extends every partial match once. `cs[k]` is what
     * the item or separator gave from the end of `remaining[k]`.
     */
    method ManyRound(p: Pattern, i: nat, remaining: seq<ParseResult<V>>, finished: seq<ParseResult<V>>,
                     sepResultMap: map<ParseResult<V>, ParseResult<V>>,
                     ctx: ParseContext<T, V>, lrc: LeftRecContext, fuel: nat)
      returns (r: Result<seq<ParseResult<V>>, ParseFault>, finished': seq<ParseResult<V>>,
               sepResultMap': map<ParseResult<V>, ParseResult<V>>, ghost cs: seq<seq<ParseResult<V>>>)
      requires p.ManyPattern?
      requires ctx.Valid() && ChildrenLabelledIn(ctx.grammar, ctx.patterns, p)
      requires ManyReady(ctx.grammar, |ctx.tokens|, p, i, remaining, finished, sepResultMap)
      modifies ctx
      ensures ctx.Valid()
      ensures Grew(old(ctx.memo), ctx.memo, old(ctx.leftRecCount), ctx.leftRecCount)
      ensures r.Ok? ==> ManyRoundSound(ctx.grammar, |ctx.tokens|, p, remaining, cs)
      ensures r.Ok? ==> (r.value, finished', sepResultMap') == ManyStep(p, remaining, cs, finished, sepResultMap)
      ensures r.Ok? ==> ManyReady(ctx.grammar, |ctx.tokens|, p, i, r.value, finished', sepResultMap')
      decreases fuel, 2
    {
      var following: seq<ParseResult<V>> := [];
      finished' := finished;
      sepResultMap' := sepResultMap;
      cs := [];
      var k := 0;
      while k < |remaining|
        invariant 0 <= k <= |remaining|
        invariant ctx.Valid()
        invariant Grew(old(ctx.memo), ctx.memo, old(ctx.leftRecCount), ctx.leftRecCount)
        invariant ManyState(ctx.grammar, |ctx.tokens|, p, i, remaining, following, finished', sepResultMap')
        invariant ManyRoundSound(ctx.grammar, |ctx.tokens|, p, remaining[..k], cs)
        invariant (following, finished', sepResultMap') == ManyStep(p, remaining[..k], cs, finished, sepResultMap)
      {
        var result := remaining[k];
        assert ManyPartial(ctx.grammar, |ctx.tokens|, p, i, result);
        var isSeparator := SeparatorDue(p, result);
        var child := ManyChild(p, result);
        ghost var memo0, counts0 := ctx.memo, ctx.leftRecCount;
        var itemResults := ParseMemoizedChild(child, result.tokenIndex, ctx, lrc, fuel);
        GrewTrans(old(ctx.memo), memo0, ctx.memo, old(ctx.leftRecCount), counts0, ctx.leftRecCount);
        if itemResults.Err? {
          return Err(itemResults.error), finished', sepResultMap', cs;
        }
        var rs := itemResults.value;
        var hasFailure := HasFailure(rs);
        var nextFollowing := ExtendMany(result, rs, isSeparator);
        var linked := LinkSeparators(sepResultMap', nextFollowing, result, isSeparator);
        ManyStepSound(ctx.grammar, |ctx.tokens|, p, i, remaining, k, following, finished', sepResultMap', child, rs,
                      isSeparator, nextFollowing, linked, hasFailure);
        assert remaining[..k + 1][..k] == remaining[..k];
        ManyRoundSoundSnoc(ctx.grammar, |ctx.tokens|, p, remaining[..k + 1], cs, rs);
        ManyStepSnoc(p, remaining[..k + 1], cs, rs, finished, sepResultMap);
        sepResultMap' := linked;
        following := following + nextFollowing;
        finished' := FinishPartial(finished', sepResultMap', result, hasFailure);
        cs := cs + [rs];
        k := k + 1;
      }
      assert remaining[..k] == remaining;
      r := Ok(following);
    }
  }

  /** The state of a many round: partial matches waiting, finished matches, separator links. */
  ghost predicate ManyState<V>(g: Grammar, n: nat, p: Pattern, i: nat, remaining: seq<ParseResult<V>>,
                               following: seq<ParseResult<V>>, finished: seq<ParseResult<V>>,
                               sepResultMap: map<ParseResult<V>, ParseResult<V>>)
    requires p.ManyPattern?
  {
    && (forall j :: 0 <= j < |following| ==> ManyPartial(g, n, p, i, following[j]))
    && (forall j :: 0 <= j < |following| ==> AfterSeparator(p, following[j]) ==> following[j] in sepResultMap)
    && (forall j :: 0 <= j < |remaining| ==> AfterSeparator(p, remaining[j]) ==> remaining[j] in sepResultMap)
    && (forall x :: x in sepResultMap ==> Sound(g, n, p, i, sepResultMap[x]) && sepResultMap[x].Success?)
    && (forall j :: 0 <= j < |finished| ==> Sound(g, n, p, i, finished[j]) && finished[j].Success?)
  }

  /** The state before a many round: sound partial matches, with their links and the finished matches. */
  ghost predicate ManyReady<V>(g: Grammar, n: nat, p: Pattern, i: nat, remaining: seq<ParseResult<V>>,
                               finished: seq<ParseResult<V>>, sepResultMap: map<ParseResult<V>, ParseResult<V>>)
    requires p.ManyPattern?
  {
    && (forall j :: 0 <= j < |remaining| ==> ManyPartial(g, n, p, i, remaining[j]))
    && ManyState(g, n, p, i, remaining, [], finished, sepResultMap)
  }

  /** Every match produced by a separator leads back to the match before that separator. */
  function LinkSeparators<V(==)>(sepResultMap: map<ParseResult<V>, ParseResult<V>>, nextFollowing: seq<ParseResult<V>>,
                             result: ParseResult<V>, isSeparator: bool): (m: map<ParseResult<V>, ParseResult<V>>)
    // after a separator, every new partial leads back to the match before it
    ensures isSeparator ==> forall x :: x in nextFollowing ==> x in m && m[x] == result
    // every other link is kept, and no other link is made
    ensures forall x :: x in sepResultMap && !(isSeparator && x in nextFollowing) ==> x in m && m[x] == sepResultMap[x]
    ensures forall x :: x in m && x !in sepResultMap ==> isSeparator && x in nextFollowing
  {
    if isSeparator then sepResultMap + map x | x in nextFollowing :: result else sepResultMap
  }

  /**
   * When extending a partial match failed somewhere, the match is finished;
   * one that ends with a separator is finished as the match before it.
   */
  function FinishPartial<V(==)>(finished: seq<ParseResult<V>>, sepResultMap: map<ParseResult<V>, ParseResult<V>>,
                            result: ParseResult<V>, hasFailure: bool): (f: seq<ParseResult<V>>)
    // the finished matches only grow, by one exactly when the extension failed
    ensures |f| == |finished| + (if hasFailure then 1 else 0) && f[..|finished|] == finished
    // what is finished is the partial itself or, after a separator, a match it links back to
    ensures hasFailure ==> f[|finished|] == result || f[|finished|] in sepResultMap.Values
    ensures result.Success? && (forall x :: x in sepResultMap ==> sepResultMap[x].Success?) ==>
      forall k :: |finished| <= k < |f| ==> f[k].Success?
  {
    if !hasFailure then finished
    else if result in sepResultMap then finished + [sepResultMap[result]]
    else finished + [result]
  }

  /** One step of a many round keeps the round's state sound. */
  lemma ManyStepSound<V>(g: Grammar, n: nat, p: Pattern, i: nat, remaining: seq<ParseResult<V>>, k: nat,
                         following: seq<ParseResult<V>>, finished: seq<ParseResult<V>>,
                         sepResultMap: map<ParseResult<V>, ParseResult<V>>, child: Pattern, rs: seq<ParseResult<V>>,
                         isSeparator: bool, nextFollowing: seq<ParseResult<V>>, m: map<ParseResult<V>, ParseResult<V>>,
                         hasFailure: bool)
    requires p.ManyPattern? && k < |remaining|
    requires ManyState(g, n, p, i, remaining, following, finished, sepResultMap)
    requires ManyPartial(g, n, p, i, remaining[k])
    requires isSeparator == (p.separator.Some? && |remaining[k].matched.items| > |remaining[k].matched.separators|)
    requires child == if isSeparator then p.separator.value else p.value
    requires AllSound(g, n, child, remaining[k].tokenIndex, rs)
    requires nextFollowing == ExtendMany(remaining[k], rs, isSeparator)
    requires m == LinkSeparators(sepResultMap, nextFollowing, remaining[k], isSeparator)
    ensures ManyState(g, n, p, i, remaining, following + nextFollowing, FinishPartial(finished, m, remaining[k], hasFailure), m)
  {
    var result := remaining[k];
    ExtendManyPartial(g, n, p, i, result, child, rs, isSeparator);
    LinksSound(g, n, p, i, sepResultMap, nextFollowing, result, isSeparator);
    FollowingLinked(g, n, p, i, following, nextFollowing, m);
    assert m.Keys >= sepResultMap.Keys;
    if result !in m {
      ManyPartialDone(g, n, p, i, result);
    }
    var f := FinishPartial(finished, m, result, hasFailure);
    assert forall j :: 0 <= j < |f| ==> Sound(g, n, p, i, f[j]) && f[j].Success? by {
      forall j | 0 <= j < |f|
        ensures Sound(g, n, p, i, f[j]) && f[j].Success?
      {
        if j >= |finished| {
          assert f[j] == if result in m then m[result] else result;
        } else {
          assert f[j] == finished[j];
        }
      }
    }
  }

  /** Separator links lead to sound matches. */
  lemma LinksSound<V>(g: Grammar, n: nat, p: Pattern, i: nat, sepResultMap: map<ParseResult<V>, ParseResult<V>>,
                      nextFollowing: seq<ParseResult<V>>, result: ParseResult<V>, isSeparator: bool)
    requires p.ManyPattern? && ManyPartial(g, n, p, i, result)
    requires isSeparator ==> !AfterSeparator(p, result)
    requires forall x :: x in sepResultMap ==> Sound(g, n, p, i, sepResultMap[x]) && sepResultMap[x].Success?
    ensures var m := LinkSeparators(sepResultMap, nextFollowing, result, isSeparator);
      forall x :: x in m ==> Sound(g, n, p, i, m[x]) && m[x].Success?
  {
    if isSeparator {
      ManyPartialDone(g, n, p, i, result);
    }
  }

  /** Appending partial matches whose separator-ended ones are linked keeps the linking. */
  lemma FollowingLinked<V>(g: Grammar, n: nat, p: Pattern, i: nat, following: seq<ParseResult<V>>,
                           nextFollowing: seq<ParseResult<V>>, m: map<ParseResult<V>, ParseResult<V>>)
    requires p.ManyPattern?
    requires forall j :: 0 <= j < |following| ==> ManyPartial(g, n, p, i, following[j]) && (AfterSeparator(p, following[j]) ==> following[j] in m)
    requires forall j :: 0 <= j < |nextFollowing| ==> ManyPartial(g, n, p, i, nextFollowing[j]) && (AfterSeparator(p, nextFollowing[j]) ==> nextFollowing[j] in m)
    ensures var f := following + nextFollowing;
      forall j :: 0 <= j < |f| ==> ManyPartial(g, n, p, i, f[j]) && (AfterSeparator(p, f[j]) ==> f[j] in m)
  {
    var f := following + nextFollowing;
    forall j | 0 <= j < |f|
      ensures ManyPartial(g, n, p, i, f[j]) && (AfterSeparator(p, f[j]) ==> f[j] in m)
    {
      if j >= |following| {
        assert f[j] == nextFollowing[j - |following|];
      }
    }
  }

  /** The extensions of a partial many match by sound child results are partial many matches. */
  lemma ExtendManyPartial<V>(g: Grammar, n: nat, p: Pattern, i: nat, partial: ParseResult<V>, child: Pattern,
                             rs: seq<ParseResult<V>>, isSeparator: bool)
    requires p.ManyPattern? && ManyPartial(g, n, p, i, partial)
    requires isSeparator == (p.separator.Some? && |partial.matched.items| > |partial.matched.separators|)
    requires child == if isSeparator then p.separator.value else p.value
    requires AllSound(g, n, child, partial.tokenIndex, rs)
    ensures forall k :: 0 <= k < |ExtendMany(partial, rs, isSeparator)| ==> ManyPartial(g, n, p, i, ExtendMany(partial, rs, isSeparator)[k])
    ensures forall k :: 0 <= k < |ExtendMany(partial, rs, isSeparator)| ==> (AfterSeparator(p, ExtendMany(partial, rs, isSeparator)[k]) <==> isSeparator)
  {
    var e := ExtendMany(partial, rs, isSeparator);
    var s := Successes(rs);
    forall k | 0 <= k < |e|
      ensures ManyPartial(g, n, p, i, e[k]) && (AfterSeparator(p, e[k]) <==> isSeparator)
    {
      assert s[k] in rs;
      var j :| 0 <= j < |rs| && rs[j] == s[k];
      assert Sound(g, n, child, partial.tokenIndex, rs[j]);
      var m := e[k].matched;
      if isSeparator {
        assert forall t :: 0 <= t < |partial.matched.separators| ==> m.separators[t] == partial.matched.separators[t];
      } else {
        assert forall t :: 0 <= t < |partial.matched.items| ==> m.items[t] == partial.matched.items[t];
      }
    }
  }

  /** A partial many match that does not end with a separator is a complete one. */
  lemma ManyPartialDone<V>(g: Grammar, n: nat, p: Pattern, i: nat, x: ParseResult<V>)
    requires p.ManyPattern? && ManyPartial(g, n, p, i, x) && !AfterSeparator(p, x)
    ensures Sound(g, n, p, i, x)
  {
  }

  lemma {:induction false} FirstSuccessSnoc<V>(rs: seq<ParseResult<V>>, x: ParseResult<V>)
    requires FirstSuccess(rs).None?
    ensures FirstSuccess(rs + [x]) == if x.Success? then Some(|rs|) else None
  {
    var r := FirstSuccess(rs + [x]);
    if rs != [] {
      assert (rs + [x])[1..] == rs[1..] + [x];
      FirstSuccessSnoc(rs[1..], x);
    }
  }

  /**
   * When everything before the last of `seen` failed and the last succeeded,
   * and `seen` begins `all`, the first success of `all` is the last of `seen`.
   */
  lemma OrCutAt<V>(all: seq<ParseResult<V>>, seen: seq<ParseResult<V>>)
    requires 0 < |seen| <= |all| && seen == all[..|seen|]
    requires FirstSuccess(seen) == Some(|seen| - 1)
    ensures FirstSuccess(all) == Some(|seen| - 1)
    ensures seen == all[..FirstSuccess(all).value + 1]
  {
    var j := |seen| - 1;
    assert all[j] == seen[j];
    assert forall k :: 0 <= k < j ==> all[k] == seen[k];
  }

  /**
   * What an or saw of the alternatives it tried: an ordered or that met a
   * success saw the tagged results up to and including the first success,
   * which came from the last alternative it tried; otherwise it tried every
   * alternative and saw all their tagged results.
   */
  ghost predicate OrSeen<V>(parallel: bool, alternatives: nat, tried: seq<seq<ParseResult<V>>>, seen: seq<ParseResult<V>>) {
    var all := AllTagged(tried);
    && (parallel || FirstSuccess(all).None? ==> |tried| == alternatives && seen == all)
    && (!parallel && FirstSuccess(all).Some? ==>
         && seen == all[..FirstSuccess(all).value + 1]
         && 0 < |tried| <= alternatives && |AllTagged(tried[..|tried| - 1])| <= FirstSuccess(all).value)
  }

  /** An ordered or that meets its first success in the last alternative tried saw up to that success. */
  lemma OrSeenCut<V>(alternatives: nat, tried: seq<seq<ParseResult<V>>>, rs: seq<ParseResult<V>>, taken: nat,
                     seen: seq<ParseResult<V>>)
    requires |tried| < alternatives && 0 < taken <= |rs|
    requires seen == AllTagged(tried) + Tagged(|tried|, rs)[..taken]
    requires FirstSuccess(seen) == Some(|seen| - 1)
    ensures OrSeen(false, alternatives, tried + [rs], seen) && OrOutcome(false, seen) == [seen[|seen| - 1]]
  {
    var before := AllTagged(tried);
    AllTaggedSnoc(tried, rs);
    var all := AllTagged(tried + [rs]);
    assert seen == all[..|seen|];
    OrCutAt(all, seen);
    assert (tried + [rs])[..|tried|] == tried;
  }

  /** An or that tried every alternative without stopping saw everything, and answers with each result once. */
  lemma OrOutcomeAll<V>(parallel: bool, alternatives: nat, tried: seq<seq<ParseResult<V>>>, seen: seq<ParseResult<V>>)
    requires |tried| == alternatives && seen == AllTagged(tried) && (!parallel ==> FirstSuccess(seen).None?)
    ensures OrSeen(parallel, alternatives, tried, seen) && OrOutcome(parallel, seen) == FromSeq(seen)
  {
  }

  /** Sound results of each alternative tried. */
  ghost predicate TriedSound<V>(g: Grammar, n: nat, p: Pattern, i: nat, tried: seq<seq<ParseResult<V>>>)
    requires p.OrPattern?
  {
    |tried| <= |p.children| && forall m :: 0 <= m < |tried| ==> AllSound(g, n, p.children[m], i, tried[m])
  }

  lemma TriedSoundSnoc<V>(g: Grammar, n: nat, p: Pattern, i: nat, tried: seq<seq<ParseResult<V>>>, rs: seq<ParseResult<V>>)
    requires p.OrPattern? && TriedSound(g, n, p, i, tried) && |tried| < |p.children|
    requires AllSound(g, n, p.children[|tried|], i, rs)
    ensures TriedSound(g, n, p, i, tried + [rs])
  {
    forall m | 0 <= m < |tried| + 1
      ensures AllSound(g, n, p.children[m], i, (tried + [rs])[m])
    {
      assert (tried + [rs])[m] == if m < |tried| then tried[m] else rs;
    }
  }

  /** An ordered or whose first success is the last result it saw answers with that success. */
  lemma OrOutcomeCut<V>(seen: seq<ParseResult<V>>)
    requires 0 < |seen| && FirstSuccess(seen) == Some(|seen| - 1)
    ensures OrOutcome(false, seen) == [seen[|seen| - 1]]
  {
  }

  /** The tagged results of the alternatives tried, one alternative more. */
  lemma AllTaggedSnoc<V>(tried: seq<seq<ParseResult<V>>>, rs: seq<ParseResult<V>>)
    ensures AllTagged(tried + [rs]) == AllTagged(tried) + Tagged(|tried|, rs)
  {
    assert (tried + [rs])[..|tried|] == tried;
  }

  /** Sound results of alternative `m`, tagged, are sound results of the or. */
  lemma TaggedSound<V>(g: Grammar, n: nat, p: Pattern, i: nat, m: nat, rs: seq<ParseResult<V>>)
    requires p.OrPattern? && m < |p.children| && AllSound(g, n, p.children[m], i, rs)
    ensures AllSound(g, n, p, i, Tagged(m, rs))
  {
    forall k | 0 <= k < |rs|
      ensures Sound(g, n, p, i, Tagged(m, rs)[k])
    {
      assert Sound(g, n, p.children[m], i, rs[k]);
    }
  }

  lemma AllSoundTake<V>(g: Grammar, n: nat, p: Pattern, i: nat, rs: seq<ParseResult<V>>, more: seq<ParseResult<V>>, m: nat)
    requires m <= |more| && AllSound(g, n, p, i, rs) && AllSound(g, n, p, i, more)
    ensures AllSound(g, n, p, i, rs + more[..m])
  {
    forall k | 0 <= k < |rs| + m
      ensures Sound(g, n, p, i, (rs + more[..m])[k])
    {
      if k >= |rs| {
        assert (rs + more[..m])[k] == more[k - |rs|];
      }
    }
  }

  lemma TakeOneMore<X>(xs: seq<X>, ys: seq<X>, k: nat)
    requires k < |ys|
    ensures xs + ys[..k + 1] == (xs + ys[..k]) + [ys[k]]
  {
    assert ys[..k + 1] == ys[..k] + [ys[k]];
  }

  /** What an or answers with, out of sound results it saw, is sound. */
  lemma OrOutcomeSound<V>(g: Grammar, n: nat, p: Pattern, i: nat, parallel: bool, seen: seq<ParseResult<V>>)
    requires AllSound(g, n, p, i, seen)
    ensures AllSound(g, n, p, i, OrOutcome(parallel, seen))
  {
    OrOutcomeSpec(parallel, seen);
    var o := OrOutcome(parallel, seen);
    forall k | 0 <= k < |o|
      ensures Sound(g, n, p, i, o[k])
    {
      var j :| 0 <= j < |seen| && seen[j] == o[k];
    }
  }

  lemma AllSoundAppend<V>(g: Grammar, n: nat, p: Pattern, i: nat, rs: seq<ParseResult<V>>, more: seq<ParseResult<V>>)
    requires AllSound(g, n, p, i, rs) && AllSound(g, n, p, i, more)
    ensures AllSound(g, n, p, i, rs + more)
  {
    forall k | 0 <= k < |rs + more|
      ensures Sound(g, n, p, i, (rs + more)[k])
    {
      if k >= |rs| {
        assert (rs + more)[k] == more[k - |rs|];
      }
    }
  }

  /**
   * The inner loop of parseOr over the results of alternative `matchIndex`:
   * each is added to what the or has seen, successes tagged with the
   * alternative. An ordered or stops at its first success, which is then
   * its answer.
   */
  method SeeAlternative<V(==)>(parallel: bool, ghost alternatives: nat, matchIndex: nat, rs: seq<ParseResult<V>>,
                               ghost tried: seq<seq<ParseResult<V>>>, ghost seen: seq<ParseResult<V>>, acc: seq<ParseResult<V>>)
    returns (acc': seq<ParseResult<V>>, found: Option<ParseResult<V>>, ghost taken: nat, ghost seen': seq<ParseResult<V>>)
    requires matchIndex == |tried| < alternatives && seen == AllTagged(tried)
    requires acc == FromSeq(seen) && (!parallel ==> FirstSuccess(seen).None?)
    ensures taken <= |rs| && seen' == seen + Tagged(matchIndex, rs)[..taken]
    ensures found.None? ==> taken == |rs| && seen' == AllTagged(tried + [rs]) && acc' == FromSeq(seen')
    ensures found.None? && !parallel ==> FirstSuccess(seen').None?
    ensures found.Some? ==> !parallel && OrSeen(false, alternatives, tried + [rs], seen') && OrOutcome(false, seen') == [found.value]
  {
    acc', found, seen' := acc, None, seen;
    var k := 0;
    while k < |rs|
      invariant k <= |rs| && Seeing(parallel, matchIndex, rs, seen, k, seen', acc')
    {
      var x := rs[k];
      var tagged := if x.Failure? then x else OrSuccess(matchIndex, x);
      SeeOne(parallel, alternatives, tried, rs, seen, k, seen', acc');
      seen' := seen' + [tagged];
      if x.Success? && !parallel {
        found, taken := Some(tagged), k + 1;
        return;
      }
      acc' := Add(acc', tagged);
      k := k + 1;
    }
    taken := k;
    SeeAll(parallel, tried, rs, seen, seen', acc');
  }

  /** SeeAlternative's loop invariant: the first `k` results of the alternative were seen. */
  ghost predicate Seeing<V>(parallel: bool, matchIndex: nat, rs: seq<ParseResult<V>>, seen: seq<ParseResult<V>>,
                                k: nat, seen': seq<ParseResult<V>>, acc': seq<ParseResult<V>>)
  {
    k <= |rs| && seen' == seen + Tagged(matchIndex, rs)[..k] && acc' == FromSeq(seen') &&
    (!parallel ==> FirstSuccess(seen').None?)
  }

  /** Seeing one more result either keeps the invariant or, for an ordered or meeting a success, settles the answer. */
  lemma SeeOne<V>(parallel: bool, alternatives: nat, tried: seq<seq<ParseResult<V>>>, rs: seq<ParseResult<V>>,
                      seen: seq<ParseResult<V>>, k: nat, seen': seq<ParseResult<V>>, acc': seq<ParseResult<V>>)
    requires |tried| < alternatives && seen == AllTagged(tried) && k < |rs|
    requires Seeing(parallel, |tried|, rs, seen, k, seen', acc')
    ensures var x := rs[k];
      var t := if x.Failure? then x else OrSuccess(|tried|, x);
      (x.Success? && !parallel ==>
         seen' + [t] == seen + Tagged(|tried|, rs)[..k + 1] &&
         OrSeen(false, alternatives, tried + [rs], seen' + [t]) && OrOutcome(false, seen' + [t]) == [t]) &&
      (!(x.Success? && !parallel) ==> Seeing(parallel, |tried|, rs, seen, k + 1, seen' + [t], Add(acc', t)))
  {
    var x := rs[k];
    var t := if x.Failure? then x else OrSuccess(|tried|, x);
    TakeOneMore(seen, Tagged(|tried|, rs), k);
    FromSeqSnoc(seen', t);
    if !parallel {
      FirstSuccessSnoc(seen', t);
      if x.Success? {
        OrSeenCut(alternatives, tried, rs, k + 1, seen' + [t]);
      }
    }
  }

  /** Having seen every result of the alternative, the or has seen all its tried alternatives. */
  lemma SeeAll<V>(parallel: bool, tried: seq<seq<ParseResult<V>>>, rs: seq<ParseResult<V>>,
                      seen: seq<ParseResult<V>>, seen': seq<ParseResult<V>>, acc': seq<ParseResult<V>>)
    requires seen == AllTagged(tried) && Seeing(parallel, |tried|, rs, seen, |rs|, seen', acc')
    ensures seen' == AllTagged(tried + [rs]) && seen' == seen + Tagged(|tried|, rs)[..|rs|]
  {
    assert Tagged(|tried|, rs)[..|rs|] == Tagged(|tried|, rs);
    AllTaggedSnoc(tried, rs);
  }
}
