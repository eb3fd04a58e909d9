/**
 * The values the parsing engine passes around: results, failures, left
 * recursion bookkeeping, and the pure steps the engine applies to the results
 * of a child pattern. The engine interns all of these and compares handles;
 * here they are values and compared as values.
 */
module ParseResults {
  import opened Wrappers
  import opened Decimal
  import opened Sets
  import opened ParserTypes

  datatype FailureValue =
    | InfiniteRecursion
    | TokensRemaining(tokenCount: nat)
    | TokensConsumed(expectedType: string)
    | UnexpectedToken(expectedType: string, foundIndex: nat)
    | OrFailure(patternLabel: string)

  /** Per memo key, the left-recursion count it was entered with. */
  type LeftRecMap = map<string, nat>

  /** Per token index, the left-recursion map of the patterns entered there. */
  type LeftRecContext = seq<(nat, LeftRecMap)>

  datatype ParseResult<V> =
    | Success(matched: Match<V>, tokenIndex: nat, leftRecMap: LeftRecMap)
    | Failure(failure: FailureValue, tokenIndex: nat, leftRecMap: LeftRecMap)

  /** What a failure report says, with the offending token looked up. */
  datatype Reason<T> =
    | InfiniteLeftRecursion
    | TokensLeft(count: nat)
    | InputExhausted(expectedType: string)
    | WrongToken(expectedType: string, found: Option<T>)
    | NoAlternative(patternLabel: string)

  /** failureDescription: the reason a failure is reported with. */
  function FailureDescription<T>(f: FailureValue, tokens: seq<T>): (r: Reason<T>)
    ensures f.InfiniteRecursion? <==> r.InfiniteLeftRecursion?
    ensures f.TokensRemaining? ==> r == TokensLeft(f.tokenCount)
    ensures f.TokensConsumed? ==> r == InputExhausted(f.expectedType)
    ensures f.UnexpectedToken? ==> r.WrongToken? && r.expectedType == f.expectedType
    ensures f.UnexpectedToken? ==> (r.found.Some? <==> f.foundIndex < |tokens|)
    ensures f.UnexpectedToken? && f.foundIndex < |tokens| ==> r.found == Some(tokens[f.foundIndex])
    ensures f.OrFailure? ==> r == NoAlternative(f.patternLabel)
  {
    match f
    case InfiniteRecursion => InfiniteLeftRecursion
    case TokensRemaining(n) => TokensLeft(n)
    case TokensConsumed(t) => InputExhausted(t)
    case UnexpectedToken(t, k) => WrongToken(t, if k < |tokens| then Some(tokens[k]) else None)
    case OrFailure(l) => NoAlternative(l)
  }

  /** The memo label of a pattern: its label when it has one, otherwise its id. */
  function LabelOf(p: Pattern): (l: string)
    ensures !p.HasLabels() ==> l == p.id
    ensures p.HasLabels() && p.patternLabel.None? ==> l == p.id
    ensures p.HasLabels() && p.patternLabel.Some? ==> l == p.patternLabel.value
  {
    if p.HasLabels() && p.patternLabel.Some? then p.patternLabel.value else p.id
  }

  /** The memo key `${tokenIndex}:${label}`. */
  function MemoKey(tokenIndex: nat, patternLabel: string): string {
    NatToString(tokenIndex) + ":" + patternLabel
  }

  /** A memo key names one token index and one label, whatever characters the label holds. */
  lemma MemoKeyInjective(i: nat, a: string, j: nat, b: string)
    ensures MemoKey(i, a) == MemoKey(j, b) <==> i == j && a == b
  {
    ColonKeyInjective(i, a, j, b);
  }

  /** The map recorded for token index `i`: the first entry for it, if any. */
  function FindContext(lrc: LeftRecContext, i: nat): (r: Option<LeftRecMap>)
    ensures r.None? <==> forall k :: 0 <= k < |lrc| ==> lrc[k].0 != i
    ensures r.Some? ==> exists k :: 0 <= k < |lrc| && lrc[k] == (i, r.value) && forall j :: 0 <= j < k ==> lrc[j].0 != i
  {
    if lrc == [] then None
    else if lrc[0].0 == i then Some(lrc[0].1)
    else
      var r := FindContext(lrc[1..], i);
      assert forall k :: 0 <= k < |lrc| - 1 ==> lrc[1..][k] == lrc[k + 1];
      r
  }

  /** Each token index appears at most once. */
  predicate UniqueIndices(lrc: LeftRecContext) {
    forall a, b :: 0 <= a < b < |lrc| ==> lrc[a].0 != lrc[b].0
  }

  /** Records `key` with `count` in every entry for index `i`. */
  function RecordAt(lrc: LeftRecContext, i: nat, key: string, count: nat): (r: LeftRecContext)
    ensures |r| == |lrc|
    ensures forall k :: 0 <= k < |lrc| ==> r[k].0 == lrc[k].0
    ensures forall k :: 0 <= k < |lrc| ==> r[k].1 == if lrc[k].0 == i then lrc[k].1[key := count] else lrc[k].1
  {
    if lrc == [] then []
    else [if lrc[0].0 == i then (i, lrc[0].1[key := count]) else lrc[0]] + RecordAt(lrc[1..], i, key, count)
  }

  /**
   * updateLeftRecContext: the first time a token index is entered it gets an
   * empty map; later entries at that index record the key's count there.
   */
  function UpdateLeftRecContext(lrc: LeftRecContext, i: nat, key: string, count: nat): LeftRecContext {
    if FindContext(lrc, i).None? then lrc + [(i, map[])]
    else RecordAt(lrc, i, key, count)
  }

  /**
   * The update keeps one entry per token index, leaves other indices alone,
   * and at `i` holds an empty map on first entry, or the old map with the
   * key's count recorded.
   */
  lemma UpdateLeftRecContextSpec(lrc: LeftRecContext, i: nat, key: string, count: nat)
    requires UniqueIndices(lrc)
    ensures var u := UpdateLeftRecContext(lrc, i, key, count);
      && UniqueIndices(u)
      && (forall j :: j != i ==> FindContext(u, j) == FindContext(lrc, j))
      && FindContext(u, i) == if FindContext(lrc, i).None? then Some(map[]) else Some(FindContext(lrc, i).value[key := count])
  {
    if FindContext(lrc, i).None? {
      forall j {
        FindAppend(lrc, i, map[], j);
      }
    } else {
      forall j {
        FindRecordAt(lrc, i, key, count, j);
      }
    }
  }

  lemma {:induction false} FindAppend(lrc: LeftRecContext, i: nat, m: LeftRecMap, j: nat)
    ensures FindContext(lrc + [(i, m)], j) ==
      if FindContext(lrc, j).Some? then FindContext(lrc, j) else if j == i then Some(m) else None
  {
    if lrc != [] {
      assert (lrc + [(i, m)])[1..] == lrc[1..] + [(i, m)];
      FindAppend(lrc[1..], i, m, j);
    }
  }

  lemma {:induction false} FindRecordAt(lrc: LeftRecContext, i: nat, key: string, count: nat, j: nat)
    ensures FindContext(RecordAt(lrc, i, key, count), j) ==
      if j == i && FindContext(lrc, i).Some? then Some(FindContext(lrc, i).value[key := count]) else FindContext(lrc, j)
  {
    if lrc != [] {
      FindRecordAt(lrc[1..], i, key, count, j);
    }
  }

  /**
   * isMoreConstrained: a memoized result may be reused when every count in
   * the context it was computed under is at most the count of the same key in
   * the current context (a key missing from the current context counts as
   * unbounded).
   */
  predicate MoreConstrained(current: LeftRecMap, ofResult: LeftRecMap) {
    forall key :: key in ofResult && key in current ==> ofResult[key] <= current[key]
  }

  /** Reads the verdict entry by entry, stopping at the first count that is too large. */
  method IsMoreConstrained(current: LeftRecMap, ofResult: LeftRecMap) returns (b: bool)
    ensures b == MoreConstrained(current, ofResult)
  {
    var pending := ofResult.Keys;
    while pending != {}
      invariant pending <= ofResult.Keys
      invariant forall key :: key in ofResult && key !in pending && key in current ==> ofResult[key] <= current[key]
      decreases |pending|
    {
      var key :| key in pending;
      if key in current && ofResult[key] > current[key] {
        return false;
      }
      pending := pending - {key};
    }
    return true;
  }

  /** parseConsume: one result, a success exactly when a token is left and it matches. */
  function ConsumeResult<T, V>(tokens: seq<T>, matchToken: (T, string) -> bool, tokenToValue: T -> V,
                               tokenType: string, i: nat): (r: ParseResult<V>)
    ensures r.Success? <==> i < |tokens| && matchToken(tokens[i], tokenType)
    ensures r.Success? ==> r.matched == ConsumeMatch(tokenToValue(tokens[i])) && r.tokenIndex == i + 1
    ensures r.Failure? ==> r.tokenIndex == i && (r.failure.TokensConsumed? <==> i >= |tokens|)
    ensures r.Failure? ==> (r.failure.TokensConsumed? || r.failure.UnexpectedToken?) && r.failure.expectedType == tokenType
    ensures r.leftRecMap == map[]
  {
    if i >= |tokens| then Failure(TokensConsumed(tokenType), i, map[])
    else if matchToken(tokens[i], tokenType) then Success(ConsumeMatch(tokenToValue(tokens[i])), i + 1, map[])
    else Failure(UnexpectedToken(tokenType, i), i, map[])
  }

  /** A failed consume is reported with the expected type and the token actually found, if any. */
  lemma ConsumeFailureDescribed<T, V>(tokens: seq<T>, matchToken: (T, string) -> bool, tokenToValue: T -> V,
                                      tokenType: string, i: nat)
    requires ConsumeResult(tokens, matchToken, tokenToValue, tokenType, i).Failure?
    ensures var d := FailureDescription(ConsumeResult(tokens, matchToken, tokenToValue, tokenType, i).failure, tokens);
      && (i >= |tokens| ==> d == InputExhausted(tokenType))
      && (i < |tokens| ==> d == WrongToken(tokenType, Some(tokens[i])) && !matchToken(tokens[i], tokenType))
  {
  }

  /** The patterns whose match wraps the match of a single child. */
  predicate IsWrapper(p: Pattern) {
    p.ThunkPattern? || p.PrintIndentPattern? || p.PrintGroupPattern? || p.PrintIfPattern?
  }

  function WrapMatch<V>(p: Pattern, m: Match<V>): Match<V>
    requires IsWrapper(p)
  {
    if p.ThunkPattern? then ThunkMatch(m)
    else if p.PrintIndentPattern? then PrintIndentMatch(m)
    else if p.PrintGroupPattern? then PrintGroupMatch(m)
    else PrintIfMatch(m)
  }

  /** parseThunk and parseSingleChild: successes wrapped, failures passed through. */
  function Wrapped<V>(p: Pattern, rs: seq<ParseResult<V>>): (r: seq<ParseResult<V>>)
    requires IsWrapper(p)
    ensures |r| == |rs|
    ensures forall k :: 0 <= k < |rs| ==> r[k].tokenIndex == rs[k].tokenIndex && r[k].leftRecMap == rs[k].leftRecMap
    ensures forall k :: 0 <= k < |rs| ==> (r[k].Success? <==> rs[k].Success?) && (rs[k].Failure? ==> r[k] == rs[k])
  {
    seq(|rs|, k requires 0 <= k < |rs| =>
      if rs[k].Success? then Success(WrapMatch(p, rs[k].matched), rs[k].tokenIndex, rs[k].leftRecMap) else rs[k])
  }

  /**
   * parseOption: every child success becomes a present option at the same
   * position; every child failure becomes an absent option at the start.
   */
  function OptionResults<V>(rs: seq<ParseResult<V>>, i: nat): (r: seq<ParseResult<V>>)
    ensures |r| == |rs|
    ensures forall k :: 0 <= k < |rs| ==> r[k].Success? && r[k].matched.OptionMatch?
    ensures forall k :: 0 <= k < |rs| ==> (r[k].matched.present.Some? <==> rs[k].Success?)
    ensures forall k :: 0 <= k < |rs| && rs[k].Success? ==> r[k].matched.present == Some(rs[k].matched) && r[k].tokenIndex == rs[k].tokenIndex
    ensures forall k :: 0 <= k < |rs| && rs[k].Failure? ==> r[k].tokenIndex == i && r[k].leftRecMap == map[]
  {
    seq(|rs|, k requires 0 <= k < |rs| =>
      if rs[k].Success? then Success(OptionMatch(Some(rs[k].matched)), rs[k].tokenIndex, rs[k].leftRecMap)
      else Success(OptionMatch(None), i, map[]))
  }

  /** One sequence step: the child's successes extend the partial match; its failures pass through. */
  function ExtendSequence<V>(partial: ParseResult<V>, rs: seq<ParseResult<V>>): (r: seq<ParseResult<V>>)
    requires partial.Success? && partial.matched.SequenceMatch?
    ensures |r| == |rs|
    ensures forall k :: 0 <= k < |rs| ==> (r[k].Success? <==> rs[k].Success?) && r[k].tokenIndex == rs[k].tokenIndex
    ensures forall k :: 0 <= k < |rs| && rs[k].Failure? ==> r[k] == rs[k]
    ensures forall k :: 0 <= k < |rs| && rs[k].Success? ==>
      && r[k].matched == SequenceMatch(partial.matched.items + [rs[k].matched])
      && r[k].leftRecMap == partial.leftRecMap + rs[k].leftRecMap
  {
    seq(|rs|, k requires 0 <= k < |rs| =>
      if rs[k].Success? then Success(SequenceMatch(partial.matched.items + [rs[k].matched]), rs[k].tokenIndex, partial.leftRecMap + rs[k].leftRecMap)
      else rs[k])
  }

  /**
   * One round of a sequence, given for each partial result what the next
   * child gave from where it ended: every partial success is extended by
   * those results, in order; a partial failure contributes nothing here.
   */
  function SequenceStep<V>(remaining: seq<ParseResult<V>>, cs: seq<seq<ParseResult<V>>>): seq<ParseResult<V>>
    requires |cs| == |remaining|
  {
    if remaining == [] then []
    else
      var k := |remaining| - 1;
      SequenceStep(remaining[..k], cs[..k])
        + (if remaining[k].Success? && remaining[k].matched.SequenceMatch? then ExtendSequence(remaining[k], cs[k]) else [])
  }

  /** The failures among some results, in order. */
  function Failures<V>(rs: seq<ParseResult<V>>): (r: seq<ParseResult<V>>)
    ensures forall k :: 0 <= k < |r| ==> r[k] in rs && r[k].Failure?
    ensures |r| <= |rs|
  {
    if rs == [] then []
    else Failures(rs[..|rs| - 1]) + (if rs[|rs| - 1].Failure? then [rs[|rs| - 1]] else [])
  }

  /** The failures set aside over several rounds, round after round. */
  function FailuresOfRounds<V>(rounds: seq<seq<ParseResult<V>>>): seq<ParseResult<V>> {
    if rounds == [] then [] else FailuresOfRounds(rounds[..|rounds| - 1]) + Failures(rounds[|rounds| - 1])
  }

  /** The results of alternative `matchIndex` as parseOr sees them: successes tagged, failures as they are. */
  function Tagged<V>(matchIndex: nat, rs: seq<ParseResult<V>>): (r: seq<ParseResult<V>>)
    ensures |r| == |rs|
  {
    seq(|rs|, k requires 0 <= k < |rs| => if rs[k].Failure? then rs[k] else OrSuccess(matchIndex, rs[k]))
  }

  /** The tagged results of the alternatives tried, in the order they were tried. */
  function AllTagged<V>(cs: seq<seq<ParseResult<V>>>): seq<ParseResult<V>> {
    if cs == [] then [] else AllTagged(cs[..|cs| - 1]) + Tagged(|cs| - 1, cs[|cs| - 1])
  }

  /** The successes among some results, in order. */
  function Successes<V>(rs: seq<ParseResult<V>>): (r: seq<ParseResult<V>>)
    ensures forall k :: 0 <= k < |r| ==> r[k] in rs && r[k].Success?
    ensures forall k :: 0 <= k < |rs| && rs[k].Success? ==> rs[k] in r
    ensures |r| <= |rs|
  {
    if rs == [] then []
    else Successes(rs[..|rs| - 1]) + (if rs[|rs| - 1].Success? then [rs[|rs| - 1]] else [])
  }

  predicate HasFailure<V>(rs: seq<ParseResult<V>>) {
    exists k :: 0 <= k < |rs| && rs[k].Failure?
  }

  /**
   * One many step: each success of the item (or the separator) extends the
   * partial match at the item's (or separator's) end; failures are dropped.
   */
  function ExtendMany<V>(partial: ParseResult<V>, rs: seq<ParseResult<V>>, isSeparator: bool): (r: seq<ParseResult<V>>)
    requires partial.Success? && partial.matched.ManyMatch?
    ensures |r| == |Successes(rs)|
    ensures forall k :: 0 <= k < |r| ==> r[k].Success? && r[k].tokenIndex == Successes(rs)[k].tokenIndex
    ensures forall k :: 0 <= k < |r| ==> r[k].leftRecMap == partial.leftRecMap + Successes(rs)[k].leftRecMap
    ensures forall k :: 0 <= k < |r| ==> r[k].matched == if isSeparator
      then ManyMatch(partial.matched.items, partial.matched.separators + [Successes(rs)[k].matched])
      else ManyMatch(partial.matched.items + [Successes(rs)[k].matched], partial.matched.separators)
  {
    var s := Successes(rs);
    assert forall k :: 0 <= k < |s| ==> s[k] in s;
    seq(|s|, k requires 0 <= k < |s| =>
      Success(
        if isSeparator then ManyMatch(partial.matched.items, partial.matched.separators + [s[k].matched])
        else ManyMatch(partial.matched.items + [s[k].matched], partial.matched.separators),
        s[k].tokenIndex,
        partial.leftRecMap + s[k].leftRecMap))
  }

  /** An or success: the child's match tagged with the alternative's index. */
  function OrSuccess<V>(matchIndex: nat, r: ParseResult<V>): ParseResult<V>
    requires r.Success?
  {
    Success(OrMatch(matchIndex, r.matched), r.tokenIndex, r.leftRecMap)
  }

  /** The index of the first success, if any. */
  function FirstSuccess<V>(rs: seq<ParseResult<V>>): (r: Option<nat>)
    ensures r.None? <==> forall k :: 0 <= k < |rs| ==> rs[k].Failure?
    ensures r.Some? ==> r.value < |rs| && rs[r.value].Success? && forall k :: 0 <= k < r.value ==> rs[k].Failure?
  {
    if rs == [] then None
    else if rs[0].Success? then Some(0)
    else
      var r := FirstSuccess(rs[1..]);
      assert forall k :: 0 <= k < |rs| - 1 ==> rs[1..][k] == rs[k + 1];
      if r.None? then None else Some(r.value + 1)
  }

  /**
   * parseOr, given what it saw (failures as they are, successes already
   * tagged): an ordered or answers with its first success alone; otherwise,
   * and for a parallel or, every distinct result it saw, in order.
   */
  function OrOutcome<V(==)>(parallel: bool, seen: seq<ParseResult<V>>): seq<ParseResult<V>> {
    if !parallel && FirstSuccess(seen).Some? then [seen[FirstSuccess(seen).value]]
    else FromSeq(seen)
  }

  /**
   * An ordered or with a success yields exactly its first success; otherwise
   * the or yields each result it saw once and nothing else.
   */
  lemma OrOutcomeSpec<V>(parallel: bool, seen: seq<ParseResult<V>>)
    ensures !parallel && FirstSuccess(seen).Some? ==> OrOutcome(parallel, seen) == [seen[FirstSuccess(seen).value]]
    ensures parallel || FirstSuccess(seen).None? ==>
      && Distinct(OrOutcome(parallel, seen))
      && (forall x :: x in OrOutcome(parallel, seen) <==> x in seen)
    ensures forall k :: 0 <= k < |OrOutcome(parallel, seen)| ==> OrOutcome(parallel, seen)[k] in seen
    ensures !parallel && FirstSuccess(seen).None? ==> forall k :: 0 <= k < |OrOutcome(parallel, seen)| ==> OrOutcome(parallel, seen)[k].Failure?
  {
    FromSeqMembers(seen);
    if !parallel && FirstSuccess(seen).Some? {
      assert seen[FirstSuccess(seen).value] in seen;
    } else {
      assert OrOutcome(parallel, seen) == FromSeq(seen);
    }
  }

  /** parse: a success that stops short of the end becomes a tokensRemaining failure. */
  function FinishResult<V>(r: ParseResult<V>, n: nat): (f: ParseResult<V>)
    ensures f.Success? <==> r.Success? && r.tokenIndex >= n
    ensures f.Success? ==> f == r
    ensures r.Success? && r.tokenIndex < n ==> f == Failure(TokensRemaining(n - r.tokenIndex), r.tokenIndex, map[])
    ensures r.Failure? ==> f == r
  {
    if r.Success? && r.tokenIndex < n then Failure(TokensRemaining(n - r.tokenIndex), r.tokenIndex, map[]) else r
  }

  function FinishResults<V>(rs: seq<ParseResult<V>>, n: nat): (f: seq<ParseResult<V>>)
    ensures |f| == |rs| && forall k :: 0 <= k < |rs| ==> f[k] == FinishResult(rs[k], n)
  {
    seq(|rs|, k requires 0 <= k < |rs| => FinishResult(rs[k], n))
  }

  /**
   * A result of parsing `p` from token index `i` over `n` tokens is sound
   * when it ends between `i` and `n` and, if it is a success, its match
   * conforms to `p`.
   */
  ghost predicate Sound<V>(g: Grammar, n: nat, p: Pattern, i: nat, r: ParseResult<V>) {
    i <= r.tokenIndex <= n && (r.Success? ==> Conforms(g, r.matched, p))
  }

  ghost predicate AllSound<V>(g: Grammar, n: nat, p: Pattern, i: nat, rs: seq<ParseResult<V>>) {
    forall k :: 0 <= k < |rs| ==> Sound(g, n, p, i, rs[k])
  }

  /** Wrapping sound child results gives sound results of the wrapper. */
  lemma WrappedSound<V>(g: Grammar, n: nat, p: Pattern, child: Pattern, i: nat, rs: seq<ParseResult<V>>)
    requires IsWrapper(p)
    requires if p.ThunkPattern? then p.target in g && child == g[p.target] else child == p.value
    requires AllSound(g, n, child, i, rs)
    ensures AllSound(g, n, p, i, Wrapped(p, rs))
  {
  }

  /** Option results of sound child results are sound, and never failures. */
  lemma OptionSound<V>(g: Grammar, n: nat, p: Pattern, i: nat, rs: seq<ParseResult<V>>)
    requires p.OptionPattern? && i <= n
    requires AllSound(g, n, p.value, i, rs)
    ensures AllSound(g, n, p, i, OptionResults(rs, i))
  {
  }

  /** Finished results of sound results stay sound, and every success has consumed all tokens. */
  lemma FinishSound<V>(g: Grammar, n: nat, p: Pattern, rs: seq<ParseResult<V>>)
    requires AllSound(g, n, p, 0, rs)
    ensures AllSound(g, n, p, 0, FinishResults(rs, n))
    ensures forall k :: 0 <= k < |rs| && FinishResults(rs, n)[k].Success? ==> FinishResults(rs, n)[k].tokenIndex == n
  {
  }

  /**
   * The interned failure handles are decimal strings, so `handle[0]` is the
   * first digit of the handle, not the handle.
   */
  function FirstDigitHandle(handle: nat): nat {
    ParseDigits([NatToString(handle)[0]])
  }

  /**
   * The infinite-recursion test of parseMemoizedInner as written: it looks up
   * the failure registered under the first character of the failure's handle.
   * `registry[k]` is the failure registered with handle `k`.
   */
  predicate InfiniteRecursionAsWritten(registry: seq<FailureValue>, handle: nat)
    requires handle < |registry|
  {
    var first := FirstDigitHandle(handle);
    first < |registry| && registry[first] == InfiniteRecursion
  }

  /** The intended test: the failure itself is the infinite-recursion failure. */
  predicate InfiniteRecursionIntended(registry: seq<FailureValue>, handle: nat)
    requires handle < |registry|
  {
    registry[handle] == InfiniteRecursion
  }

  /** Handles below ten are one character long, so the two tests agree on them. */
  lemma InfiniteRecursionAgreesBelowTen(registry: seq<FailureValue>, handle: nat)
    requires handle < |registry| && handle < 10
    ensures InfiniteRecursionAsWritten(registry, handle) <==> InfiniteRecursionIntended(registry, handle)
  {
    ParseNatToString(handle);
    assert [NatToString(handle)[0]] == NatToString(handle);
  }

  /**
   * For every handle of two digits or more, the test as written consults
   * another failure: the one whose handle is the leading digit. So it answers
   * wrongly whenever exactly one of the two is the infinite-recursion failure.
   */
  lemma InfiniteRecursionMisreadsLongHandles(registry: seq<FailureValue>, handle: nat)
    requires 10 <= handle < |registry|
    ensures 1 <= FirstDigitHandle(handle) < 10 && FirstDigitHandle(handle) != handle
    ensures InfiniteRecursionAsWritten(registry, handle) <==> registry[FirstDigitHandle(handle)] == InfiniteRecursion
    ensures (registry[handle] == InfiniteRecursion) != (registry[FirstDigitHandle(handle)] == InfiniteRecursion) ==>
      (InfiniteRecursionAsWritten(registry, handle) <==> !InfiniteRecursionIntended(registry, handle))
  {
    var c := NatToString(handle)[0];
    assert [c][..0] == [];
    assert ParseDigits([c]) == DigitValue(c);
  }

  /**
   * Eleven distinct failures, the infinite-recursion failure among them: with
   * it at handle 1, the failure with handle "10" is taken for infinite
   * recursion; with it at handle 10, it is missed.
   */
  lemma InfiniteRecursionMisread()
    ensures var registry := seq(11, (k: nat) => if k == 1 then InfiniteRecursion else UnexpectedToken("t", k));
      && (forall a, b :: 0 <= a < b < 11 ==> registry[a] != registry[b])
      && InfiniteRecursionAsWritten(registry, 10) && !InfiniteRecursionIntended(registry, 10)
    ensures var registry := seq(11, (k: nat) => if k == 10 then InfiniteRecursion else UnexpectedToken("t", k));
      && (forall a, b :: 0 <= a < b < 11 ==> registry[a] != registry[b])
      && !InfiniteRecursionAsWritten(registry, 10) && InfiniteRecursionIntended(registry, 10)
  {
    assert NatToString(10) == NatToString(1) + [DigitChar(0)];
    assert [NatToString(10)[0]] == NatToString(1);
    ParseNatToString(1);
  }
}
