/**
 * Grammar patterns, the matches the parser records, and the parse trees it
 * rebuilds from them. A pattern's thunk (a function returning a pattern, used
 * for recursion) is modelled as the name of an entry of the grammar map.
 */
module ParserTypes {
  import opened Wrappers
  import opened JsonValues

  datatype LineKind = Soft | Hard

  /**
   * The pattern kinds. Every pattern has an id; the extractable ones carry an
   * optional `as` (here `asName`) and `label`.
   */
  datatype Pattern =
    | ConsumePattern(id: string, asName: Option<string>, patternLabel: Option<string>, tokenType: string)
    | SequencePattern(id: string, asName: Option<string>, patternLabel: Option<string>, children: seq<Pattern>, select: Option<string>)
    | OrPattern(id: string, asName: Option<string>, patternLabel: Option<string>, children: seq<Pattern>,
                typeNames: Option<seq<string>>, parallel: bool)
    | ManyPattern(id: string, asName: Option<string>, patternLabel: Option<string>, value: Pattern, separator: Option<Pattern>)
    | OptionPattern(id: string, asName: Option<string>, patternLabel: Option<string>, value: Pattern,
                    select: Option<string>, defaultValue: Option<Json>)
    | ThunkPattern(id: string, asName: Option<string>, patternLabel: Option<string>, target: string)
    | PrintLiteralPattern(id: string, text: string)
    | PrintLinePattern(id: string, kind: Option<LineKind>)
    | PrintIndentPattern(id: string, value: Pattern)
    | PrintGroupPattern(id: string, value: Pattern)
    | PrintIfPattern(id: string, value: Pattern, reference: string, before: Option<Pattern>, after: Option<Pattern>)
  {
    predicate IsTerminal() {
      PrintLiteralPattern? || PrintLinePattern?
    }

    /** The kinds that carry `as` and `label`: all but the printing-only ones. */
    predicate HasLabels() {
      ConsumePattern? || SequencePattern? || OrPattern? || ManyPattern? || OptionPattern? || ThunkPattern?
    }

    /** The `as` field, for the kinds that have one. */
    function AsOf(): Option<string> {
      if HasLabels() then asName else None
    }
  }

  /** Named patterns, the targets of thunks. */
  type Grammar = map<string, Pattern>

  /** What the parser records about a successful parse, without the patterns. */
  datatype Match<V> =
    | ConsumeMatch(token: V)
    | SequenceMatch(items: seq<Match<V>>)
    | OrMatch(matchIndex: nat, child: Match<V>)
    | ManyMatch(items: seq<Match<V>>, separators: seq<Match<V>>)
    | OptionMatch(present: Option<Match<V>>)
    | ThunkMatch(child: Match<V>)
    | PrintLiteralMatch
    | PrintLineMatch
    | PrintIndentMatch(child: Match<V>)
    | PrintGroupMatch(child: Match<V>)
    | PrintIfMatch(child: Match<V>)

  /** A parse tree: every node is its pattern together with what it matched. */
  datatype ParseTree<V> =
    | ConsumeParse(pattern: Pattern, token: V)
    | SequenceParse(pattern: Pattern, items: seq<ParseTree<V>>)
    | OrParse(pattern: Pattern, matchIndex: nat, child: ParseTree<V>)
    | ManyParse(pattern: Pattern, items: seq<ParseTree<V>>, separators: seq<ParseTree<V>>)
    | OptionParse(pattern: Pattern, present: Option<ParseTree<V>>)
    | ThunkParse(pattern: Pattern, child: ParseTree<V>)
    | PrintLiteralParse(pattern: Pattern)
    | PrintLineParse(pattern: Pattern)
    | PrintIndentParse(pattern: Pattern, child: ParseTree<V>)
    | PrintGroupParse(pattern: Pattern, child: ParseTree<V>)
    | PrintIfParse(pattern: Pattern, child: ParseTree<V>)

  /** The match a tree records: the tree without its patterns. */
  function Forget<V>(t: ParseTree<V>): Match<V> {
    match t
    case ConsumeParse(_, v) => ConsumeMatch(v)
    case SequenceParse(_, items) => SequenceMatch(ForgetAll(items))
    case OrParse(_, k, c) => OrMatch(k, Forget(c))
    case ManyParse(_, items, seps) => ManyMatch(ForgetAll(items), ForgetAll(seps))
    case OptionParse(_, present) => OptionMatch(if present.Some? then Some(Forget(present.value)) else None)
    case ThunkParse(_, c) => ThunkMatch(Forget(c))
    case PrintLiteralParse(_) => PrintLiteralMatch
    case PrintLineParse(_) => PrintLineMatch
    case PrintIndentParse(_, c) => PrintIndentMatch(Forget(c))
    case PrintGroupParse(_, c) => PrintGroupMatch(Forget(c))
    case PrintIfParse(_, c) => PrintIfMatch(Forget(c))
  }

  function ForgetAll<V>(ts: seq<ParseTree<V>>): (r: seq<Match<V>>)
    ensures |r| == |ts| && forall k :: 0 <= k < |ts| ==> r[k] == Forget(ts[k])
  {
    if ts == [] then [] else [Forget(ts[0])] + ForgetAll(ts[1..])
  }

  /**
   * A tree fits the grammar when every node's pattern is of its own kind and
   * each child's pattern is the one its parent prescribes for that position.
   */
  ghost predicate Fits<V>(g: Grammar, t: ParseTree<V>) {
    match t
    case ConsumeParse(p, _) => p.ConsumePattern?
    case SequenceParse(p, items) =>
      && p.SequencePattern? && |items| == |p.children|
      && forall k :: 0 <= k < |items| ==> items[k].pattern == p.children[k] && Fits(g, items[k])
    case OrParse(p, k, c) => p.OrPattern? && k < |p.children| && c.pattern == p.children[k] && Fits(g, c)
    case ManyParse(p, items, seps) =>
      && p.ManyPattern?
      && (forall k :: 0 <= k < |items| ==> items[k].pattern == p.value && Fits(g, items[k]))
      && (p.separator.None? ==> seps == [])
      && (forall k :: 0 <= k < |seps| ==> p.separator == Some(seps[k].pattern) && Fits(g, seps[k]))
    case OptionParse(p, present) =>
      p.OptionPattern? && (present.Some? ==> present.value.pattern == p.value && Fits(g, present.value))
    case ThunkParse(p, c) => p.ThunkPattern? && p.target in g && c.pattern == g[p.target] && Fits(g, c)
    case PrintLiteralParse(p) => p.PrintLiteralPattern?
    case PrintLineParse(p) => p.PrintLinePattern?
    case PrintIndentParse(p, c) => p.PrintIndentPattern? && c.pattern == p.value && Fits(g, c)
    case PrintGroupParse(p, c) => p.PrintGroupPattern? && c.pattern == p.value && Fits(g, c)
    case PrintIfParse(p, c) => p.PrintIfPattern? && c.pattern == p.value && Fits(g, c)
  }

  /** Why a match cannot be laid over a pattern. */
  datatype RebuildError = KindMismatch | MissingChildPattern | UnresolvedThunk(target: string)

  /**
   * rebuildParseTree: lays a match over the pattern it was parsed with, the
   * children over the child patterns (a thunk's over its target). The match
   * decides the node kind; a pattern of another kind is an error here.
   */
  function Rebuild<V>(g: Grammar, m: Match<V>, p: Pattern): (r: Result<ParseTree<V>, RebuildError>)
    ensures r.Ok? ==> r.value.pattern == p
    decreases m, 1
  {
    match m
    case ConsumeMatch(v) =>
      if p.ConsumePattern? then Ok(ConsumeParse(p, v)) else Err(KindMismatch)
    case ThunkMatch(c) =>
      if !p.ThunkPattern? then Err(KindMismatch)
      else if p.target !in g then Err(UnresolvedThunk(p.target))
      else
        var child :- Rebuild(g, c, g[p.target]);
        Ok(ThunkParse(p, child))
    case PrintIndentMatch(c) =>
      if !p.PrintIndentPattern? then Err(KindMismatch)
      else
        var child :- Rebuild(g, c, p.value);
        Ok(PrintIndentParse(p, child))
    case PrintGroupMatch(c) =>
      if !p.PrintGroupPattern? then Err(KindMismatch)
      else
        var child :- Rebuild(g, c, p.value);
        Ok(PrintGroupParse(p, child))
    case PrintIfMatch(c) =>
      if !p.PrintIfPattern? then Err(KindMismatch)
      else
        var child :- Rebuild(g, c, p.value);
        Ok(PrintIfParse(p, child))
    case PrintLiteralMatch =>
      if p.PrintLiteralPattern? then Ok(PrintLiteralParse(p)) else Err(KindMismatch)
    case PrintLineMatch =>
      if p.PrintLinePattern? then Ok(PrintLineParse(p)) else Err(KindMismatch)
    case SequenceMatch(items) =>
      if !p.SequencePattern? then Err(KindMismatch)
      else if |items| > |p.children| then Err(MissingChildPattern)
      else
        var children :- RebuildEach(g, items, p.children[..|items|]);
        Ok(SequenceParse(p, children))
    case OrMatch(k, c) =>
      if !p.OrPattern? then Err(KindMismatch)
      else if k >= |p.children| then Err(MissingChildPattern)
      else
        var child :- Rebuild(g, c, p.children[k]);
        Ok(OrParse(p, k, child))
    case ManyMatch(items, seps) =>
      if !p.ManyPattern? then Err(KindMismatch)
      else
        var children :- RebuildEach(g, items, seq(|items|, _ => p.value));
        var separators :- if p.separator.Some? then RebuildEach(g, seps, seq(|seps|, _ => p.separator.value)) else Ok([]);
        Ok(ManyParse(p, children, separators))
    case OptionMatch(present) =>
      if !p.OptionPattern? then Err(KindMismatch)
      else if present.None? then Ok(OptionParse(p, None))
      else
        var child :- Rebuild(g, present.value, p.value);
        Ok(OptionParse(p, Some(child)))
  }

  /** Rebuilds matches position by position over the given patterns. */
  function RebuildEach<V>(g: Grammar, ms: seq<Match<V>>, ps: seq<Pattern>): (r: Result<seq<ParseTree<V>>, RebuildError>)
    requires |ms| == |ps|
    ensures r.Ok? ==> |r.value| == |ms| && forall k :: 0 <= k < |ms| ==> r.value[k].pattern == ps[k]
    decreases ms, 0
  {
    if ms == [] then Ok([])
    else
      var first :- Rebuild(g, ms[0], ps[0]);
      var rest :- RebuildEach(g, ms[1..], ps[1..]);
      Ok([first] + rest)
  }

  /** Rebuilding what a fitting tree matched, over its own pattern, gives the tree back. */
  lemma {:induction false} RebuildForget<V>(g: Grammar, t: ParseTree<V>)
    requires Fits(g, t)
    ensures Rebuild(g, Forget(t), t.pattern) == Ok(t)
    decreases t, 1
  {
    match t
    case ConsumeParse(_, _) =>
    case SequenceParse(p, items) =>
      assert p.children[..|items|] == p.children;
      RebuildForgetEach(g, items, p.children);
    case OrParse(_, _, c) => RebuildForget(g, c);
    case ManyParse(_, _, _) => RebuildForgetMany(g, t);
    case OptionParse(_, present) =>
      if present.Some? {
        RebuildForget(g, present.value);
      }
    case ThunkParse(_, c) => RebuildForget(g, c);
    case PrintLiteralParse(_) =>
    case PrintLineParse(_) =>
    case PrintIndentParse(_, c) => RebuildForget(g, c);
    case PrintGroupParse(_, c) => RebuildForget(g, c);
    case PrintIfParse(_, c) => RebuildForget(g, c);
  }

  lemma {:induction false} RebuildForgetMany<V>(g: Grammar, t: ParseTree<V>)
    requires t.ManyParse? && Fits(g, t)
    ensures Rebuild(g, Forget(t), t.pattern) == Ok(t)
    decreases t, 0
  {
    var p, items, seps := t.pattern, t.items, t.separators;
    RebuildForgetEach(g, items, seq(|items|, _ => p.value));
    if p.separator.Some? {
      RebuildForgetEach(g, seps, seq(|seps|, _ => p.separator.value));
    }
  }

  lemma {:induction false} RebuildForgetEach<V>(g: Grammar, ts: seq<ParseTree<V>>, ps: seq<Pattern>)
    requires |ts| == |ps|
    requires forall k :: 0 <= k < |ts| ==> ts[k].pattern == ps[k] && Fits(g, ts[k])
    ensures RebuildEach(g, ForgetAll(ts), ps) == Ok(ts)
    decreases ts, 0
  {
    if ts != [] {
      RebuildForget(g, ts[0]);
      RebuildForgetEach(g, ts[1..], ps[1..]);
      assert ForgetAll(ts)[1..] == ForgetAll(ts[1..]);
      assert [ts[0]] + ts[1..] == ts;
    }
  }

  /** How many separators a many match holds for a given number of items. */
  predicate SeparatorShape(p: Pattern, items: nat, separators: nat)
    requires p.ManyPattern?
  {
    if p.separator.None? then separators == 0
    else separators == (if items == 0 then 0 else items - 1)
  }

  /**
   * A match conforms to a pattern when it has the shape the parser gives a
   * complete match of that pattern: one item per child of a sequence, an
   * existing alternative of an or, separators between the items of a many.
   */
  ghost predicate Conforms<V>(g: Grammar, m: Match<V>, p: Pattern)
    decreases m
  {
    match m
    case ConsumeMatch(_) => p.ConsumePattern?
    case SequenceMatch(items) =>
      && p.SequencePattern? && |items| == |p.children|
      && forall k :: 0 <= k < |items| ==> Conforms(g, items[k], p.children[k])
    case OrMatch(k, c) => p.OrPattern? && k < |p.children| && Conforms(g, c, p.children[k])
    case ManyMatch(items, seps) =>
      && p.ManyPattern?
      && SeparatorShape(p, |items|, |seps|)
      && (forall k :: 0 <= k < |items| ==> Conforms(g, items[k], p.value))
      && (p.separator.Some? ==> forall k :: 0 <= k < |seps| ==> Conforms(g, seps[k], p.separator.value))
    case OptionMatch(present) => p.OptionPattern? && (present.Some? ==> Conforms(g, present.value, p.value))
    case ThunkMatch(c) => p.ThunkPattern? && p.target in g && Conforms(g, c, g[p.target])
    case PrintLiteralMatch => p.PrintLiteralPattern?
    case PrintLineMatch => p.PrintLinePattern?
    case PrintIndentMatch(c) => p.PrintIndentPattern? && Conforms(g, c, p.value)
    case PrintGroupMatch(c) => p.PrintGroupPattern? && Conforms(g, c, p.value)
    case PrintIfMatch(c) => p.PrintIfPattern? && Conforms(g, c, p.value)
  }

  /**
   * A conforming match always rebuilds, into a tree that fits the grammar and
   * records exactly that match.
   */
  lemma {:induction false} ConformsRebuild<V>(g: Grammar, m: Match<V>, p: Pattern)
    requires Conforms(g, m, p)
    ensures Rebuild(g, m, p).Ok?
    ensures Fits(g, Rebuild(g, m, p).value) && Forget(Rebuild(g, m, p).value) == m
    decreases m, 1
  {
    match m
    case ConsumeMatch(_) =>
    case SequenceMatch(items) =>
      assert p.children[..|items|] == p.children;
      ConformsRebuildEach(g, items, p.children);
    case OrMatch(k, c) => ConformsRebuild(g, c, p.children[k]);
    case ManyMatch(_, _) => ConformsRebuildMany(g, m, p);
    case OptionMatch(present) =>
      if present.Some? {
        ConformsRebuild(g, present.value, p.value);
      }
    case ThunkMatch(c) => ConformsRebuild(g, c, g[p.target]);
    case PrintLiteralMatch =>
    case PrintLineMatch =>
    case PrintIndentMatch(c) => ConformsRebuild(g, c, p.value);
    case PrintGroupMatch(c) => ConformsRebuild(g, c, p.value);
    case PrintIfMatch(c) => ConformsRebuild(g, c, p.value);
  }

  lemma {:induction false} ConformsRebuildMany<V>(g: Grammar, m: Match<V>, p: Pattern)
    requires m.ManyMatch? && Conforms(g, m, p)
    ensures Rebuild(g, m, p).Ok?
    ensures Fits(g, Rebuild(g, m, p).value) && Forget(Rebuild(g, m, p).value) == m
    decreases m, 0
  {
    var items, seps := m.items, m.separators;
    ConformsRebuildEach(g, items, seq(|items|, _ => p.value));
    if p.separator.Some? {
      ConformsRebuildEach(g, seps, seq(|seps|, _ => p.separator.value));
    }
  }

  lemma {:induction false} ConformsRebuildEach<V>(g: Grammar, ms: seq<Match<V>>, ps: seq<Pattern>)
    requires |ms| == |ps|
    requires forall k :: 0 <= k < |ms| ==> Conforms(g, ms[k], ps[k])
    ensures RebuildEach(g, ms, ps).Ok?
    ensures forall k :: 0 <= k < |ms| ==> Fits(g, RebuildEach(g, ms, ps).value[k])
    ensures ForgetAll(RebuildEach(g, ms, ps).value) == ms
    decreases ms, 0
  {
    if ms != [] {
      ConformsRebuild(g, ms[0], ps[0]);
      ConformsRebuildEach(g, ms[1..], ps[1..]);
      var r := RebuildEach(g, ms, ps).value;
      assert r[1..] == RebuildEach(g, ms[1..], ps[1..]).value;
      assert [ms[0]] + ms[1..] == ms;
    }
  }
}
