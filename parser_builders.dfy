/**
 * The grammar-building helpers. Every helper draws the next id from a shared
 * counter before it normalizes its children, so ids follow evaluation order.
 */
module ParserBuilders {
  import opened Wrappers
  import opened JsonValues
  import opened Decimal
  import opened Sets
  import opened ParserTypes

  /** A child given to a helper: a pattern, a list (a sequence), or a function (a thunk). */
  datatype Shorthand = Given(pattern: Pattern) | Items(items: seq<Shorthand>) | Lazy(target: string)

  datatype LabelOptions = LabelOptions(asName: Option<string>, patternLabel: Option<string>)

  const NoLabels := LabelOptions(None, None)

  /** The options argument of consume and thunk: a string stands for `{ as: string }`. */
  datatype LabelArgument = AsOnly(name: string) | Labels(options: LabelOptions)

  function LabelsOf(arg: LabelArgument): (o: LabelOptions)
    ensures arg.AsOnly? ==> o == LabelOptions(Some(arg.name), None)
    ensures arg.Labels? ==> o == arg.options
  {
    match arg
    case AsOnly(name) => LabelOptions(Some(name), None)
    case Labels(options) => options
  }

  datatype OptionOptions = OptionOptions(select: Option<string>, defaultValue: Option<Json>, labels: LabelOptions)

  /** The options argument of option: a string stands for `{ as: string }`. */
  datatype OptionArgument = OptionAs(name: string) | WithOptions(options: OptionOptions)

  /** The id the counter value `n` stands for. */
  function IdAt(n: nat): string {
    NatToString(n)
  }

  /** The ids drawn from counter value `a` up to, not including, `b`. */
  function Range(a: nat, b: nat): (r: seq<string>)
    requires a <= b
    ensures |r| == b - a
    ensures forall k :: 0 <= k < b - a ==> r[k] == IdAt(a + k)
  {
    seq(b - a, k requires 0 <= k < b - a => IdAt(a + k))
  }

  lemma RangeSplit(a: nat, b: nat, c: nat)
    requires a <= b <= c
    ensures Range(a, c) == Range(a, b) + Range(b, c)
  {
  }

  /** Ids drawn from the counter are pairwise distinct. */
  lemma RangeDistinct(a: nat, b: nat)
    requires a <= b
    ensures Distinct(Range(a, b))
  {
    var r := Range(a, b);
    forall i, j | 0 <= i < j < |r|
      ensures r[i] != r[j]
    {
      NatToStringInjective(a + i, a + j);
    }
  }

  /** How many patterns normalizing `s` creates. */
  function Created(s: Shorthand): nat
    decreases s, 1
  {
    match s
    case Given(_) => 0
    case Lazy(_) => 1
    case Items(xs) => 1 + CreatedEach(xs)
  }

  function CreatedEach(xs: seq<Shorthand>): nat
    decreases xs, 0
  {
    if xs == [] then 0 else CreatedEach(xs[..|xs| - 1]) + Created(xs[|xs| - 1])
  }

  /**
   * normalizePattern, with the counter made explicit: the pattern built from
   * `s` when the counter stands at `start`, and the counter afterwards.
   */
  function Normalized(s: Shorthand, start: nat): (r: (Pattern, nat))
    ensures r.1 == start + Created(s)
    ensures s.Given? ==> r.0 == s.pattern
    ensures s.Lazy? ==> r.0.ThunkPattern? && r.0.target == s.target && r.0.id == IdAt(start)
    ensures s.Items? ==> r.0.SequencePattern? && |r.0.children| == |s.items| && r.0.id == IdAt(start)
    decreases s, 1
  {
    match s
    case Given(p) => (p, start)
    case Lazy(t) => (ThunkPattern(IdAt(start), None, None, t), start + 1)
    case Items(xs) =>
      var (children, next) := NormalizedEach(xs, start + 1);
      (SequencePattern(IdAt(start), None, None, children, None), next)
  }

  /** `value.map(normalizePattern)`: each child in turn, threading the counter. */
  function NormalizedEach(xs: seq<Shorthand>, start: nat): (r: (seq<Pattern>, nat))
    ensures |r.0| == |xs|
    ensures r.1 == start + CreatedEach(xs)
    decreases xs, 0
  {
    if xs == [] then ([], start)
    else
      var (init, mid) := NormalizedEach(xs[..|xs| - 1], start);
      var (last, next) := Normalized(xs[|xs| - 1], mid);
      (init + [last], next)
  }

  /** The ids of a pattern's nodes in pre-order; a thunk's target is a separate pattern. */
  function Ids(p: Pattern): seq<string>
    decreases p, 1
  {
    match p
    case ConsumePattern(id, _, _, _) => [id]
    case SequencePattern(id, _, _, children, _) => [id] + IdsEach(children)
    case OrPattern(id, _, _, children, _, _) => [id] + IdsEach(children)
    case ManyPattern(id, _, _, value, separator) =>
      [id] + Ids(value) + (if separator.Some? then Ids(separator.value) else [])
    case OptionPattern(id, _, _, value, _, _) => [id] + Ids(value)
    case ThunkPattern(id, _, _, _) => [id]
    case PrintLiteralPattern(id, _) => [id]
    case PrintLinePattern(id, _) => [id]
    case PrintIndentPattern(id, value) => [id] + Ids(value)
    case PrintGroupPattern(id, value) => [id] + Ids(value)
    case PrintIfPattern(id, value, _, before, after) =>
      [id] + Ids(value) + (if before.Some? then Ids(before.value) else []) + (if after.Some? then Ids(after.value) else [])
  }

  function IdsEach(ps: seq<Pattern>): seq<string>
    decreases ps, 0
  {
    if ps == [] then [] else IdsEach(ps[..|ps| - 1]) + Ids(ps[|ps| - 1])
  }

  /** A shorthand that embeds no pattern built earlier: lists and functions only. */
  predicate Fresh(s: Shorthand)
    decreases s, 1
  {
    match s
    case Given(_) => false
    case Lazy(_) => true
    case Items(xs) => FreshEach(xs)
  }

  predicate FreshEach(xs: seq<Shorthand>)
    decreases xs, 0
  {
    xs == [] || (FreshEach(xs[..|xs| - 1]) && Fresh(xs[|xs| - 1]))
  }

  /**
   * Normalizing a fresh shorthand numbers its nodes in pre-order with exactly
   * the ids drawn from the counter, so no two of its nodes share an id.
   */
  lemma {:induction false} NormalizedIds(s: Shorthand, start: nat)
    requires Fresh(s)
    ensures Ids(Normalized(s, start).0) == Range(start, Normalized(s, start).1)
    decreases s, 1
  {
    match s
    case Lazy(_) =>
    case Items(xs) =>
      NormalizedEachIds(xs, start + 1);
      var next := Normalized(s, start).1;
      RangeSplit(start, start + 1, next);
  }

  lemma {:induction false} NormalizedEachIds(xs: seq<Shorthand>, start: nat)
    requires FreshEach(xs)
    ensures IdsEach(NormalizedEach(xs, start).0) == Range(start, NormalizedEach(xs, start).1)
    decreases xs, 0
  {
    if xs != [] {
      var init := xs[..|xs| - 1];
      var (ps, mid) := NormalizedEach(init, start);
      var (last, next) := Normalized(xs[|xs| - 1], mid);
      NormalizedEachIds(init, start);
      NormalizedIds(xs[|xs| - 1], mid);
      var r := ps + [last];
      assert NormalizedEach(xs, start) == (r, next);
      assert r[..|r| - 1] == ps;
      RangeSplit(start, mid, next);
    }
  }

  /** Corollary: the patterns a fresh shorthand creates carry pairwise distinct ids. */
  lemma NormalizedIdsDistinct(s: Shorthand, start: nat)
    requires Fresh(s)
    ensures Distinct(Ids(Normalized(s, start).0))
    ensures |Ids(Normalized(s, start).0)| == Created(s)
  {
    NormalizedIds(s, start);
    RangeDistinct(start, Normalized(s, start).1);
  }

  /**
   * `language(patterns)`: the named shorthands normalized in order, threading
   * the counter; a later entry with the same name replaces an earlier one.
   * The result is the grammar and the counter afterwards.
   */
  function LanguageOf(entries: seq<(string, Shorthand)>, start: nat): (r: (Grammar, nat))
    ensures r.0.Keys == set k | 0 <= k < |entries| :: entries[k].0
    ensures r.1 >= start
  {
    if entries == [] then (map[], start)
    else
      var (g, mid) := LanguageOf(entries[..|entries| - 1], start);
      var (p, next) := Normalized(entries[|entries| - 1].1, mid);
      (g[entries[|entries| - 1].0 := p], next)
  }

  /**
   * The pattern a name ends up with is the last entry under that name,
   * normalized with the counter as all the entries before it left it.
   */
  lemma {:induction false} LanguageLastWins(entries: seq<(string, Shorthand)>, start: nat, k: nat)
    requires k < |entries|
    requires forall j :: k < j < |entries| ==> entries[j].0 != entries[k].0
    ensures entries[k].0 in LanguageOf(entries, start).0
    ensures LanguageOf(entries, start).0[entries[k].0] == Normalized(entries[k].1, LanguageOf(entries[..k], start).1).0
    decreases |entries|
  {
    var init := entries[..|entries| - 1];
    if k < |entries| - 1 {
      LanguageLastWins(init, start, k);
      assert init[..k] == entries[..k];
    } else {
      assert init == entries[..k];
    }
  }

  /** printIndentedMany refuses a many pattern without a truthy `as`. */
  datatype BuildError = TypeNamesLengthMismatch | MissingAs

  /** The id counter and the helpers that draw from it. */
  class PatternBuilder {
    var initialId: nat

    constructor()
      ensures initialId == 0
    {
      initialId := 0;
    }

    method ResetId()
      modifies this
      ensures initialId == 0
    {
      initialId := 0;
    }

    /** Returns the current counter value as a string and advances the counter. */
    method Id() returns (id: string)
      modifies this
      ensures id == IdAt(old(initialId))
      ensures initialId == old(initialId) + 1
    {
      id := IdAt(initialId);
      initialId := initialId + 1;
    }

    method NormalizePattern(s: Shorthand) returns (p: Pattern)
      modifies this
      ensures (p, initialId) == Normalized(s, old(initialId))
      decreases s, 1
    {
      match s
      case Given(q) =>
        p := q;
      case Lazy(t) =>
        p := Thunk(t, Labels(NoLabels));
      case Items(xs) =>
        var id := Id();
        var children := NormalizeEach(xs);
        p := SequencePattern(id, None, None, children, None);
    }

    /** Normalizes the children left to right. */
    method NormalizeEach(xs: seq<Shorthand>) returns (ps: seq<Pattern>)
      modifies this
      ensures (ps, initialId) == NormalizedEach(xs, old(initialId))
      decreases xs, 0
    {
      ps := [];
      var k := 0;
      while k < |xs|
        invariant 0 <= k <= |xs|
        invariant (ps, initialId) == NormalizedEach(xs[..k], old(initialId))
      {
        assert xs[..k + 1][..k] == xs[..k];
        var p := NormalizePattern(xs[k]);
        ps := ps + [p];
        k := k + 1;
      }
      assert xs[..k] == xs;
    }

    method Consume(tokenType: string, options: LabelArgument) returns (p: Pattern)
      modifies this
      ensures p == ConsumePattern(IdAt(old(initialId)), LabelsOf(options).asName, LabelsOf(options).patternLabel, tokenType)
      ensures initialId == old(initialId) + 1
    {
      var id := Id();
      var labels := LabelsOf(options);
      p := ConsumePattern(id, labels.asName, labels.patternLabel, tokenType);
    }

    method Sequence(items: seq<Shorthand>, select: Option<string>, labels: LabelOptions) returns (p: Pattern)
      modifies this
      ensures var (children, next) := NormalizedEach(items, old(initialId) + 1);
        p == SequencePattern(IdAt(old(initialId)), labels.asName, labels.patternLabel, children, select) && initialId == next
    {
      var id := Id();
      var children := NormalizeEach(items);
      p := SequencePattern(id, labels.asName, labels.patternLabel, children, select);
    }

    /** Fails, without drawing an id, when the type names do not match the alternatives one to one. */
    method Or(items: seq<Shorthand>, labels: LabelOptions, typeNames: Option<seq<string>>, parallel: Option<bool>)
      returns (r: Result<Pattern, BuildError>)
      modifies this
      ensures r.Err? <==> typeNames.Some? && |typeNames.value| != |items|
      ensures r.Err? ==> initialId == old(initialId)
      ensures r.Ok? ==> var (children, next) := NormalizedEach(items, old(initialId) + 1);
        && r.value == OrPattern(IdAt(old(initialId)), labels.asName, labels.patternLabel, children, typeNames, parallel.GetOr(false))
        && initialId == next
    {
      if typeNames.Some? && |typeNames.value| != |items| {
        return Err(TypeNamesLengthMismatch);
      }
      var id := Id();
      var children := NormalizeEach(items);
      r := Ok(OrPattern(id, labels.asName, labels.patternLabel, children, typeNames, parallel.GetOr(false)));
    }

    /** An or whose alternatives are named: the names become its type names. */
    method TypedOr(entries: seq<(string, Shorthand)>, labels: LabelOptions, parallel: Option<bool>) returns (p: Pattern)
      modifies this
      ensures var (children, next) := NormalizedEach(seq(|entries|, k requires 0 <= k < |entries| => entries[k].1), old(initialId) + 1);
        && p == OrPattern(IdAt(old(initialId)), labels.asName, labels.patternLabel, children,
                          Some(seq(|entries|, k requires 0 <= k < |entries| => entries[k].0)), parallel.GetOr(false))
        && initialId == next
      ensures |p.children| == |p.typeNames.value|
    {
      var id := Id();
      var children := NormalizeEach(seq(|entries|, k requires 0 <= k < |entries| => entries[k].1));
      var names := seq(|entries|, k requires 0 <= k < |entries| => entries[k].0);
      p := OrPattern(id, labels.asName, labels.patternLabel, children, Some(names), parallel.GetOr(false));
    }

    /** The item is normalized before the separator. */
    method Many(item: Shorthand, separator: Option<Shorthand>, labels: LabelOptions) returns (p: Pattern)
      modifies this
      ensures var (value, mid) := Normalized(item, old(initialId) + 1);
        && p.ManyPattern? && p.id == IdAt(old(initialId)) && p.value == value
        && p.asName == labels.asName && p.patternLabel == labels.patternLabel
        && (separator.None? ==> p.separator.None? && initialId == mid)
        && (separator.Some? ==> p.separator == Some(Normalized(separator.value, mid).0) && initialId == Normalized(separator.value, mid).1)
    {
      var id := Id();
      var value := NormalizePattern(item);
      var sep: Option<Pattern> := None;
      if separator.Some? {
        var s := NormalizePattern(separator.value);
        sep := Some(s);
      }
      p := ManyPattern(id, labels.asName, labels.patternLabel, value, sep);
    }

    /** The `option` helper. */
    method Optional(item: Shorthand, options: OptionArgument) returns (p: Pattern)
      modifies this
      ensures var (value, next) := Normalized(item, old(initialId) + 1);
        && p.OptionPattern? && p.id == IdAt(old(initialId)) && p.value == value && initialId == next
        && (options.OptionAs? ==> p.asName == Some(options.name) && p.patternLabel.None? && p.select.None? && p.defaultValue.None?)
        && (options.WithOptions? ==>
              && p.asName == options.options.labels.asName && p.patternLabel == options.options.labels.patternLabel
              && p.select == options.options.select && p.defaultValue == options.options.defaultValue)
    {
      var id := Id();
      var value := NormalizePattern(item);
      match options
      case OptionAs(name) =>
        p := OptionPattern(id, Some(name), None, value, None, None);
      case WithOptions(o) =>
        p := OptionPattern(id, o.labels.asName, o.labels.patternLabel, value, o.select, o.defaultValue);
    }

    method Thunk(target: string, options: LabelArgument) returns (p: Pattern)
      modifies this
      ensures p == ThunkPattern(IdAt(old(initialId)), LabelsOf(options).asName, LabelsOf(options).patternLabel, target)
      ensures initialId == old(initialId) + 1
    {
      var id := Id();
      var labels := LabelsOf(options);
      p := ThunkPattern(id, labels.asName, labels.patternLabel, target);
    }

    method PrintLiteral(text: string) returns (p: Pattern)
      modifies this
      ensures p == PrintLiteralPattern(IdAt(old(initialId)), text) && initialId == old(initialId) + 1
    {
      var id := Id();
      p := PrintLiteralPattern(id, text);
    }

    method PrintLine(kind: Option<LineKind>) returns (p: Pattern)
      modifies this
      ensures p == PrintLinePattern(IdAt(old(initialId)), kind) && initialId == old(initialId) + 1
    {
      var id := Id();
      p := PrintLinePattern(id, kind);
    }

    method PrintIndent(value: Shorthand) returns (p: Pattern)
      modifies this
      ensures var (v, next) := Normalized(value, old(initialId) + 1);
        p == PrintIndentPattern(IdAt(old(initialId)), v) && initialId == next
    {
      var id := Id();
      var v := NormalizePattern(value);
      p := PrintIndentPattern(id, v);
    }

    method PrintGroup(value: Shorthand) returns (p: Pattern)
      modifies this
      ensures var (v, next) := Normalized(value, old(initialId) + 1);
        p == PrintGroupPattern(IdAt(old(initialId)), v) && initialId == next
    {
      var id := Id();
      var v := NormalizePattern(value);
      p := PrintGroupPattern(id, v);
    }

    /** `before` and `after` are terminal patterns: a literal or a line. */
    method PrintIf(value: Shorthand, reference: string, before: Option<Pattern>, after: Option<Pattern>) returns (p: Pattern)
      requires before.Some? ==> before.value.IsTerminal()
      requires after.Some? ==> after.value.IsTerminal()
      modifies this
      ensures var (v, next) := Normalized(value, old(initialId) + 1);
        p == PrintIfPattern(IdAt(old(initialId)), v, reference, before, after) && initialId == next
    {
      var id := Id();
      var v := NormalizePattern(value);
      p := PrintIfPattern(id, v, reference, before, after);
    }

    /**
     * Wraps a many pattern so that it prints indented between two lines when
     * it has items: group(if(indent(if(many, before: line)), after: line)).
     * The ids are drawn in argument-evaluation order: the inner line first.
     */
    method PrintIndentedMany(value: Pattern, padding: Option<LineKind>) returns (r: Result<Pattern, BuildError>)
      requires value.ManyPattern?
      modifies this
      ensures r.Err? <==> value.asName.None? || value.asName.value == ""
      ensures r.Err? ==> initialId == old(initialId)
      ensures r.Ok? ==> var k := old(initialId); var name := value.asName.value;
        && r.value == PrintGroupPattern(IdAt(k + 5),
             PrintIfPattern(IdAt(k + 4),
               PrintIndentPattern(IdAt(k + 2),
                 PrintIfPattern(IdAt(k + 1), value, name, Some(PrintLinePattern(IdAt(k), padding)), None)),
               name, None, Some(PrintLinePattern(IdAt(k + 3), padding))))
        && initialId == k + 6
    {
      if value.asName.None? || value.asName.value == "" {
        return Err(MissingAs);
      }
      var name := value.asName.value;
      var innerLine := PrintLine(padding);
      var innerIf := PrintIf(Given(value), name, Some(innerLine), None);
      var indent := PrintIndent(Given(innerIf));
      var outerLine := PrintLine(padding);
      var outerIf := PrintIf(Given(indent), name, None, Some(outerLine));
      var group := PrintGroup(Given(outerIf));
      r := Ok(group);
    }

    /** The `language` helper: every named shorthand normalized, in order, into a grammar. */
    method Language(entries: seq<(string, Shorthand)>) returns (g: Grammar)
      modifies this
      ensures (g, initialId) == LanguageOf(entries, old(initialId))
      ensures g.Keys == set k | 0 <= k < |entries| :: entries[k].0
      ensures initialId >= old(initialId)
      ensures forall name :: name in g ==> exists k, start :: 0 <= k < |entries| && entries[k].0 == name && g[name] == Normalized(entries[k].1, start).0
    {
      g := map[];
      var k := 0;
      while k < |entries|
        invariant 0 <= k <= |entries|
        invariant (g, initialId) == LanguageOf(entries[..k], old(initialId))
        invariant forall name :: name in g ==> exists j, start :: 0 <= j < k && entries[j].0 == name && g[name] == Normalized(entries[j].1, start).0
      {
        ghost var start := initialId;
        var p := NormalizePattern(entries[k].1);
        g := g[entries[k].0 := p];
        assert entries[..k + 1][..k] == entries[..k];
        k := k + 1;
      }
      assert entries[..k] == entries;
    }
  }
}
