/**
 * The shaper. `Extract` folds a parse tree into a plain JSON-like value, its
 * "shape", keeping only what the `as` names of its patterns point at;
 * `Inject` rebuilds a parse tree of a pattern from such a value. The token,
 * token-shape and or-shape conversions are the caller's, given as options.
 */
module Shaping {
  import opened Wrappers
  import opened JsonValues
  import opened Decimal
  import opened ParserTypes

  /** `{type, value}`: which alternative of an or matched, and the shape of that match. */
  datatype OrValue = OrValue(typeName: string, value: Json)

  /** The conversions a shaper is built with; token shapes and or shapes are JSON values. */
  datatype ShaperOptions<!T> = ShaperOptions(
    shapeToToken: (Json, string) -> T,
    tokenToShape: T -> Json,
    stringToShape: (string, string) -> Json,
    orValueToShape: (OrValue, Option<string>) -> Json,
    orShapeToValue: (Json, Option<string>) -> OrValue)

  /** Why extracting or injecting stops: a thrown error or a JavaScript TypeError. */
  datatype ShapeError =
    | NotAContainer(key: string)
    | NotAList
    | OrWithoutAs
    | ManyWithoutAs
    | OptionWithoutAs
    | OptionWithDot
    | NoSuchAlternative(typeName: string)
    | UnknownThunk(target: string)
    | OutOfFuel

  // ---------------------------------------------------------------------
  // Names, keys and containers
  // ---------------------------------------------------------------------

  /** A string option used as a condition: present and not empty. */
  predicate Named(s: Option<string>) {
    s.Some? && s.value != ""
  }

  /** `as ?? '.'`. */
  function KeyOf(s: Option<string>): string {
    s.GetOr(".")
  }

  function SelectOf(p: Pattern): Option<string> {
    if p.SequencePattern? || p.OptionPattern? then p.select else None
  }

  function LabelOpt(p: Pattern): Option<string> {
    if p.HasLabels() then p.patternLabel else None
  }

  /** `defaultValue ?? null` of an option pattern. */
  function DefaultOf(p: Pattern): Json {
    if p.OptionPattern? && p.defaultValue.Some? && p.defaultValue.value != JUndefined then p.defaultValue.value
    else JNull
  }

  /** wrapShape: '.' leaves a shape as it is, any other name puts it under that key. */
  function Wrap(key: string, shape: Json): Json {
    if key == "." then shape else JObject(map[key := shape])
  }

  /** `{[select]: value}` when a select name is given, the value itself otherwise. */
  function Selecting(select: Option<string>, value: Json): Json {
    if Named(select) then JObject(map[select.value := value]) else value
  }

  /** A canonical array index below `n`, written as a property key. */
  predicate IsIndex(key: string, n: nat) {
    AllDigits(key) && NatToString(ParseDigits(key)) == key && ParseDigits(key) < n
  }

  function Element(es: seq<Json>, key: string): Json {
    if IsIndex(key, |es|) then es[ParseDigits(key)] else JUndefined
  }

  /** A string as the list of its one-character strings. */
  function Chars(s: string): seq<Json> {
    seq(|s|, k requires 0 <= k < |s| => JString([s[k]]))
  }

  /** `v[key]`: reading a property fails only on null and undefined. */
  function Property(v: Json, key: string): Result<Json, ShapeError> {
    match v
    case JNull => Err(NotAContainer(key))
    case JUndefined => Err(NotAContainer(key))
    case JString(s) => Ok(Element(Chars(s), key))
    case JList(es) => Ok(Element(es, key))
    case JObject(fields) => Ok(if key in fields then fields[key] else JUndefined)
  }

  /** `key in v`: only objects, arrays included, can be asked. */
  function Contains(v: Json, key: string): Result<bool, ShapeError> {
    match v
    case JObject(fields) => Ok(key in fields)
    case JList(es) => Ok(IsIndex(key, |es|))
    case _ => Err(NotAContainer(key))
  }

  /** unwrapValue: '.' gives the container; a missing key gives undefined. */
  function Unwrap(key: string, container: Json): Result<Json, ShapeError> {
    if key == "." then Ok(container)
    else
      var has :- Contains(container, key);
      Property(container, key)
  }

  /** unwrapOptionalValue: as `Unwrap`, but a missing key gives null. */
  function UnwrapOptional(key: string, container: Json): Result<Json, ShapeError> {
    if key == "." then Ok(container)
    else
      var has :- Contains(container, key);
      if has then Property(container, key) else Ok(JNull)
  }

  /** Unwrapping undoes wrapping, for every name. */
  lemma UnwrapWrap(key: string, shape: Json)
    ensures Unwrap(key, Wrap(key, shape)) == Ok(shape)
    ensures UnwrapOptional(key, Wrap(key, shape)) == Ok(shape)
  {
  }

  // ---------------------------------------------------------------------
  // Merging the shapes of a sequence
  // ---------------------------------------------------------------------

  /** An array's or a string's own keys "0", "1", ... and their values. */
  function Indexed(es: seq<Json>): map<string, Json> {
    if es == [] then map[] else Indexed(es[..|es| - 1])[NatToString(|es| - 1) := es[|es| - 1]]
  }

  /** What `Object.assign` copies from one source; null and undefined sources give nothing. */
  function Spread(v: Json): map<string, Json> {
    match v
    case JObject(fields) => fields
    case JList(es) => Indexed(es)
    case JString(s) => Indexed(Chars(s))
    case _ => map[]
  }

  /** `Object.assign({}, ...sources)`: later sources overwrite earlier keys. */
  function Assign(sources: seq<Json>): map<string, Json> {
    if sources == [] then map[] else Assign(sources[..|sources| - 1]) + Spread(sources[|sources| - 1])
  }

  function DropNulls(fields: map<string, Json>): map<string, Json> {
    map key | key in fields && fields[key] != JNull :: fields[key]
  }

  /**
   * The children's shapes of a sequence merged left to right, null fields
   * dropped. (Null shapes, which the source filters out first, add nothing
   * to the merge either.)
   */
  function Merged(shapes: seq<Json>): Json {
    JObject(DropNulls(Assign(shapes)))
  }

  /** A key that only one source has keeps that source's value in the merge. */
  lemma {:induction false} AssignLookup(sources: seq<Json>, i: nat, key: string)
    requires i < |sources|
    requires forall j :: 0 <= j < |sources| && j != i ==> key !in Spread(sources[j])
    ensures key in Assign(sources) <==> key in Spread(sources[i])
    ensures key in Spread(sources[i]) ==> Assign(sources)[key] == Spread(sources[i])[key]
  {
    var init := sources[..|sources| - 1];
    if i == |sources| - 1 {
      AssignAbsent(init, key);
    } else {
      AssignLookup(init, i, key);
    }
  }

  lemma {:induction false} AssignAbsent(sources: seq<Json>, key: string)
    requires forall j :: 0 <= j < |sources| ==> key !in Spread(sources[j])
    ensures key !in Assign(sources)
  {
    if sources != [] {
      AssignAbsent(sources[..|sources| - 1], key);
    }
  }

  /** Every key of the merge comes from one of the sources. */
  lemma {:induction false} AssignKeys(sources: seq<Json>, key: string)
    requires key in Assign(sources)
    ensures exists j :: 0 <= j < |sources| && key in Spread(sources[j])
  {
    var init := sources[..|sources| - 1];
    if key !in Spread(sources[|sources| - 1]) {
      AssignKeys(init, key);
      var j :| 0 <= j < |init| && key in Spread(init[j]);
      assert sources[j] == init[j];
    }
  }

  // ---------------------------------------------------------------------
  // extract
  // ---------------------------------------------------------------------

  /** The name an or records for its chosen alternative: `String(typeNames ? typeNames[k] : k)`. */
  function OrTypeName(p: Pattern, k: nat): string {
    if p.OrPattern? && p.typeNames.Some? then
      (if k < |p.typeNames.value| then p.typeNames.value[k] else "undefined")
    else NatToString(k)
  }

  /** The only way extracting can fail: an option selecting from a shape that is null or undefined. */
  ghost predicate SelectsInOption<T>(t: ParseTree<T>)
    decreases t, 1
  {
    match t
    case OptionParse(p, present) =>
      Named(p.AsOf()) && present.Some? && (Named(SelectOf(p)) || SelectsInOption(present.value))
    case SequenceParse(_, items) => AnySelectsInOption(items)
    case ManyParse(_, items, _) => AnySelectsInOption(items)
    case OrParse(_, _, c) => SelectsInOption(c)
    case ThunkParse(_, c) => SelectsInOption(c)
    case PrintIndentParse(_, c) => SelectsInOption(c)
    case PrintGroupParse(_, c) => SelectsInOption(c)
    case PrintIfParse(_, c) => SelectsInOption(c)
    case _ => false
  }

  ghost predicate AnySelectsInOption<T>(ts: seq<ParseTree<T>>)
    decreases ts, 0
  {
    ts != [] && (SelectsInOption(ts[0]) || AnySelectsInOption(ts[1..]))
  }

  /** Shaper.extract. */
  function Extract<T>(o: ShaperOptions<T>, t: ParseTree<T>): (r: Result<Json, ShapeError>)
    ensures r.Err? ==> SelectsInOption(t)
    decreases t, 1
  {
    match t
    case ThunkParse(p, c) =>
      var shape :- Extract(o, c);
      Ok(Wrap(KeyOf(p.AsOf()), shape))
    case PrintGroupParse(_, c) => Extract(o, c)
    case PrintIndentParse(_, c) => Extract(o, c)
    case PrintIfParse(_, c) => Extract(o, c)
    case PrintLiteralParse(_) => Ok(JNull)
    case PrintLineParse(_) => Ok(JNull)
    case ConsumeParse(p, token) =>
      if Named(p.AsOf()) then Ok(Wrap(p.AsOf().value, o.tokenToShape(token))) else Ok(JNull)
    case SequenceParse(p, items) =>
      var shapes :- ExtractAll(o, items);
      var shape := Wrap(KeyOf(p.AsOf()), Merged(shapes));
      if Named(SelectOf(p)) then Property(shape, SelectOf(p).value) else Ok(shape)
    case OrParse(p, k, c) =>
      var shape :- Extract(o, c);
      if Named(p.AsOf()) then
        Ok(Wrap(p.AsOf().value, o.orValueToShape(OrValue(OrTypeName(p, k), shape), LabelOpt(p))))
      else Ok(shape)
    case ManyParse(p, items, _) =>
      var shapes :- ExtractAll(o, items);
      if Named(p.AsOf()) then Ok(Wrap(p.AsOf().value, JList(shapes))) else Ok(JList(shapes))
    case OptionParse(p, present) =>
      if !Named(p.AsOf()) then Ok(JNull)
      else
        var shape :- if present.Some? then Extract(o, present.value) else Ok(DefaultOf(p));
        if shape != DefaultOf(p) && Named(SelectOf(p)) then
          var selected :- Property(shape, SelectOf(p).value);
          Ok(Wrap(p.AsOf().value, selected))
        else Ok(Wrap(p.AsOf().value, shape))
  }

  /**
   * Where extraction fails: a named option whose present child extracted to
   * null or undefined (a shape other than its default) and that selects a
   * field of it. The error names the field.
   */
  lemma ExtractOptionFails<T>(o: ShaperOptions<T>, t: ParseTree<T>)
    requires t.OptionParse? && t.present.Some? && Extract(o, t.present.value).Ok?
    ensures var shape := Extract(o, t.present.value).value;
      Extract(o, t).Err? <==>
        && Named(t.pattern.AsOf()) && Named(SelectOf(t.pattern))
        && (shape == JNull || shape == JUndefined) && shape != DefaultOf(t.pattern)
    ensures Extract(o, t).Err? ==> Extract(o, t).error == NotAContainer(SelectOf(t.pattern).value)
  {
  }

  /** `items.map(extract)`, stopping at the first failure. */
  function ExtractAll<T>(o: ShaperOptions<T>, ts: seq<ParseTree<T>>): (r: Result<seq<Json>, ShapeError>)
    ensures r.Ok? ==> |r.value| == |ts| && forall k :: 0 <= k < |ts| ==> Extract(o, ts[k]) == Ok(r.value[k])
    ensures r.Err? ==> AnySelectsInOption(ts)
    decreases ts, 0
  {
    if ts == [] then Ok([])
    else
      var first :- Extract(o, ts[0]);
      var rest :- ExtractAll(o, ts[1..]);
      Ok([first] + rest)
  }

  // ---------------------------------------------------------------------
  // inject
  // ---------------------------------------------------------------------

  /** The first position of `x` in `xs` (`indexOf`, with -1 as None). */
  function IndexOf(xs: seq<string>, x: string): (r: Option<nat>)
    ensures r.Some? ==> r.value < |xs| && xs[r.value] == x && x !in xs[..r.value]
    ensures r.None? ==> x !in xs
  {
    if xs == [] then None
    else if xs[0] == x then Some(0)
    else
      var rest := IndexOf(xs[1..], x);
      if rest.Some? then
        assert xs[..rest.value + 1] == [xs[0]] + xs[1..][..rest.value];
        Some(rest.value + 1)
      else None
  }

  /**
   * The alternative an or shape names: the position of its type among the
   * type names, or the type read as a number. A position with no child
   * pattern is an error.
   */
  function MatchIndexOf(p: Pattern, typeName: string): (r: Result<nat, ShapeError>)
    requires p.OrPattern?
    ensures r.Ok? ==> r.value < |p.children|
  {
    if p.typeNames.Some? then
      var k := IndexOf(p.typeNames.value, typeName);
      if k.Some? && k.value < |p.children| then Ok(k.value) else Err(NoSuchAlternative(typeName))
    else if AllDigits(typeName) && ParseDigits(typeName) < |p.children| then Ok(ParseDigits(typeName))
    else Err(NoSuchAlternative(typeName))
  }

  /** The name extract records for an alternative reads back as that alternative. */
  lemma OrIndexRoundTrip(p: Pattern, k: nat)
    requires p.OrPattern? && k < |p.children|
    requires p.typeNames.Some? ==> k < |p.typeNames.value| && p.typeNames.value[k] !in p.typeNames.value[..k]
    ensures MatchIndexOf(p, OrTypeName(p, k)) == Ok(k)
  {
    if p.typeNames.Some? {
      IndexOfFirst(p.typeNames.value, OrTypeName(p, k), k);
    } else {
      ParseNatToString(k);
    }
  }

  /** A value found at `k` and nowhere before is found at `k`. */
  lemma {:induction false} IndexOfFirst(xs: seq<string>, x: string, k: nat)
    requires k < |xs| && xs[k] == x && x !in xs[..k]
    ensures IndexOf(xs, x) == Some(k)
  {
    if k > 0 {
      assert xs[0] == xs[..k][0];
      assert xs[1..][..k - 1] == xs[..k][1..];
      IndexOfFirst(xs[1..], x, k - 1);
    }
  }

  /** `slice(0, -1)` of a list of `n` items, each replaced by `{}`. */
  function Blanks(n: nat): seq<Json> {
    seq(if n == 0 then 0 else n - 1, _ => JObject(map[]))
  }

  /**
   * Shaper.inject, with the grammar for the targets of thunks. Only thunks
   * spend fuel, one unit each; running out stands for the call stack
   * overflowing on a thunk cycle that reads no key.
   */
  function Inject<T>(o: ShaperOptions<T>, g: Grammar, data: Json, p: Pattern, fuel: nat): (r: Result<ParseTree<T>, ShapeError>)
    ensures r.Ok? ==> r.value.pattern == p
    decreases fuel, p, 1, 0
  {
    match p
    case ThunkPattern(_, asName, _, target) =>
      var value :- Unwrap(KeyOf(asName), data);
      if target !in g then Err(UnknownThunk(target))
      else if fuel == 0 then Err(OutOfFuel)
      else
        var child :- Inject(o, g, value, g[target], fuel - 1);
        Ok(ThunkParse(p, child))
    case PrintGroupPattern(_, value) =>
      var child :- Inject(o, g, data, value, fuel);
      Ok(PrintGroupParse(p, child))
    case PrintIndentPattern(_, value) =>
      var child :- Inject(o, g, data, value, fuel);
      Ok(PrintIndentParse(p, child))
    case PrintIfPattern(_, value, _, _, _) =>
      var child :- Inject(o, g, data, value, fuel);
      Ok(PrintIfParse(p, child))
    case PrintLiteralPattern(_, _) => Ok(PrintLiteralParse(p))
    case PrintLinePattern(_, _) => Ok(PrintLineParse(p))
    case ConsumePattern(_, asName, _, tokenType) =>
      if Named(asName) then
        var value :- Unwrap(asName.value, data);
        Ok(ConsumeParse(p, o.shapeToToken(value, tokenType)))
      else Ok(ConsumeParse(p, o.shapeToToken(o.stringToShape(tokenType, tokenType), tokenType)))
    case OrPattern(_, asName, patternLabel, children, _, _) =>
      if !Named(asName) then Err(OrWithoutAs)
      else
        var shape :- Unwrap(asName.value, data);
        var orValue := o.orShapeToValue(shape, patternLabel);
        var k :- MatchIndexOf(p, orValue.typeName);
        var child :- Inject(o, g, orValue.value, children[k], fuel);
        Ok(OrParse(p, k, child))
    case SequencePattern(_, asName, _, children, select) =>
      var value :- Unwrap(KeyOf(asName), data);
      var items :- InjectChildren(o, g, Selecting(select, value), children, fuel);
      Ok(SequenceParse(p, items))
    case ManyPattern(_, asName, _, value, separator) =>
      if !Named(asName) then Err(ManyWithoutAs)
      else
        var list :- Unwrap(asName.value, data);
        if !list.JList? then Err(NotAList)
        else
          var items :- InjectItems(o, g, list.elements, value, fuel);
          var separators :-
            if separator.Some? then InjectItems(o, g, Blanks(|list.elements|), separator.value, fuel) else Ok([]);
          Ok(ManyParse(p, items, separators))
    case OptionPattern(_, asName, _, value, select, _) =>
      if !Named(asName) then Err(OptionWithoutAs)
      else if asName.value == "." then Err(OptionWithDot)
      else
        var found :- UnwrapOptional(asName.value, data);
        if found == DefaultOf(p) then Ok(OptionParse(p, None))
        else
          var child :- Inject(o, g, Selecting(select, found), value, fuel);
          Ok(OptionParse(p, Some(child)))
  }

  /** The children of a sequence, each injected from the same value. */
  function InjectChildren<T>(o: ShaperOptions<T>, g: Grammar, data: Json, ps: seq<Pattern>, fuel: nat)
    : (r: Result<seq<ParseTree<T>>, ShapeError>)
    ensures r.Ok? ==> |r.value| == |ps| && forall k :: 0 <= k < |ps| ==> r.value[k].pattern == ps[k]
    decreases fuel, ps, 0, 0
  {
    if ps == [] then Ok([])
    else
      var first :- Inject(o, g, data, ps[0], fuel);
      var rest :- InjectChildren(o, g, data, ps[1..], fuel);
      Ok([first] + rest)
  }

  /** One node of pattern `q` per value, in order. */
  function InjectItems<T>(o: ShaperOptions<T>, g: Grammar, values: seq<Json>, q: Pattern, fuel: nat)
    : (r: Result<seq<ParseTree<T>>, ShapeError>)
    ensures r.Ok? ==> |r.value| == |values| && forall k :: 0 <= k < |values| ==> r.value[k].pattern == q
    decreases fuel, q, 2, |values|
  {
    if values == [] then Ok([])
    else
      var first :- Inject(o, g, values[0], q, fuel);
      var rest :- InjectItems(o, g, values[1..], q, fuel);
      Ok([first] + rest)
  }

  /** Inject refuses an or or a many without a name, and an option without one or named '.'. */
  lemma InjectNeedsNames<T>(o: ShaperOptions<T>, g: Grammar, data: Json, p: Pattern, fuel: nat)
    ensures p.OrPattern? && !Named(p.asName) ==> Inject(o, g, data, p, fuel) == Err(OrWithoutAs)
    ensures p.ManyPattern? && !Named(p.asName) ==> Inject(o, g, data, p, fuel) == Err(ManyWithoutAs)
    ensures p.OptionPattern? && !Named(p.asName) ==> Inject(o, g, data, p, fuel) == Err(OptionWithoutAs)
    ensures p.OptionPattern? && p.asName == Some(".") ==> Inject(o, g, data, p, fuel) == Err(OptionWithDot)
  {
  }

  // ---------------------------------------------------------------------
  // What inject reads, and which data give back a given tree
  // ---------------------------------------------------------------------

  /** The part of its input value a tree's injection looks at: named fields, or the whole value. */
  datatype Footprint = Whole | Fields(keys: set<string>)

  function KeyReads(key: string): Footprint {
    if key == "." then Whole else Fields({key})
  }

  ghost function Reads<T>(t: ParseTree<T>): Footprint
    decreases t, 1
  {
    match t
    case ConsumeParse(p, _) => if Named(p.AsOf()) then KeyReads(p.AsOf().value) else Fields({})
    case SequenceParse(p, items) =>
      if KeyOf(p.AsOf()) != "." then Fields({KeyOf(p.AsOf())})
      else if Named(SelectOf(p)) then Whole
      else ChildReads(items)
    case OrParse(p, _, _) => KeyReads(KeyOf(p.AsOf()))
    case ManyParse(p, _, _) => KeyReads(KeyOf(p.AsOf()))
    case OptionParse(p, _) => KeyReads(KeyOf(p.AsOf()))
    case ThunkParse(p, c) => if KeyOf(p.AsOf()) != "." then Fields({KeyOf(p.AsOf())}) else Reads(c)
    case PrintIndentParse(_, c) => Reads(c)
    case PrintGroupParse(_, c) => Reads(c)
    case PrintIfParse(_, c) => Reads(c)
    case PrintLiteralParse(_) => Fields({})
    case PrintLineParse(_) => Fields({})
  }

  /** The children of a sequence all read the value the sequence passes on. */
  ghost function ChildReads<T>(ts: seq<ParseTree<T>>): Footprint
    decreases ts, 0
  {
    if ts == [] then Fields({})
    else
      var first := Reads(ts[0]);
      var rest := ChildReads(ts[1..]);
      if first.Fields? && rest.Fields? then Fields(first.keys + rest.keys) else Whole
  }

  ghost function ReadKeys<T>(t: ParseTree<T>): set<string> {
    if Reads(t).Fields? then Reads(t).keys else {}
  }

  lemma {:induction false} ChildReadsSub<T>(ts: seq<ParseTree<T>>, i: nat)
    requires ChildReads(ts).Fields? && i < |ts|
    ensures Reads(ts[i]).Fields? && Reads(ts[i]).keys <= ChildReads(ts).keys
  {
    if i > 0 {
      ChildReadsSub(ts[1..], i - 1);
    }
  }

  lemma {:induction false} ChildReadsCover<T>(ts: seq<ParseTree<T>>)
    requires forall i :: 0 <= i < |ts| ==> Reads(ts[i]).Fields?
    ensures ChildReads(ts).Fields?
  {
    if ts != [] {
      ChildReadsCover(ts[1..]);
    }
  }

  /** What `unwrapOptionalValue` reads from an object: the field, or null when it is missing. */
  function FieldOrNull(d: Json, key: string): Json
    requires d.JObject?
  {
    if key in d.fields then d.fields[key] else JNull
  }

  /** Two values no injection reading only `keys` can tell apart. */
  ghost predicate Agree(d: Json, e: Json, keys: set<string>) {
    forall key :: key in keys ==> d.JObject? && e.JObject? && FieldOrNull(d, key) == FieldOrNull(e, key)
  }

  /** The value under a name is there and not null ('.' names the value itself). */
  predicate HasShape(d: Json, key: string) {
    key == "." || (d.JObject? && key in d.fields && d.fields[key] != JNull)
  }

  function Under(d: Json, key: string): Json
    requires HasShape(d, key)
  {
    if key == "." then d else d.fields[key]
  }

  /**
   * `d` provides `t`: injecting `d` into `t`'s pattern finds, at every node,
   * exactly the token, alternative, items and presence that `t` records.
   */
  ghost predicate Provides<T>(o: ShaperOptions<T>, d: Json, t: ParseTree<T>)
    decreases t
  {
    match t
    case ConsumeParse(p, token) =>
      && p.ConsumePattern?
      && (if Named(p.asName) then
            HasShape(d, p.asName.value) && o.shapeToToken(Under(d, p.asName.value), p.tokenType) == token
          else o.shapeToToken(o.stringToShape(p.tokenType, p.tokenType), p.tokenType) == token)
    case SequenceParse(p, items) =>
      && p.SequencePattern?
      && HasShape(d, KeyOf(p.asName))
      && forall k :: 0 <= k < |items| ==> Provides(o, Selecting(p.select, Under(d, KeyOf(p.asName))), items[k])
    case OrParse(p, k, c) =>
      && p.OrPattern? && Named(p.asName) && HasShape(d, p.asName.value)
      && var orValue := o.orShapeToValue(Under(d, p.asName.value), p.patternLabel);
         MatchIndexOf(p, orValue.typeName) == Ok(k) && Provides(o, orValue.value, c)
    case ManyParse(p, items, seps) =>
      && p.ManyPattern? && Named(p.asName) && HasShape(d, p.asName.value)
      && Under(d, p.asName.value).JList?
      && var es := Under(d, p.asName.value).elements;
         && |es| == |items|
         && (forall k :: 0 <= k < |items| ==> Provides(o, es[k], items[k]))
         && (p.separator.Some? ==> |seps| == |Blanks(|items|)|)
         && (forall k :: 0 <= k < |seps| ==> Provides(o, JObject(map[]), seps[k]))
    case OptionParse(p, present) =>
      && p.OptionPattern? && Named(p.asName) && p.asName.value != "." && d.JObject?
      && var found := FieldOrNull(d, p.asName.value);
         if present.None? then found == DefaultOf(p)
         else found != DefaultOf(p) && Provides(o, Selecting(p.select, found), present.value)
    case ThunkParse(p, c) =>
      p.ThunkPattern? && HasShape(d, KeyOf(p.asName)) && Provides(o, Under(d, KeyOf(p.asName)), c)
    case PrintIndentParse(p, c) => p.PrintIndentPattern? && Provides(o, d, c)
    case PrintGroupParse(p, c) => p.PrintGroupPattern? && Provides(o, d, c)
    case PrintIfParse(p, c) => p.PrintIfPattern? && Provides(o, d, c)
    case PrintLiteralParse(p) => p.PrintLiteralPattern?
    case PrintLineParse(p) => p.PrintLinePattern?
  }

  /** Injection looks only at its footprint: values that agree there provide the same trees. */
  lemma {:induction false} ProvidesLocal<T>(o: ShaperOptions<T>, d: Json, e: Json, t: ParseTree<T>)
    requires Provides(o, d, t) && Reads(t).Fields? && Agree(d, e, Reads(t).keys)
    ensures Provides(o, e, t)
    decreases t, 1
  {
    match t
    case ConsumeParse(_, _) => ProvidesLocalField(o, d, e, t);
    case SequenceParse(_, _) => ProvidesLocalSequence(o, d, e, t);
    case OrParse(_, _, _) => ProvidesLocalField(o, d, e, t);
    case ManyParse(_, _, _) => ProvidesLocalField(o, d, e, t);
    case OptionParse(_, _) => ProvidesLocalField(o, d, e, t);
    case ThunkParse(p, c) =>
      if KeyOf(p.asName) != "." {
        assert FieldOrNull(d, KeyOf(p.asName)) == FieldOrNull(e, KeyOf(p.asName));
      } else {
        ProvidesLocal(o, d, e, c);
      }
    case PrintIndentParse(_, c) => ProvidesLocal(o, d, e, c);
    case PrintGroupParse(_, c) => ProvidesLocal(o, d, e, c);
    case PrintIfParse(_, c) => ProvidesLocal(o, d, e, c);
    case PrintLiteralParse(_) =>
    case PrintLineParse(_) =>
  }

  /** ProvidesLocal for a sequence: its own field, or else each item in turn. */
  lemma {:induction false} ProvidesLocalSequence<T>(o: ShaperOptions<T>, d: Json, e: Json, t: ParseTree<T>)
    requires t.SequenceParse?
    requires Provides(o, d, t) && Reads(t).Fields? && Agree(d, e, Reads(t).keys)
    ensures Provides(o, e, t)
    decreases t, 0
  {
    var p, items := t.pattern, t.items;
    if KeyOf(p.asName) != "." {
      assert FieldOrNull(d, KeyOf(p.asName)) == FieldOrNull(e, KeyOf(p.asName));
    } else {
      forall k | 0 <= k < |items| ensures Provides(o, Selecting(p.select, e), items[k]) {
        ChildReadsSub(items, k);
        ProvidesLocal(o, d, e, items[k]);
      }
    }
  }

  /** ProvidesLocal for the nodes that read one field of the value and nothing below it. */
  lemma ProvidesLocalField<T>(o: ShaperOptions<T>, d: Json, e: Json, t: ParseTree<T>)
    requires t.ConsumeParse? || t.OrParse? || t.ManyParse? || t.OptionParse?
    requires Provides(o, d, t) && Reads(t).Fields? && Agree(d, e, Reads(t).keys)
    ensures Provides(o, e, t)
  {
    match t
    case ConsumeParse(p, _) =>
      if Named(p.asName) && p.asName.value != "." {
        assert FieldOrNull(d, p.asName.value) == FieldOrNull(e, p.asName.value);
      }
    case OrParse(p, _, _) =>
      assert FieldOrNull(d, p.asName.value) == FieldOrNull(e, p.asName.value);
    case ManyParse(p, _, _) =>
      assert FieldOrNull(d, p.asName.value) == FieldOrNull(e, p.asName.value);
    case OptionParse(p, _) =>
      assert FieldOrNull(d, p.asName.value) == FieldOrNull(e, p.asName.value);
  }

  /** The height of a tree; injecting it needs at most this much fuel. */
  function Depth<T>(t: ParseTree<T>): (r: nat)
    ensures r >= 1
    decreases t, 1
  {
    match t
    case SequenceParse(_, items) => 1 + MaxDepth(items)
    case ManyParse(_, items, seps) =>
      var a := MaxDepth(items);
      var b := MaxDepth(seps);
      1 + if a < b then b else a
    case OrParse(_, _, c) => 1 + Depth(c)
    case OptionParse(_, present) => if present.Some? then 1 + Depth(present.value) else 1
    case ThunkParse(_, c) => 1 + Depth(c)
    case PrintIndentParse(_, c) => 1 + Depth(c)
    case PrintGroupParse(_, c) => 1 + Depth(c)
    case PrintIfParse(_, c) => 1 + Depth(c)
    case _ => 1
  }

  function MaxDepth<T>(ts: seq<ParseTree<T>>): (r: nat)
    ensures forall k :: 0 <= k < |ts| ==> Depth(ts[k]) <= r
    decreases ts, 0
  {
    if ts == [] then 0
    else
      var rest := MaxDepth(ts[1..]);
      if Depth(ts[0]) < rest then rest else Depth(ts[0])
  }

  /** A value that provides a fitting tree injects into exactly that tree. */
  lemma {:induction false} ProvidesInject<T>(o: ShaperOptions<T>, g: Grammar, d: Json, t: ParseTree<T>, fuel: nat)
    requires Fits(g, t) && Provides(o, d, t) && fuel >= Depth(t)
    ensures Inject(o, g, d, t.pattern, fuel) == Ok(t)
    decreases t, 1
  {
    match t
    case ConsumeParse(_, _) => ProvidesInjectConsume(o, g, d, t, fuel);
    case SequenceParse(_, _) => ProvidesInjectSequence(o, g, d, t, fuel);
    case OrParse(_, _, _) => ProvidesInjectOr(o, g, d, t, fuel);
    case ManyParse(_, _, _) => ProvidesInjectMany(o, g, d, t, fuel);
    case OptionParse(_, _) => ProvidesInjectOption(o, g, d, t, fuel);
    case ThunkParse(_, _) => ProvidesInjectThunk(o, g, d, t, fuel);
    case PrintIndentParse(_, _) => ProvidesInjectPrint(o, g, d, t, fuel);
    case PrintGroupParse(_, _) => ProvidesInjectPrint(o, g, d, t, fuel);
    case PrintIfParse(_, _) => ProvidesInjectPrint(o, g, d, t, fuel);
    case PrintLiteralParse(_) => ProvidesInjectPrint(o, g, d, t, fuel);
    case PrintLineParse(_) => ProvidesInjectPrint(o, g, d, t, fuel);
  }

  lemma {:induction false} ProvidesInjectPrint<T>(o: ShaperOptions<T>, g: Grammar, d: Json, t: ParseTree<T>, fuel: nat)
    requires t.PrintIndentParse? || t.PrintGroupParse? || t.PrintIfParse? || t.PrintLiteralParse? || t.PrintLineParse?
    requires Fits(g, t) && Provides(o, d, t) && fuel >= Depth(t)
    ensures Inject(o, g, d, t.pattern, fuel) == Ok(t)
    decreases t, 0
  {
    match t
    case PrintIndentParse(_, c) => ProvidesInject(o, g, d, c, fuel);
    case PrintGroupParse(_, c) => ProvidesInject(o, g, d, c, fuel);
    case PrintIfParse(_, c) => ProvidesInject(o, g, d, c, fuel);
    case PrintLiteralParse(_) =>
    case PrintLineParse(_) =>
  }

  lemma ProvidesInjectConsume<T>(o: ShaperOptions<T>, g: Grammar, d: Json, t: ParseTree<T>, fuel: nat)
    requires t.ConsumeParse? && Fits(g, t) && Provides(o, d, t)
    ensures Inject(o, g, d, t.pattern, fuel) == Ok(t)
  {
  }

  lemma {:induction false} ProvidesInjectSequence<T>(o: ShaperOptions<T>, g: Grammar, d: Json, t: ParseTree<T>, fuel: nat)
    requires t.SequenceParse? && Fits(g, t) && Provides(o, d, t) && fuel >= Depth(t)
    ensures Inject(o, g, d, t.pattern, fuel) == Ok(t)
    decreases t, 0
  {
    var p := t.pattern;
    var value := Under(d, KeyOf(p.asName));
    assert Unwrap(KeyOf(p.asName), d) == Ok(value);
    ProvidesInjectChildren(o, g, Selecting(p.select, value), t.items, p.children, fuel);
  }

  lemma {:induction false} ProvidesInjectOr<T>(o: ShaperOptions<T>, g: Grammar, d: Json, t: ParseTree<T>, fuel: nat)
    requires t.OrParse? && Fits(g, t) && Provides(o, d, t) && fuel >= Depth(t)
    ensures Inject(o, g, d, t.pattern, fuel) == Ok(t)
    decreases t, 0
  {
    var p := t.pattern;
    var shape := Under(d, p.asName.value);
    assert Unwrap(p.asName.value, d) == Ok(shape);
    ProvidesInject(o, g, o.orShapeToValue(shape, p.patternLabel).value, t.child, fuel);
  }

  lemma {:induction false} ProvidesInjectOption<T>(o: ShaperOptions<T>, g: Grammar, d: Json, t: ParseTree<T>, fuel: nat)
    requires t.OptionParse? && Fits(g, t) && Provides(o, d, t) && fuel >= Depth(t)
    ensures Inject(o, g, d, t.pattern, fuel) == Ok(t)
    decreases t, 0
  {
    var p := t.pattern;
    var found := FieldOrNull(d, p.asName.value);
    assert UnwrapOptional(p.asName.value, d) == Ok(found);
    if t.present.Some? {
      ProvidesInject(o, g, Selecting(p.select, found), t.present.value, fuel);
    }
  }

  lemma {:induction false} ProvidesInjectThunk<T>(o: ShaperOptions<T>, g: Grammar, d: Json, t: ParseTree<T>, fuel: nat)
    requires t.ThunkParse? && Fits(g, t) && Provides(o, d, t) && fuel >= Depth(t)
    ensures Inject(o, g, d, t.pattern, fuel) == Ok(t)
    decreases t, 0
  {
    var p := t.pattern;
    var value := Under(d, KeyOf(p.asName));
    assert Unwrap(KeyOf(p.asName), d) == Ok(value);
    ProvidesInject(o, g, value, t.child, fuel - 1);
  }

  lemma {:induction false} ProvidesInjectMany<T>(o: ShaperOptions<T>, g: Grammar, d: Json, t: ParseTree<T>, fuel: nat)
    requires t.ManyParse? && Fits(g, t) && Provides(o, d, t) && fuel >= Depth(t)
    ensures Inject(o, g, d, t.pattern, fuel) == Ok(t)
    decreases t, 0
  {
    var p := t.pattern;
    assert Unwrap(p.asName.value, d) == Ok(Under(d, p.asName.value));
    ProvidesInjectItems(o, g, Under(d, p.asName.value).elements, t.items, p.value, fuel);
    if p.separator.Some? {
      ProvidesInjectItems(o, g, Blanks(|t.items|), t.separators, p.separator.value, fuel);
    }
  }

  lemma {:induction false} ProvidesInjectChildren<T>(o: ShaperOptions<T>, g: Grammar, d: Json, ts: seq<ParseTree<T>>,
                                                     ps: seq<Pattern>, fuel: nat)
    requires |ts| == |ps|
    requires forall k :: 0 <= k < |ts| ==> ts[k].pattern == ps[k] && Fits(g, ts[k]) && Provides(o, d, ts[k])
    requires forall k :: 0 <= k < |ts| ==> Depth(ts[k]) <= fuel
    ensures InjectChildren(o, g, d, ps, fuel) == Ok(ts)
    decreases ts, 0
  {
    if ts != [] {
      ProvidesInject(o, g, d, ts[0], fuel);
      ProvidesInjectChildren(o, g, d, ts[1..], ps[1..], fuel);
      assert [ts[0]] + ts[1..] == ts;
    }
  }

  lemma {:induction false} ProvidesInjectItems<T>(o: ShaperOptions<T>, g: Grammar, es: seq<Json>, ts: seq<ParseTree<T>>,
                                                  q: Pattern, fuel: nat)
    requires |ts| == |es|
    requires forall k :: 0 <= k < |ts| ==> ts[k].pattern == q && Fits(g, ts[k]) && Provides(o, es[k], ts[k])
    requires forall k :: 0 <= k < |ts| ==> Depth(ts[k]) <= fuel
    ensures InjectItems(o, g, es, q, fuel) == Ok(ts)
    decreases ts, 0
  {
    if ts != [] {
      ProvidesInject(o, g, es[0], ts[0], fuel);
      ProvidesInjectItems(o, g, es[1..], ts[1..], q, fuel);
      assert [ts[0]] + ts[1..] == ts;
    }
  }

  // ---------------------------------------------------------------------
  // The round trip
  // ---------------------------------------------------------------------

  /** A shape stays within a footprint of fields: null, or an object with only those keys. */
  ghost predicate Within(e: Json, f: Footprint) {
    f.Fields? ==> (e == JNull && f.keys == {}) || (e.JObject? && e.fields.Keys <= f.keys)
  }

  /** The children of a sequence read separate fields. */
  ghost predicate DisjointReads<T>(ts: seq<ParseTree<T>>) {
    && (forall i :: 0 <= i < |ts| ==> Reads(ts[i]).Fields?)
    && (forall i, j :: 0 <= i < |ts| && 0 <= j < |ts| && i != j ==> ReadKeys(ts[i]) !! ReadKeys(ts[j]))
  }

  /**
   * The trees whose shape determines them. Extract forgets what injection
   * has to guess back: the tokens of unnamed consumes (injection uses the
   * canonical token of the type), the chosen alternative of an unnamed or,
   * the presence of an option whose shape equals its default, fields that
   * siblings of a sequence overwrite, and the separators of a many. A tree
   * avoids all of these, and its token and or-shape conversions invert
   * each other on it.
   */
  ghost predicate Reversible<T>(o: ShaperOptions<T>, t: ParseTree<T>)
    decreases t, 1
  {
    match t
    case ConsumeParse(p, token) =>
      && p.ConsumePattern?
      && (if Named(p.asName) then
            && o.shapeToToken(o.tokenToShape(token), p.tokenType) == token
            && (p.asName.value != "." ==> o.tokenToShape(token) != JNull)
          else o.shapeToToken(o.stringToShape(p.tokenType, p.tokenType), p.tokenType) == token)
    case SequenceParse(p, items) =>
      && p.SequencePattern?
      && (forall k :: 0 <= k < |items| ==> Reversible(o, items[k]))
      && DisjointReads(items)
      && (Named(p.select) ==>
            && KeyOf(p.asName) == "."
            && (forall k :: 0 <= k < |items| ==> ReadKeys(items[k]) <= {p.select.value})
            && ExtractAll(o, items).Ok?
            && p.select.value in Merged(ExtractAll(o, items).value).fields)
    case OrParse(p, k, c) =>
      && p.OrPattern? && Named(p.asName) && k < |p.children|
      && (p.typeNames.Some? ==> k < |p.typeNames.value| && p.typeNames.value[k] !in p.typeNames.value[..k])
      && Reversible(o, c) && Extract(o, c).Ok?
      && var orValue := OrValue(OrTypeName(p, k), Extract(o, c).value);
         && o.orShapeToValue(o.orValueToShape(orValue, p.patternLabel), p.patternLabel) == orValue
         && (p.asName.value != "." ==> o.orValueToShape(orValue, p.patternLabel) != JNull)
    case ManyParse(p, items, seps) =>
      && p.ManyPattern? && Named(p.asName)
      && (forall k :: 0 <= k < |items| ==> Reversible(o, items[k]))
      && SeparatorShape(p, |items|, |seps|)
      && (forall k :: 0 <= k < |seps| ==> Reversible(o, seps[k]) && Reads(seps[k]) == Fields({}))
    case OptionParse(p, present) =>
      && p.OptionPattern? && Named(p.asName) && p.asName.value != "."
      && (present.Some? ==>
            && Reversible(o, present.value) && Extract(o, present.value).Ok?
            && var shape := Extract(o, present.value).value;
               && shape != DefaultOf(p)
               && (Named(p.select) ==>
                     && shape.JObject? && p.select.value in shape.fields
                     && shape.fields[p.select.value] != DefaultOf(p)
                     && Reads(present.value).Fields? && Reads(present.value).keys <= {p.select.value}))
    case ThunkParse(p, c) =>
      && p.ThunkPattern? && Reversible(o, c)
      && (KeyOf(p.asName) != "." ==> Extract(o, c).Ok? && Extract(o, c).value != JNull)
    case PrintIndentParse(p, c) => p.PrintIndentPattern? && Reversible(o, c)
    case PrintGroupParse(p, c) => p.PrintGroupPattern? && Reversible(o, c)
    case PrintIfParse(p, c) => p.PrintIfPattern? && Reversible(o, c)
    case PrintLiteralParse(p) => p.PrintLiteralPattern?
    case PrintLineParse(p) => p.PrintLinePattern?
  }

  /** Each child of a sequence sees, in the merged shape, exactly the fields of its own shape. */
  lemma MergedAgrees<T>(shapes: seq<Json>, ts: seq<ParseTree<T>>, i: nat)
    requires |shapes| == |ts| && i < |ts| && DisjointReads(ts)
    requires forall k :: 0 <= k < |ts| ==> Within(shapes[k], Reads(ts[k]))
    ensures Agree(shapes[i], Merged(shapes), ReadKeys(ts[i]))
  {
    forall key | key in ReadKeys(ts[i])
      ensures shapes[i].JObject? && FieldOrNull(shapes[i], key) == FieldOrNull(Merged(shapes), key)
    {
      forall j | 0 <= j < |shapes| && j != i ensures key !in Spread(shapes[j]) {
        assert ReadKeys(ts[i]) !! ReadKeys(ts[j]);
      }
      AssignLookup(shapes, i, key);
    }
  }

  /** The merged shape has no field that no child reads. */
  lemma MergedWithin<T>(shapes: seq<Json>, ts: seq<ParseTree<T>>)
    requires |shapes| == |ts| && DisjointReads(ts)
    requires forall k :: 0 <= k < |ts| ==> Within(shapes[k], Reads(ts[k]))
    ensures ChildReads(ts).Fields? && Within(Merged(shapes), ChildReads(ts))
  {
    ChildReadsCover(ts);
    forall key | key in Merged(shapes).fields ensures key in ChildReads(ts).keys {
      AssignKeys(shapes, key);
      var j :| 0 <= j < |shapes| && key in Spread(shapes[j]);
      ChildReadsSub(ts, j);
    }
  }

  lemma {:induction false} ExtractAllOk<T>(o: ShaperOptions<T>, ts: seq<ParseTree<T>>)
    requires forall k :: 0 <= k < |ts| ==> Extract(o, ts[k]).Ok?
    ensures ExtractAll(o, ts).Ok?
  {
    if ts != [] {
      ExtractAllOk(o, ts[1..]);
    }
  }

  /** A reversible tree extracts, and its shape provides it and stays within what it reads. */
  lemma {:induction false} ExtractProvides<T>(o: ShaperOptions<T>, t: ParseTree<T>)
    requires Reversible(o, t)
    ensures Extract(o, t).Ok? && Provides(o, Extract(o, t).value, t) && Within(Extract(o, t).value, Reads(t))
    decreases t, 1
  {
    match t
    case ConsumeParse(_, _) =>
    case SequenceParse(_, _) => ExtractProvidesSequence(o, t);
    case OrParse(p, k, c) =>
      ExtractProvides(o, c);
      OrIndexRoundTrip(p, k);
    case ManyParse(_, _, _) => ExtractProvidesMany(o, t);
    case OptionParse(_, _) => ExtractProvidesOption(o, t);
    case ThunkParse(_, c) => ExtractProvides(o, c);
    case PrintIndentParse(_, c) => ExtractProvides(o, c);
    case PrintGroupParse(_, c) => ExtractProvides(o, c);
    case PrintIfParse(_, c) => ExtractProvides(o, c);
    case PrintLiteralParse(_) =>
    case PrintLineParse(_) =>
  }

  lemma {:induction false} ExtractProvidesSequence<T>(o: ShaperOptions<T>, t: ParseTree<T>)
    requires t.SequenceParse? && Reversible(o, t)
    ensures Extract(o, t).Ok? && Provides(o, Extract(o, t).value, t) && Within(Extract(o, t).value, Reads(t))
    decreases t, 0
  {
    var p, items := t.pattern, t.items;
    forall k | 0 <= k < |items|
      ensures Extract(o, items[k]).Ok? && Provides(o, Extract(o, items[k]).value, items[k])
      ensures Within(Extract(o, items[k]).value, Reads(items[k]))
    {
      ExtractProvides(o, items[k]);
    }
    ExtractAllOk(o, items);
    var shapes := ExtractAll(o, items).value;
    var merged := Merged(shapes);
    forall k | 0 <= k < |items| ensures Provides(o, merged, items[k]) {
      MergedAgrees(shapes, items, k);
      ProvidesLocal(o, shapes[k], merged, items[k]);
    }
    if Named(p.select) {
      ExtractProvidesSelected(o, t, shapes);
      SequenceSelectedProvides(o, t, shapes);
    } else if KeyOf(p.asName) == "." {
      MergedWithin(shapes, items);
      SequenceWholeProvides(o, t, shapes);
    } else {
      SequenceKeyedProvides(o, t, shapes);
    }
  }

  /** A sequence under its own name provides its items from the merged shapes under that name. */
  lemma SequenceKeyedProvides<T>(o: ShaperOptions<T>, t: ParseTree<T>, shapes: seq<Json>)
    requires t.SequenceParse? && t.pattern.SequencePattern? && !Named(t.pattern.select) && KeyOf(t.pattern.asName) != "."
    requires ExtractAll(o, t.items) == Ok(shapes)
    requires forall k :: 0 <= k < |t.items| ==> Provides(o, Merged(shapes), t.items[k])
    ensures Extract(o, t).Ok? && Provides(o, Extract(o, t).value, t) && Within(Extract(o, t).value, Reads(t))
  {
    var key := KeyOf(t.pattern.asName);
    var shape := JObject(map[key := Merged(shapes)]);
    assert Extract(o, t) == Ok(shape);
    assert Under(shape, key) == Merged(shapes);
  }

  /** A sequence named '.' without a select provides its items from the merged shapes themselves. */
  lemma SequenceWholeProvides<T>(o: ShaperOptions<T>, t: ParseTree<T>, shapes: seq<Json>)
    requires t.SequenceParse? && t.pattern.SequencePattern? && !Named(t.pattern.select) && KeyOf(t.pattern.asName) == "."
    requires ExtractAll(o, t.items) == Ok(shapes)
    requires forall k :: 0 <= k < |t.items| ==> Provides(o, Merged(shapes), t.items[k])
    requires ChildReads(t.items).Fields? && Within(Merged(shapes), ChildReads(t.items))
    ensures Extract(o, t).Ok? && Provides(o, Extract(o, t).value, t) && Within(Extract(o, t).value, Reads(t))
  {
    assert Extract(o, t) == Ok(Merged(shapes));
  }

  /** A sequence with a select provides its items from the selected field of the merged shapes. */
  lemma SequenceSelectedProvides<T>(o: ShaperOptions<T>, t: ParseTree<T>, shapes: seq<Json>)
    requires t.SequenceParse? && t.pattern.SequencePattern? && Named(t.pattern.select) && KeyOf(t.pattern.asName) == "."
    requires ExtractAll(o, t.items) == Ok(shapes) && t.pattern.select.value in Merged(shapes).fields
    requires forall k :: 0 <= k < |t.items| ==>
      Provides(o, Selecting(t.pattern.select, Merged(shapes).fields[t.pattern.select.value]), t.items[k])
    ensures Extract(o, t).Ok? && Provides(o, Extract(o, t).value, t) && Within(Extract(o, t).value, Reads(t))
  {
    assert Extract(o, t) == Ok(Merged(shapes).fields[t.pattern.select.value]);
  }

  /** A sequence that selects a field: every item is provided by the selected field of the merged shapes. */
  lemma ExtractProvidesSelected<T>(o: ShaperOptions<T>, t: ParseTree<T>, shapes: seq<Json>)
    requires t.SequenceParse? && Reversible(o, t) && Named(t.pattern.select)
    requires ExtractAll(o, t.items) == Ok(shapes)
    requires forall k :: 0 <= k < |t.items| ==> Extract(o, t.items[k]).Ok? && Provides(o, Extract(o, t.items[k]).value, t.items[k])
    requires forall k :: 0 <= k < |t.items| ==> Within(Extract(o, t.items[k]).value, Reads(t.items[k]))
    ensures forall k :: 0 <= k < |t.items| ==> Provides(o, Selecting(t.pattern.select, Merged(shapes).fields[t.pattern.select.value]), t.items[k])
  {
    var p, items := t.pattern, t.items;
    var e := Merged(shapes).fields[p.select.value];
    forall k | 0 <= k < |items| ensures Provides(o, Selecting(p.select, e), items[k]) {
      MergedAgrees(shapes, items, k);
      assert Agree(shapes[k], Selecting(p.select, e), ReadKeys(items[k]));
      ProvidesLocal(o, shapes[k], Selecting(p.select, e), items[k]);
    }
  }

  lemma {:induction false} ExtractProvidesMany<T>(o: ShaperOptions<T>, t: ParseTree<T>)
    requires t.ManyParse? && Reversible(o, t)
    ensures Extract(o, t).Ok? && Provides(o, Extract(o, t).value, t) && Within(Extract(o, t).value, Reads(t))
    decreases t, 0
  {
    var items, seps := t.items, t.separators;
    forall k | 0 <= k < |items|
      ensures Extract(o, items[k]).Ok? && Provides(o, Extract(o, items[k]).value, items[k])
    {
      ExtractProvides(o, items[k]);
    }
    ExtractAllOk(o, items);
    forall k | 0 <= k < |seps| ensures Provides(o, JObject(map[]), seps[k]) {
      ExtractProvides(o, seps[k]);
      ProvidesLocal(o, Extract(o, seps[k]).value, JObject(map[]), seps[k]);
    }
  }

  lemma {:induction false} ExtractProvidesOption<T>(o: ShaperOptions<T>, t: ParseTree<T>)
    requires t.OptionParse? && Reversible(o, t)
    ensures Extract(o, t).Ok? && Provides(o, Extract(o, t).value, t) && Within(Extract(o, t).value, Reads(t))
    decreases t, 0
  {
    var p := t.pattern;
    if t.present.Some? {
      var c := t.present.value;
      ExtractProvides(o, c);
      var shape := Extract(o, c).value;
      if Named(p.select) {
        var selected := Selecting(p.select, shape.fields[p.select.value]);
        assert Agree(shape, selected, Reads(c).keys);
        ProvidesLocal(o, shape, selected, c);
      }
    }
  }

  /**
   * The round trip the shaper promises: injecting the shape of a reversible
   * tree that fits the grammar into its pattern gives the tree back.
   */
  lemma RoundTrip<T>(o: ShaperOptions<T>, g: Grammar, t: ParseTree<T>, fuel: nat)
    requires Fits(g, t) && Reversible(o, t) && fuel >= Depth(t)
    ensures Extract(o, t).Ok? && Inject(o, g, Extract(o, t).value, t.pattern, fuel) == Ok(t)
  {
    ExtractProvides(o, t);
    ProvidesInject(o, g, Extract(o, t).value, t, fuel);
  }

  /**
   * Whatever inject builds fits the grammar and has the shape of a complete
   * parse of the pattern: one node per sequence child, and a many's
   * separators one fewer than its items (none without a separator).
   */
  lemma {:induction false} InjectFits<T>(o: ShaperOptions<T>, g: Grammar, d: Json, p: Pattern, fuel: nat)
    requires Inject(o, g, d, p, fuel).Ok?
    ensures Fits(g, Inject(o, g, d, p, fuel).value)
    ensures Conforms(g, Forget(Inject(o, g, d, p, fuel).value), p)
    decreases fuel, p, 1, 0
  {
    match p
    case ThunkPattern(_, _, _, _) => InjectFitsThunk(o, g, d, p, fuel);
    case PrintGroupPattern(_, value) => InjectFits(o, g, d, value, fuel);
    case PrintIndentPattern(_, value) => InjectFits(o, g, d, value, fuel);
    case PrintIfPattern(_, value, _, _, _) => InjectFits(o, g, d, value, fuel);
    case PrintLiteralPattern(_, _) =>
    case PrintLinePattern(_, _) =>
    case ConsumePattern(_, _, _, _) =>
    case OrPattern(_, _, _, _, _, _) => InjectFitsOr(o, g, d, p, fuel);
    case SequencePattern(_, _, _, _, _) => InjectFitsSequence(o, g, d, p, fuel);
    case ManyPattern(_, _, _, _, _) => InjectFitsMany(o, g, d, p, fuel);
    case OptionPattern(_, _, _, _, _, _) => InjectFitsOption(o, g, d, p, fuel);
  }

  lemma {:induction false} InjectFitsThunk<T>(o: ShaperOptions<T>, g: Grammar, d: Json, p: Pattern, fuel: nat)
    requires p.ThunkPattern? && Inject(o, g, d, p, fuel).Ok?
    ensures Fits(g, Inject(o, g, d, p, fuel).value)
    ensures Conforms(g, Forget(Inject(o, g, d, p, fuel).value), p)
    decreases fuel, p, 0, 0
  {
    var value := Unwrap(KeyOf(p.asName), d).value;
    InjectFits(o, g, value, g[p.target], fuel - 1);
  }

  lemma {:induction false} InjectFitsOr<T>(o: ShaperOptions<T>, g: Grammar, d: Json, p: Pattern, fuel: nat)
    requires p.OrPattern? && Inject(o, g, d, p, fuel).Ok?
    ensures Fits(g, Inject(o, g, d, p, fuel).value)
    ensures Conforms(g, Forget(Inject(o, g, d, p, fuel).value), p)
    decreases fuel, p, 0, 0
  {
    var orValue := o.orShapeToValue(Unwrap(p.asName.value, d).value, p.patternLabel);
    var k := MatchIndexOf(p, orValue.typeName).value;
    InjectFits(o, g, orValue.value, p.children[k], fuel);
  }

  lemma {:induction false} InjectFitsSequence<T>(o: ShaperOptions<T>, g: Grammar, d: Json, p: Pattern, fuel: nat)
    requires p.SequencePattern? && Inject(o, g, d, p, fuel).Ok?
    ensures Fits(g, Inject(o, g, d, p, fuel).value)
    ensures Conforms(g, Forget(Inject(o, g, d, p, fuel).value), p)
    decreases fuel, p, 0, 0
  {
    var value := Selecting(p.select, Unwrap(KeyOf(p.asName), d).value);
    InjectChildrenFits(o, g, value, p.children, fuel);
  }

  lemma {:induction false} InjectFitsMany<T>(o: ShaperOptions<T>, g: Grammar, d: Json, p: Pattern, fuel: nat)
    requires p.ManyPattern? && Inject(o, g, d, p, fuel).Ok?
    ensures Fits(g, Inject(o, g, d, p, fuel).value)
    ensures Conforms(g, Forget(Inject(o, g, d, p, fuel).value), p)
    decreases fuel, p, 0, 0
  {
    var es := Unwrap(p.asName.value, d).value.elements;
    InjectItemsFits(o, g, es, p.value, fuel);
    if p.separator.Some? {
      InjectItemsFits(o, g, Blanks(|es|), p.separator.value, fuel);
    }
  }

  lemma {:induction false} InjectFitsOption<T>(o: ShaperOptions<T>, g: Grammar, d: Json, p: Pattern, fuel: nat)
    requires p.OptionPattern? && Inject(o, g, d, p, fuel).Ok?
    ensures Fits(g, Inject(o, g, d, p, fuel).value)
    ensures Conforms(g, Forget(Inject(o, g, d, p, fuel).value), p)
    decreases fuel, p, 0, 0
  {
    var found := UnwrapOptional(p.asName.value, d).value;
    if found != DefaultOf(p) {
      InjectFits(o, g, Selecting(p.select, found), p.value, fuel);
    }
  }

  lemma {:induction false} InjectChildrenFits<T>(o: ShaperOptions<T>, g: Grammar, d: Json, ps: seq<Pattern>, fuel: nat)
    requires InjectChildren(o, g, d, ps, fuel).Ok?
    ensures forall k :: 0 <= k < |ps| ==>
      Fits(g, InjectChildren(o, g, d, ps, fuel).value[k]) &&
      Conforms(g, Forget(InjectChildren(o, g, d, ps, fuel).value[k]), ps[k])
    decreases fuel, ps, 0, 0
  {
    if ps != [] {
      InjectFits(o, g, d, ps[0], fuel);
      InjectChildrenFits(o, g, d, ps[1..], fuel);
    }
  }

  lemma {:induction false} InjectItemsFits<T>(o: ShaperOptions<T>, g: Grammar, values: seq<Json>, q: Pattern, fuel: nat)
    requires InjectItems(o, g, values, q, fuel).Ok?
    ensures forall k :: 0 <= k < |values| ==>
      Fits(g, InjectItems(o, g, values, q, fuel).value[k]) &&
      Conforms(g, Forget(InjectItems(o, g, values, q, fuel).value[k]), q)
    decreases fuel, q, 2, |values|
  {
    if values != [] {
      InjectFits(o, g, values[0], q, fuel);
      InjectItemsFits(o, g, values[1..], q, fuel);
    }
  }
}
