/**
 * The printer: lays a parse tree out as a document of text, line breaks,
 * indentation and groups. Rendering a document to a string at a given width
 * is the pretty-printing library's work and is not part of this module.
 */
module Printing {
  import opened Wrappers
  import opened ParserTypes

  /** A layout document: the builders the printer uses (a string is `Text`). */
  datatype Doc =
    | Text(text: string)
    | Concat(parts: seq<Doc>)
    | Line
    | SoftLine
    | HardLine
    | Indent(contents: Doc)
    | Group(contents: Doc)

  /** The number of nodes in a tree, counting the items and separators of a many. */
  function Size<V>(t: ParseTree<V>): (r: nat)
    ensures r >= 1
    decreases t, 1
  {
    match t
    case SequenceParse(_, items) => 1 + SizeAll(items)
    case ManyParse(_, items, seps) => 1 + SizeAll(items) + SizeAll(seps)
    case OrParse(_, _, c) => 1 + Size(c)
    case OptionParse(_, present) => if present.Some? then 1 + Size(present.value) else 1
    case ThunkParse(_, c) => 1 + Size(c)
    case PrintIndentParse(_, c) => 1 + Size(c)
    case PrintGroupParse(_, c) => 1 + Size(c)
    case PrintIfParse(_, c) => 1 + Size(c)
    case _ => 1
  }

  function SizeAll<V>(ts: seq<ParseTree<V>>): (r: nat)
    ensures forall k :: 0 <= k < |ts| ==> Size(ts[k]) <= r
    decreases ts, 0
  {
    if ts == [] then 0 else Size(ts[0]) + SizeAll(ts[1..])
  }

  lemma {:induction false} SizeAllAppend<V>(a: seq<ParseTree<V>>, b: seq<ParseTree<V>>)
    ensures SizeAll(a + b) == SizeAll(a) + SizeAll(b)
  {
    if a == [] {
      assert a + b == b;
    } else {
      assert (a + b)[1..] == a[1..] + b;
      SizeAllAppend(a[1..], b);
    }
  }

  /**
   * getChildren: the nodes directly below a node. Together they hold every
   * node of the tree but its root, each once.
   */
  function GetChildren<V>(t: ParseTree<V>): (r: seq<ParseTree<V>>)
    ensures Size(t) == 1 + SizeAll(r)
    ensures forall k :: 0 <= k < |r| ==> Size(r[k]) < Size(t)
  {
    match t
    case ConsumeParse(_, _) => []
    case PrintLineParse(_) => []
    case PrintLiteralParse(_) => []
    case PrintGroupParse(_, c) => [c]
    case PrintIndentParse(_, c) => [c]
    case PrintIfParse(_, c) => [c]
    case OrParse(_, _, c) => [c]
    case ThunkParse(_, c) => [c]
    case OptionParse(_, present) => if present.Some? then [present.value] else []
    case SequenceParse(_, items) => items
    case ManyParse(_, items, seps) =>
      SizeAllAppend(items, seps);
      items + seps
  }

  /** The nodes of a tree in pre-order, as `getChildren` leads from node to node. */
  function Nodes<V>(t: ParseTree<V>): seq<ParseTree<V>>
    decreases Size(t), 1
  {
    [t] + NodesAll(GetChildren(t))
  }

  function NodesAll<V>(ts: seq<ParseTree<V>>): seq<ParseTree<V>>
    decreases SizeAll(ts), 2
  {
    if ts == [] then [] else Nodes(ts[0]) + NodesAll(ts[1..])
  }

  /**
   * findReference: a node of the tree whose `as` is the reference, or None
   * when there is none. An or's branches that were not chosen are not in the
   * tree and so are never searched.
   */
  function FindReference<V>(t: ParseTree<V>, reference: string): (r: Option<ParseTree<V>>)
    ensures r.Some? ==> r.value.pattern.AsOf() == Some(reference) && FirstNamedAt(Nodes(t), reference, r.value)
    ensures r.None? ==> forall k :: 0 <= k < |Nodes(t)| ==> Nodes(t)[k].pattern.AsOf() != Some(reference)
    decreases Size(t), 1
  {
    if t.pattern.AsOf() == Some(reference) then
      assert Nodes(t)[0] == t;
      Some(t)
    else
      var r := FindAmong(GetChildren(t), reference);
      assert Nodes(t) == [t] + NodesAll(GetChildren(t));
      if r.Some? then
        FirstNamedCons(t, NodesAll(GetChildren(t)), reference, r.value);
        r
      else r
  }

  function FindAmong<V>(ts: seq<ParseTree<V>>, reference: string): (r: Option<ParseTree<V>>)
    ensures r.Some? ==> r.value.pattern.AsOf() == Some(reference) && FirstNamedAt(NodesAll(ts), reference, r.value)
    ensures r.None? ==> forall k :: 0 <= k < |NodesAll(ts)| ==> NodesAll(ts)[k].pattern.AsOf() != Some(reference)
    decreases SizeAll(ts), 2
  {
    if ts == [] then None
    else
      var first := FindReference(ts[0], reference);
      assert NodesAll(ts) == Nodes(ts[0]) + NodesAll(ts[1..]);
      if first.Some? then
        FirstNamedPrefix(Nodes(ts[0]), NodesAll(ts[1..]), reference, first.value);
        first
      else
        var rest := FindAmong(ts[1..], reference);
        if rest.Some? then
          FirstNamedSkip(Nodes(ts[0]), NodesAll(ts[1..]), reference, rest.value);
          rest
        else
          assert forall k :: 0 <= k < |NodesAll(ts)| ==>
            NodesAll(ts)[k] == if k < |Nodes(ts[0])| then Nodes(ts[0])[k] else NodesAll(ts[1..])[k - |Nodes(ts[0])|];
          rest
  }

  /** `x` is the first node of `ns`, in order, whose `as` name is the reference. */
  ghost predicate FirstNamedAt<V>(ns: seq<ParseTree<V>>, reference: string, x: ParseTree<V>) {
    exists k :: 0 <= k < |ns| && ns[k] == x && forall j :: 0 <= j < k ==> ns[j].pattern.AsOf() != Some(reference)
  }

  lemma FirstNamedCons<V>(t: ParseTree<V>, ns: seq<ParseTree<V>>, reference: string, x: ParseTree<V>)
    requires t.pattern.AsOf() != Some(reference) && FirstNamedAt(ns, reference, x)
    ensures FirstNamedAt([t] + ns, reference, x)
  {
    var k :| 0 <= k < |ns| && ns[k] == x && forall j :: 0 <= j < k ==> ns[j].pattern.AsOf() != Some(reference);
    assert ([t] + ns)[k + 1] == x;
    forall j | 0 <= j < k + 1 ensures ([t] + ns)[j].pattern.AsOf() != Some(reference) {
      if j > 0 {
        assert ([t] + ns)[j] == ns[j - 1];
      }
    }
  }

  lemma FirstNamedPrefix<V>(ns: seq<ParseTree<V>>, more: seq<ParseTree<V>>, reference: string, x: ParseTree<V>)
    requires FirstNamedAt(ns, reference, x)
    ensures FirstNamedAt(ns + more, reference, x)
  {
    var k :| 0 <= k < |ns| && ns[k] == x && forall j :: 0 <= j < k ==> ns[j].pattern.AsOf() != Some(reference);
    assert (ns + more)[k] == x;
    assert forall j :: 0 <= j < k ==> (ns + more)[j] == ns[j];
  }

  lemma FirstNamedSkip<V>(ns: seq<ParseTree<V>>, more: seq<ParseTree<V>>, reference: string, x: ParseTree<V>)
    requires forall k :: 0 <= k < |ns| ==> ns[k].pattern.AsOf() != Some(reference)
    requires FirstNamedAt(more, reference, x)
    ensures FirstNamedAt(ns + more, reference, x)
  {
    var k :| 0 <= k < |more| && more[k] == x && forall j :: 0 <= j < k ==> more[j].pattern.AsOf() != Some(reference);
    assert (ns + more)[|ns| + k] == x;
    forall j | 0 <= j < |ns| + k ensures (ns + more)[j].pattern.AsOf() != Some(reference) {
      if j >= |ns| {
        assert (ns + more)[j] == more[j - |ns|];
      }
    }
  }

  /** isTruthy: only a many without items counts as false. */
  predicate IsTruthy<V>(t: ParseTree<V>) {
    !(t.ManyParse? && |t.items| == 0)
  }

  /**
   * On a tree of the shape a parse gives (a many without items has no
   * separators), a node is falsy exactly when it is a many with nothing below it.
   */
  lemma TruthyUnlessEmptyMany<V>(g: Grammar, t: ParseTree<V>)
    requires Conforms(g, Forget(t), t.pattern)
    ensures !IsTruthy(t) <==> t.ManyParse? && GetChildren(t) == []
  {
    if t.ManyParse? {
      assert Forget(t) == ManyMatch(ForgetAll(t.items), ForgetAll(t.separators));
    }
  }

  /**
   * The trees the printer can format: every marker that a print-if adds is
   * a literal or a line, and a many with a separator has a separator
   * between every two items.
   */
  ghost predicate Printable<V>(t: ParseTree<V>)
    decreases t
  {
    match t
    case PrintIfParse(p, c) =>
      && p.PrintIfPattern?
      && (p.before.Some? ==> p.before.value.IsTerminal())
      && (p.after.Some? ==> p.after.value.IsTerminal())
      && Printable(c)
    case ManyParse(p, items, seps) =>
      && p.ManyPattern?
      && (forall k :: 0 <= k < |items| ==> Printable(items[k]))
      && (p.separator.Some? ==>
            && |items| <= |seps| + 1
            && forall k :: 0 <= k < |seps| && k + 1 < |items| ==> Printable(seps[k]))
    case PrintLiteralParse(p) => p.PrintLiteralPattern?
    case PrintLineParse(p) => p.PrintLinePattern?
    case SequenceParse(_, items) => forall k :: 0 <= k < |items| ==> Printable(items[k])
    case OptionParse(_, present) => present.Some? ==> Printable(present.value)
    case OrParse(_, _, c) => Printable(c)
    case ThunkParse(_, c) => Printable(c)
    case PrintIndentParse(_, c) => Printable(c)
    case PrintGroupParse(_, c) => Printable(c)
    case ConsumeParse(_, _) => true
  }

  /** The document of a literal or a line, whether given as a pattern or as the node of one. */
  function FormatTerminal(p: Pattern): (d: Doc)
    requires p.IsTerminal()
    ensures p.PrintLiteralPattern? ==> d == Text(p.text)
    ensures p.PrintLinePattern? ==> (d == HardLine <==> p.kind == Some(Hard)) && (d == SoftLine <==> p.kind == Some(Soft))
    ensures p.PrintLinePattern? ==> (d == Line <==> p.kind != Some(Hard) && p.kind != Some(Soft))
  {
    match p
    case PrintLiteralPattern(_, text) => Text(text)
    case PrintLinePattern(_, kind) =>
      if kind == Some(Hard) then HardLine else if kind == Some(Soft) then SoftLine else Line
  }

  /** The number of documents a many with a separator concatenates for `n` items. */
  function SeparatedCount(n: nat): nat {
    if n == 0 then 0 else 2 * n - 1
  }

  /**
   * Printer.format. A print-if adds its markers only when the reference is
   * found in its own subtree and that node is truthy; a many with a
   * separator pattern alternates items and separators.
   */
  function FormatDoc<V>(tokenToString: V -> string, t: ParseTree<V>): Doc
    requires Printable(t)
    decreases t
  {
    match t
    case ThunkParse(_, c) => FormatDoc(tokenToString, c)
    case PrintIfParse(p, c) =>
      var resolved := FindReference(t, p.reference);
      var hasReference := resolved.Some? && IsTruthy(resolved.value);
      Concat((if hasReference && p.before.Some? then [FormatTerminal(p.before.value)] else [])
             + [FormatDoc(tokenToString, c)]
             + (if hasReference && p.after.Some? then [FormatTerminal(p.after.value)] else []))
    case PrintGroupParse(_, c) => Group(FormatDoc(tokenToString, c))
    case PrintIndentParse(_, c) => Indent(FormatDoc(tokenToString, c))
    case PrintLiteralParse(p) => FormatTerminal(p)
    case PrintLineParse(p) => FormatTerminal(p)
    case ConsumeParse(_, token) => Text(tokenToString(token))
    case SequenceParse(_, items) =>
      Concat(seq(|items|, k requires 0 <= k < |items| => FormatDoc(tokenToString, items[k])))
    case OrParse(_, _, c) => FormatDoc(tokenToString, c)
    case ManyParse(p, items, seps) =>
      if p.separator.Some? then
        Concat(seq(SeparatedCount(|items|), k requires 0 <= k < SeparatedCount(|items|) =>
          if k % 2 == 0 then FormatDoc(tokenToString, items[k / 2]) else FormatDoc(tokenToString, seps[k / 2])))
      else Concat(seq(|items|, k requires 0 <= k < |items| => FormatDoc(tokenToString, items[k])))
    case OptionParse(_, present) =>
      if present.Some? then FormatDoc(tokenToString, present.value) else Text("")
  }

  /**
   * The loop of `format` for a many with a separator: each item's document,
   * followed by the separator of the same position unless it is the last item.
   */
  method FormatSeparated<V>(tokenToString: V -> string, t: ParseTree<V>) returns (d: Doc)
    requires t.ManyParse? && t.pattern.ManyPattern? && t.pattern.separator.Some? && Printable(t)
    ensures d == FormatDoc(tokenToString, t)
  {
    ghost var parts := FormatDoc(tokenToString, t).parts;
    var n := |t.items|;
    var items: seq<Doc> := [];
    var i := 0;
    while i < n
      invariant 0 <= i <= n
      invariant items == parts[..if i == n then SeparatedCount(n) else 2 * i]
    {
      assert (2 * i) % 2 == 0 && (2 * i) / 2 == i;
      items := items + [FormatDoc(tokenToString, t.items[i])];
      if i < n - 1 {
        assert (2 * i + 1) % 2 == 1 && (2 * i + 1) / 2 == i;
        items := items + [FormatDoc(tokenToString, t.separators[i])];
      }
      i := i + 1;
    }
    d := Concat(items);
  }

  /** Separators after the one between the last two items are never printed. */
  lemma SurplusSeparatorsIgnored<V>(tokenToString: V -> string, p: Pattern, items: seq<ParseTree<V>>,
                                    seps: seq<ParseTree<V>>, kept: nat)
    requires Printable(ManyParse(p, items, seps)) && |items| <= kept + 1 && kept <= |seps|
    ensures Printable(ManyParse(p, items, seps[..kept]))
    ensures FormatDoc(tokenToString, ManyParse(p, items, seps)) == FormatDoc(tokenToString, ManyParse(p, items, seps[..kept]))
  {
    if p.separator.Some? {
      var a := FormatDoc(tokenToString, ManyParse(p, items, seps)).parts;
      var b := FormatDoc(tokenToString, ManyParse(p, items, seps[..kept])).parts;
      assert forall k :: 0 <= k < |a| ==> a[k] == b[k];
    }
  }

  /**
   * The layout printIndentedMany builds: a group around a print-if that adds
   * a line after an indented print-if that adds a line before the many, both
   * keyed on the many's own name. The padding lines appear exactly when the
   * many has items.
   */
  lemma IndentedManyPadding<V>(tokenToString: V -> string, groupPattern: Pattern, outer: Pattern, indentPattern: Pattern,
                               inner: Pattern, padBefore: Pattern, padAfter: Pattern, many: ParseTree<V>, name: string)
    requires many.ManyParse? && many.pattern.ManyPattern? && many.pattern.asName == Some(name) && Printable(many)
    requires padBefore.PrintLinePattern? && padAfter.PrintLinePattern? && indentPattern.PrintIndentPattern?
    requires inner.PrintIfPattern? && inner.reference == name && inner.before == Some(padBefore) && inner.after.None?
    requires outer.PrintIfPattern? && outer.reference == name && outer.before.None? && outer.after == Some(padAfter)
    ensures var t := PrintGroupParse(groupPattern, PrintIfParse(outer, PrintIndentParse(indentPattern, PrintIfParse(inner, many))));
      var before := if |many.items| > 0 then [FormatTerminal(padBefore)] else [];
      var after := if |many.items| > 0 then [FormatTerminal(padAfter)] else [];
      && Printable(t)
      && FormatDoc(tokenToString, t) == Group(Concat([Indent(Concat(before + [FormatDoc(tokenToString, many)]))] + after))
  {
    FindAmongSingle(many, name);
    IndentedLayout(tokenToString, groupPattern, outer, indentPattern, inner, padBefore, padAfter, many, name, many);
  }

  /** The layout of printIndentedMany around any node whose search for `name` finds `found`. */
  lemma IndentedLayout<V>(tokenToString: V -> string, groupPattern: Pattern, outer: Pattern, indentPattern: Pattern,
                          inner: Pattern, padBefore: Pattern, padAfter: Pattern, c: ParseTree<V>, name: string, found: ParseTree<V>)
    requires Printable(c) && FindAmong([c], name) == Some(found)
    requires padBefore.PrintLinePattern? && padAfter.PrintLinePattern? && indentPattern.PrintIndentPattern?
    requires inner.PrintIfPattern? && inner.reference == name && inner.before == Some(padBefore) && inner.after.None?
    requires outer.PrintIfPattern? && outer.reference == name && outer.before.None? && outer.after == Some(padAfter)
    ensures var t := PrintGroupParse(groupPattern, PrintIfParse(outer, PrintIndentParse(indentPattern, PrintIfParse(inner, c))));
      var before := if IsTruthy(found) then [FormatTerminal(padBefore)] else [];
      var after := if IsTruthy(found) then [FormatTerminal(padAfter)] else [];
      && Printable(t)
      && FormatDoc(tokenToString, t) == Group(Concat([Indent(Concat(before + [FormatDoc(tokenToString, c)]))] + after))
  {
    var indented := PrintIndentParse(indentPattern, PrintIfParse(inner, c));
    var outerIf := PrintIfParse(outer, indented);
    IndentedBefore(tokenToString, indentPattern, inner, c, name, found);
    GroupedPrintable(tokenToString, groupPattern, outer, indented);
    FindThroughIf(outer, indented, name);
    MarkedAfter(tokenToString, outer, indented, found);
  }

  /**
   * The first node of `ns`, in order, that carries the reference name is
   * truthy: the condition under which a print-if shows its markers.
   */
  ghost predicate MarkedBy<V>(ns: seq<ParseTree<V>>, reference: string) {
    exists k :: 0 <= k < |ns| && ns[k].pattern.AsOf() == Some(reference) && IsTruthy(ns[k])
      && forall j :: 0 <= j < k ==> ns[j].pattern.AsOf() != Some(reference)
  }

  /**
   * A print-if prints its child, preceded and followed by its markers exactly
   * when the first node of the child, in pre-order, named by the reference is
   * truthy; a missing reference prints no marker.
   */
  lemma PrintIfMarkers<V>(tokenToString: V -> string, p: Pattern, c: ParseTree<V>)
    requires Printable(PrintIfParse(p, c))
    ensures var marked := MarkedBy(Nodes(c), p.reference);
      FormatDoc(tokenToString, PrintIfParse(p, c))
      == Concat((if marked && p.before.Some? then [FormatTerminal(p.before.value)] else [])
                + [FormatDoc(tokenToString, c)]
                + (if marked && p.after.Some? then [FormatTerminal(p.after.value)] else []))
  {
    FindThroughIf(p, c, p.reference);
    var r := FindReference(c, p.reference);
    if r.Some? {
      MarkedByFirst(Nodes(c), p.reference, r.value);
    } else {
      MarkedByNone(Nodes(c), p.reference);
    }
  }

  lemma MarkedByFirst<V>(ns: seq<ParseTree<V>>, reference: string, x: ParseTree<V>)
    requires FirstNamedAt(ns, reference, x) && x.pattern.AsOf() == Some(reference)
    ensures MarkedBy(ns, reference) <==> IsTruthy(x)
  {
    var k0 :| 0 <= k0 < |ns| && ns[k0] == x && forall j :: 0 <= j < k0 ==> ns[j].pattern.AsOf() != Some(reference);
    if MarkedBy(ns, reference) {
      var k :| 0 <= k < |ns| && ns[k].pattern.AsOf() == Some(reference) && IsTruthy(ns[k])
        && forall j :: 0 <= j < k ==> ns[j].pattern.AsOf() != Some(reference);
      assert k == k0;
    }
  }

  lemma MarkedByNone<V>(ns: seq<ParseTree<V>>, reference: string)
    requires forall k :: 0 <= k < |ns| ==> ns[k].pattern.AsOf() != Some(reference)
    ensures !MarkedBy(ns, reference)
  {
  }

  /** The outer print-if and the group around it are printable, and the group adds only itself. */
  lemma GroupedPrintable<V>(tokenToString: V -> string, groupPattern: Pattern, p: Pattern, c: ParseTree<V>)
    requires Printable(c) && p.PrintIfPattern? && p.before.None? && p.after.Some? && p.after.value.PrintLinePattern?
    ensures Printable(PrintIfParse(p, c)) && Printable(PrintGroupParse(groupPattern, PrintIfParse(p, c)))
    ensures FormatDoc(tokenToString, PrintGroupParse(groupPattern, PrintIfParse(p, c)))
      == Group(FormatDoc(tokenToString, PrintIfParse(p, c)))
  {
  }

  /** A print-if has no name of its own: searching it searches its child. */
  lemma FindThroughIf<V>(p: Pattern, c: ParseTree<V>, name: string)
    requires p.PrintIfPattern?
    ensures FindReference(PrintIfParse(p, c), name) == FindReference(c, name)
  {
    FindAmongSingle(c, name);
  }

  /** The indented inner print-if: its line comes first, when the reference is truthy. */
  lemma IndentedBefore<V>(tokenToString: V -> string, indentPattern: Pattern, inner: Pattern, c: ParseTree<V>,
                          name: string, found: ParseTree<V>)
    requires Printable(c) && FindAmong([c], name) == Some(found) && indentPattern.PrintIndentPattern?
    requires inner.PrintIfPattern? && inner.reference == name && inner.before.Some? && inner.before.value.IsTerminal()
    requires inner.after.None?
    ensures var indented := PrintIndentParse(indentPattern, PrintIfParse(inner, c));
      && Printable(indented)
      && FindReference(indented, name) == Some(found)
      && FormatDoc(tokenToString, indented)
         == Indent(Concat((if IsTruthy(found) then [FormatTerminal(inner.before.value)] else []) + [FormatDoc(tokenToString, c)]))
  {
    var innerIf := PrintIfParse(inner, c);
    assert Printable(innerIf);
    FindAmongSingle(c, name);
    assert FindReference(innerIf, name) == Some(found);
    FindAmongSingle(innerIf, name);
    MarkedBefore(tokenToString, inner, c, found);
  }

  /** A print-if with only a `before` marker, whose reference resolves to `found`. */
  lemma MarkedBefore<V>(tokenToString: V -> string, p: Pattern, c: ParseTree<V>, found: ParseTree<V>)
    requires Printable(PrintIfParse(p, c)) && p.before.Some? && p.after.None?
    requires FindReference(PrintIfParse(p, c), p.reference) == Some(found)
    ensures FormatDoc(tokenToString, PrintIfParse(p, c))
      == Concat((if IsTruthy(found) then [FormatTerminal(p.before.value)] else []) + [FormatDoc(tokenToString, c)])
  {
    assert (if IsTruthy(found) then [FormatTerminal(p.before.value)] else []) + [FormatDoc(tokenToString, c)] + []
      == (if IsTruthy(found) then [FormatTerminal(p.before.value)] else []) + [FormatDoc(tokenToString, c)];
  }

  /** A print-if with only an `after` marker, whose reference resolves to `found`. */
  lemma MarkedAfter<V>(tokenToString: V -> string, p: Pattern, c: ParseTree<V>, found: ParseTree<V>)
    requires Printable(PrintIfParse(p, c)) && p.before.None? && p.after.Some?
    requires FindReference(PrintIfParse(p, c), p.reference) == Some(found)
    ensures FormatDoc(tokenToString, PrintIfParse(p, c))
      == Concat([FormatDoc(tokenToString, c)] + (if IsTruthy(found) then [FormatTerminal(p.after.value)] else []))
  {
    assert [] + [FormatDoc(tokenToString, c)] == [FormatDoc(tokenToString, c)];
  }

  lemma FindAmongSingle<V>(t: ParseTree<V>, reference: string)
    ensures FindAmong([t], reference) == FindReference(t, reference)
  {
    assert [t][1..] == [];
  }

  /** Printer.print, up to the rendering: the whole document in one group. */
  function Print<V>(tokenToString: V -> string, t: ParseTree<V>): Doc
    requires Printable(t)
  {
    Group(FormatDoc(tokenToString, t))
  }
}
