/**
 * Helpers over JavaScript `Set`s. A `Set` is modelled as the sequence of its
 * members in insertion order, each member once; adding a member that is
 * already there changes nothing.
 */
module Sets {
  /** No member occurs twice. */
  predicate Distinct<A(==)>(s: seq<A>) {
    forall i, j :: 0 <= i < j < |s| ==> s[i] != s[j]
  }

  /** `set.add(x)`: appended at the end unless already present. */
  function Add<A(==)>(s: seq<A>, x: A): seq<A> {
    if x in s then s else s + [x]
  }

  /** The set obtained by adding the elements of `xs` one after the other. */
  function FromSeq<A(==)>(xs: seq<A>): seq<A> {
    if xs == [] then [] else Add(FromSeq(xs[..|xs| - 1]), xs[|xs| - 1])
  }

  /** Adding keeps members distinct and contributes exactly the added value. */
  lemma AddMembers<A>(s: seq<A>, x: A)
    ensures Distinct(s) ==> Distinct(Add(s, x))
    ensures forall y :: y in Add(s, x) <==> y in s || y == x
  {
  }

  /** A set built from a sequence holds each of its elements exactly once and nothing else. */
  lemma {:induction false} FromSeqMembers<A>(xs: seq<A>)
    ensures Distinct(FromSeq(xs))
    ensures forall y :: y in FromSeq(xs) <==> y in xs
    ensures forall k :: 0 <= k < |FromSeq(xs)| ==> FromSeq(xs)[k] in xs
    ensures |FromSeq(xs)| <= |xs|
  {
    if xs != [] {
      var init := xs[..|xs| - 1];
      FromSeqMembers(init);
      AddMembers(FromSeq(init), xs[|xs| - 1]);
      assert xs == init + [xs[|xs| - 1]];
    }
  }

  lemma FromSeqSnoc<A>(xs: seq<A>, x: A)
    ensures FromSeq(xs + [x]) == Add(FromSeq(xs), x)
  {
    assert (xs + [x])[..|xs|] == xs;
  }

  /** Building a set from members that are already distinct keeps their order. */
  lemma {:induction false} FromSeqDistinct<A>(xs: seq<A>)
    requires Distinct(xs)
    ensures FromSeq(xs) == xs
  {
    if xs != [] {
      var init := xs[..|xs| - 1];
      FromSeqDistinct(init);
      assert xs[|xs| - 1] !in init by {
        forall k | 0 <= k < |init| ensures init[k] != xs[|xs| - 1] {
          assert init[k] == xs[k];
        }
      }
      assert init + [xs[|xs| - 1]] == xs;
    }
  }

  /** The concatenation of a sequence of sequences. */
  function Flatten<A>(xss: seq<seq<A>>): seq<A> {
    if xss == [] then [] else Flatten(xss[..|xss| - 1]) + xss[|xss| - 1]
  }

  lemma FlattenSnoc<A>(xss: seq<seq<A>>, xs: seq<A>)
    ensures Flatten(xss + [xs]) == Flatten(xss) + xs
  {
    assert (xss + [xs])[..|xss|] == xss;
  }

  lemma {:induction false} FlattenMembers<A>(xss: seq<seq<A>>, x: A)
    ensures x in Flatten(xss) <==> exists k :: 0 <= k < |xss| && x in xss[k]
  {
    if xss != [] {
      var init := xss[..|xss| - 1];
      FlattenMembers(init, x);
      if x in Flatten(init) {
        var k :| 0 <= k < |init| && x in init[k];
        assert xss[k] == init[k];
      }
      if exists k :: 0 <= k < |xss| && x in xss[k] {
        var k :| 0 <= k < |xss| && x in xss[k];
        if k < |init| {
          assert init[k] == xss[k];
        }
      }
    }
  }

  /** `f` applied to every element with its 1-based position. */
  function Numbered<A, B>(a: seq<A>, f: (A, nat) -> B): (r: seq<B>)
    ensures |r| == |a|
    ensures forall k :: 0 <= k < |a| ==> r[k] == f(a[k], k + 1)
  {
    seq(|a|, k requires 0 <= k < |a| => f(a[k], k + 1))
  }

  /** Sets.map: the set of `f(value, index)`, counting positions from 1. */
  method Map<A, B(==)>(a: seq<A>, f: (A, nat) -> B) returns (result: seq<B>)
    ensures result == FromSeq(Numbered(a, f))
  {
    result := [];
    var index := 0;
    while index < |a|
      invariant 0 <= index <= |a|
      invariant result == FromSeq(Numbered(a[..index], f))
    {
      assert Numbered(a[..index + 1], f) == Numbered(a[..index], f) + [f(a[index], index + 1)];
      FromSeqSnoc(Numbered(a[..index], f), f(a[index], index + 1));
      result := Add(result, f(a[index], index + 1));
      index := index + 1;
    }
    assert a[..index] == a;
  }

  /** Sets.flatMap: every member of every `f(value, index)`, in order, each once. */
  method FlatMap<A, B(==)>(a: seq<A>, f: (A, nat) -> seq<B>) returns (result: seq<B>)
    ensures result == FromSeq(Flatten(Numbered(a, f)))
  {
    ghost var parts := Numbered(a, f);
    result := [];
    var index := 0;
    while index < |a|
      invariant 0 <= index <= |a|
      invariant result == FromSeq(Flatten(parts[..index]))
    {
      var items := f(a[index], index + 1);
      result := AddAll(result, items, Flatten(parts[..index]));
      assert parts[..index + 1] == parts[..index] + [items];
      FlattenSnoc(parts[..index], items);
      index := index + 1;
    }
    assert parts[..index] == parts;
  }

  /** Adds the members of `items` one after the other to the set built from `before`. */
  method AddAll<B(==)>(s: seq<B>, items: seq<B>, ghost before: seq<B>) returns (result: seq<B>)
    requires s == FromSeq(before)
    ensures result == FromSeq(before + items)
  {
    result := s;
    var j := 0;
    assert before + items[..0] == before;
    while j < |items|
      invariant 0 <= j <= |items|
      invariant result == FromSeq(before + items[..j])
    {
      ghost var done := before + items[..j];
      FromSeqSnoc(done, items[j]);
      assert before + items[..j + 1] == done + [items[j]];
      result := Add(result, items[j]);
      j := j + 1;
    }
    assert items[..j] == items;
  }

  /** Sets.merge: the union of the sets, in the order their members are first met. */
  method Merge<A(==)>(sets: seq<seq<A>>) returns (merged: seq<A>)
    ensures merged == FromSeq(Flatten(sets))
    ensures forall x :: x in merged <==> exists k :: 0 <= k < |sets| && x in sets[k]
  {
    merged := [];
    var i := 0;
    while i < |sets|
      invariant 0 <= i <= |sets|
      invariant merged == FromSeq(Flatten(sets[..i]))
    {
      merged := AddAll(merged, sets[i], Flatten(sets[..i]));
      assert sets[..i + 1] == sets[..i] + [sets[i]];
      FlattenSnoc(sets[..i], sets[i]);
      i := i + 1;
    }
    assert sets[..i] == sets;
    FromSeqMembers(Flatten(sets));
    forall x ensures x in merged <==> exists k :: 0 <= k < |sets| && x in sets[k] {
      FlattenMembers(sets, x);
    }
  }

  /** Sets.withValue: a copy of the set with one more member. */
  method WithValue<A(==)>(s: seq<A>, value: A) returns (merged: seq<A>)
    requires Distinct(s)
    ensures merged == Add(s, value)
  {
    merged := [];
    var i := 0;
    while i < |s|
      invariant 0 <= i <= |s|
      invariant merged == FromSeq(s[..i])
    {
      FromSeqSnoc(s[..i], s[i]);
      assert s[..i + 1] == s[..i] + [s[i]];
      merged := Add(merged, s[i]);
      i := i + 1;
    }
    assert s[..i] == s;
    FromSeqDistinct(s);
    merged := Add(merged, value);
  }
}
