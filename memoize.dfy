/**
 * Function memoisation. `Memoized` numbers every argument value it meets and
 * keys its cache by the joined numbers; `MemoizedDirect` keys its cache by
 * the joined string renderings of the arguments. Both fill each cache entry
 * once, with the result of the call that first produced its key.
 */
module Memoize {
  import opened Decimal

  /** The number-based key of an argument list: `${n}:` per argument. */
  function KeyOf<I>(values: seq<I>, numbering: map<I, nat>): string
    requires forall v | v in values :: v in numbering
  {
    if values == [] then "" else NatToString(numbering[values[0]]) + ":" + KeyOf(values[1..], numbering)
  }

  lemma {:induction false} KeyOfSnoc<I>(values: seq<I>, v: I, numbering: map<I, nat>)
    requires forall w | w in values + [v] :: w in numbering
    ensures KeyOf(values + [v], numbering) == KeyOf(values, numbering) + NatToString(numbering[v]) + ":"
  {
    if values != [] {
      var rest := values[1..];
      assert values + [v] == [values[0]] + (rest + [v]);
      assert forall w | w in rest + [v] :: w in values + [v];
      KeyOfSnoc(rest, v, numbering);
      assert KeyOf(values + [v], numbering) == NatToString(numbering[values[0]]) + ":" + KeyOf(rest + [v], numbering);
    }
  }

  /** `extended` keeps every number `numbering` gave. */
  ghost predicate Extends<I>(numbering: map<I, nat>, extended: map<I, nat>) {
    forall v | v in numbering :: v in extended && extended[v] == numbering[v]
  }

  /** A key only depends on the numbers of the values it mentions. */
  lemma {:induction false} KeyOfStable<I>(values: seq<I>, numbering: map<I, nat>, extended: map<I, nat>)
    requires forall v | v in values :: v in numbering
    requires Extends(numbering, extended)
    ensures KeyOf(values, numbering) == KeyOf(values, extended)
  {
    if values != [] {
      KeyOfStable(values[1..], numbering, extended);
    }
  }

  /** Numbering distinct values distinctly makes distinct argument lists get distinct keys. */
  lemma {:induction false} KeyOfInjective<I>(xs: seq<I>, ys: seq<I>, numbering: map<I, nat>)
    requires forall v | v in xs :: v in numbering
    requires forall v | v in ys :: v in numbering
    requires forall v, w | v in numbering && w in numbering && v != w :: numbering[v] != numbering[w]
    ensures KeyOf(xs, numbering) == KeyOf(ys, numbering) <==> xs == ys
  {
    if xs != [] && ys != [] && KeyOf(xs, numbering) == KeyOf(ys, numbering) {
      var a, b := numbering[xs[0]], numbering[ys[0]];
      ColonKeyInjective(a, KeyOf(xs[1..], numbering), b, KeyOf(ys[1..], numbering));
      KeyOfInjective(xs[1..], ys[1..], numbering);
      assert xs == [xs[0]] + xs[1..] && ys == [ys[0]] + ys[1..];
    }
  }

  /** memoize(f): one number per distinct argument value, one cache entry per key. */
  class Memoized<I(==), O> {
    const f: seq<I> -> O
    /** Argument value to its number (the digits of its handle). */
    var intermediateCache: map<I, nat>
    var cache: map<string, O>
    var intermediateCacheIndex: nat
    /** The arguments of the call that filled each cache entry. */
    ghost var calls: map<string, seq<I>>

    ghost predicate Valid()
      reads this
    {
      && (forall v | v in intermediateCache :: intermediateCache[v] < intermediateCacheIndex)
      && (forall v, w | v in intermediateCache && w in intermediateCache && v != w ::
            intermediateCache[v] != intermediateCache[w])
      && cache.Keys == calls.Keys
      && (forall k | k in calls ::
            && (forall v | v in calls[k] :: v in intermediateCache)
            && KeyOf(calls[k], intermediateCache) == k
            && cache[k] == f(calls[k]))
    }

    constructor(f: seq<I> -> O)
      ensures Valid() && this.f == f
      ensures intermediateCache == map[] && cache == map[] && intermediateCacheIndex == 0
    {
      this.f := f;
      intermediateCache := map[];
      cache := map[];
      intermediateCacheIndex := 0;
      calls := map[];
    }

    /** The handle number of an argument value, assigning the next number to a new value. */
    method Number(value: I) returns (n: nat)
      requires Valid()
      modifies this`intermediateCache, this`intermediateCacheIndex
      ensures Valid()
      ensures value in intermediateCache && n == intermediateCache[value]
      ensures Extends(old(intermediateCache), intermediateCache)
      ensures value in old(intermediateCache) ==> intermediateCache == old(intermediateCache) && intermediateCacheIndex == old(intermediateCacheIndex)
      ensures value !in old(intermediateCache) ==>
        n == old(intermediateCacheIndex) && intermediateCacheIndex == old(intermediateCacheIndex) + 1
    {
      if value !in intermediateCache {
        ghost var numbering := intermediateCache;
        intermediateCache := intermediateCache[value := intermediateCacheIndex];
        intermediateCacheIndex := intermediateCacheIndex + 1;
        forall k | k in calls ensures KeyOf(calls[k], intermediateCache) == k {
          KeyOfStable(calls[k], numbering, intermediateCache);
        }
      }
      n := intermediateCache[value];
    }

    /** The key of an argument list, numbering the values met for the first time. */
    method Key(values: seq<I>) returns (key: string)
      requires Valid()
      modifies this`intermediateCache, this`intermediateCacheIndex
      ensures Valid()
      ensures (forall v | v in values :: v in intermediateCache) && key == KeyOf(values, intermediateCache)
      ensures Extends(old(intermediateCache), intermediateCache)
    {
      key := "";
      var i := 0;
      while i < |values|
        invariant 0 <= i <= |values|
        invariant Valid()
        invariant forall v | v in values[..i] :: v in intermediateCache
        invariant key == KeyOf(values[..i], intermediateCache)
        invariant Extends(old(intermediateCache), intermediateCache)
      {
        ghost var numbering := intermediateCache;
        var n := Number(values[i]);
        KeyOfStable(values[..i], numbering, intermediateCache);
        assert values[..i + 1] == values[..i] + [values[i]];
        KeyOfSnoc(values[..i], values[i], intermediateCache);
        key := key + NatToString(n) + ":";
        i := i + 1;
      }
      assert values[..i] == values;
    }

    /** Calling the memoised function gives exactly what `f` gives; filled entries never change. */
    method Call(values: seq<I>) returns (o: O)
      requires Valid()
      modifies this
      ensures Valid()
      ensures o == f(values)
      ensures forall k | k in old(cache) :: k in cache && cache[k] == old(cache[k])
      ensures (forall v | v in values :: v in intermediateCache) && Extends(old(intermediateCache), intermediateCache)
    {
      var key := Key(values);
      if key !in cache {
        cache := cache[key := f(values)];
        calls := calls[key := values];
      } else {
        KeyOfInjective(calls[key], values, intermediateCache);
      }
      o := cache[key];
    }
  }

  /** The string key of an argument list: `${value}:` per argument. */
  function DirectKey<I>(values: seq<I>, show: I -> string): string {
    if values == [] then "" else show(values[0]) + ":" + DirectKey(values[1..], show)
  }

  lemma {:induction false} DirectKeySnoc<I>(values: seq<I>, v: I, show: I -> string)
    ensures DirectKey(values + [v], show) == DirectKey(values, show) + show(v) + ":"
  {
    if values != [] {
      assert (values + [v])[1..] == values[1..] + [v];
      DirectKeySnoc(values[1..], v, show);
    }
  }

  /** The renderings of the arguments, one per argument. */
  function Shown<I>(values: seq<I>, show: I -> string): (r: seq<string>)
    ensures |r| == |values| && forall k :: 0 <= k < |values| ==> r[k] == show(values[k])
  {
    seq(|values|, k requires 0 <= k < |values| => show(values[k]))
  }

  /**
   * Direct keys are unambiguous exactly when no rendering contains a colon:
   * then equal keys mean equal renderings, argument by argument.
   */
  lemma {:induction false} DirectKeyInjective<I>(xs: seq<I>, ys: seq<I>, show: I -> string)
    requires forall v | v in xs :: ':' !in show(v)
    requires forall v | v in ys :: ':' !in show(v)
    ensures DirectKey(xs, show) == DirectKey(ys, show) <==> Shown(xs, show) == Shown(ys, show)
  {
    if xs != [] && ys != [] {
      ColonSplit(show(xs[0]), DirectKey(xs[1..], show), show(ys[0]), DirectKey(ys[1..], show));
      DirectKeyInjective(xs[1..], ys[1..], show);
      assert Shown(xs, show) == [show(xs[0])] + Shown(xs[1..], show);
      assert Shown(ys, show) == [show(ys[0])] + Shown(ys[1..], show);
    }
  }

  /** A colon inside a rendering makes two different argument lists collide. */
  lemma DirectKeyCollision()
    ensures DirectKey(["a:b"], (s: string) => s) == DirectKey(["a", "b"], (s: string) => s)
  {
  }

  /** memoizeDirect(f): one cache entry per string key. */
  class MemoizedDirect<I, O> {
    const f: seq<I> -> O
    /** `${value}` for an argument. */
    const show: I -> string
    var cache: map<string, O>
    /** The arguments of the call that filled each cache entry. */
    ghost var calls: map<string, seq<I>>

    ghost predicate Valid()
      reads this
    {
      && cache.Keys == calls.Keys
      && (forall k | k in calls :: DirectKey(calls[k], show) == k && cache[k] == f(calls[k]))
    }

    constructor(f: seq<I> -> O, show: I -> string)
      ensures Valid() && this.f == f && this.show == show && cache == map[]
    {
      this.f := f;
      this.show := show;
      cache := map[];
      calls := map[];
    }

    /**
     * The result of `f` on the first arguments that produced the same key; a
     * key seen for the first time gives `f` of these very arguments.
     */
    method Call(values: seq<I>) returns (o: O)
      requires Valid()
      modifies this
      ensures Valid()
      ensures DirectKey(values, show) in calls && o == f(calls[DirectKey(values, show)])
      ensures DirectKey(values, show) !in old(cache) ==> o == f(values)
      ensures forall k | k in old(cache) :: k in cache && cache[k] == old(cache[k])
    {
      var key := "";
      var i := 0;
      while i < |values|
        invariant 0 <= i <= |values|
        invariant key == DirectKey(values[..i], show)
        invariant cache == old(cache) && calls == old(calls)
      {
        assert values[..i + 1] == values[..i] + [values[i]];
        DirectKeySnoc(values[..i], values[i], show);
        key := key + show(values[i]) + ":";
        i := i + 1;
      }
      assert values[..i] == values;
      if key !in cache {
        cache := cache[key := f(values)];
        calls := calls[key := values];
      }
      o := cache[key];
    }
  }
}
