/** The iterator adapters the Rust readers chain: `filter_map`, `map`,
    `filter` followed by `collect`, and `filter_map(..).next()`. */
module Iter {
  import opened Wrappers

  /** `filter_map(f).collect()`. */
  function FilterMap<T, U>(xs: seq<T>, f: T -> Option<U>): (r: seq<U>)
    ensures |r| <= |xs|
    ensures forall i :: 0 <= i < |xs| && f(xs[i]).Some? ==> f(xs[i]).value in r
    ensures forall k :: 0 <= k < |r| ==> exists i :: 0 <= i < |xs| && f(xs[i]) == Some(r[k])
  {
    if xs == [] then []
    else
      var rest := FilterMap(xs[1..], f);
      assert forall i :: 1 <= i < |xs| ==> xs[i] == xs[1..][i - 1];
      match f(xs[0])
      case Some(y) => [y] + rest
      case None => rest
  }

  lemma {:induction false} FilterMapAppend<T, U>(a: seq<T>, b: seq<T>, f: T -> Option<U>)
    ensures FilterMap(a + b, f) == FilterMap(a, f) + FilterMap(b, f)
  {
    if a != [] {
      assert (a + b)[1..] == a[1..] + b;
      FilterMapAppend(a[1..], b, f);
    } else {
      assert a + b == b;
    }
  }

  /** `filter_map(f).next()`: the first `Some` that `f` gives. */
  function FindMap<T, U>(xs: seq<T>, f: T -> Option<U>): (r: Option<U>)
    ensures r.None? <==> forall i :: 0 <= i < |xs| ==> f(xs[i]).None?
    ensures r.Some? ==> exists i :: 0 <= i < |xs| && f(xs[i]) == r && forall j :: 0 <= j < i ==> f(xs[j]).None?
  {
    if xs == [] then None
    else if f(xs[0]).Some? then f(xs[0])
    else
      var r := FindMap(xs[1..], f);
      assert forall i :: 1 <= i < |xs| ==> xs[i] == xs[1..][i - 1];
      r
  }

  /** The element `f` picks is the first one it accepts. */
  lemma FindMapAt<T, U>(xs: seq<T>, f: T -> Option<U>, i: nat)
    requires i < |xs| && f(xs[i]).Some?
    requires forall j :: 0 <= j < i ==> f(xs[j]).None?
    ensures FindMap(xs, f) == f(xs[i])
  {
    var r := FindMap(xs, f);
    var k :| 0 <= k < |xs| && f(xs[k]) == r && forall j :: 0 <= j < k ==> f(xs[j]).None?;
    if k < i {
    } else if i < k {
    }
  }

  /** `filter_map(f).next()` is the head of `filter_map(f).collect()`. */
  lemma {:induction false} FindMapIsHead<T, U>(xs: seq<T>, f: T -> Option<U>)
    ensures FindMap(xs, f) == if FilterMap(xs, f) == [] then None else Some(FilterMap(xs, f)[0])
  {
    if xs != [] && f(xs[0]).None? {
      FindMapIsHead(xs[1..], f);
    }
  }

  /** `map(f).collect()`. */
  function Map<T, U>(xs: seq<T>, f: T -> U): (r: seq<U>)
    ensures |r| == |xs|
    ensures forall i :: 0 <= i < |xs| ==> r[i] == f(xs[i])
  {
    if xs == [] then [] else [f(xs[0])] + Map(xs[1..], f)
  }

  /** `filter(p).collect()`. */
  function Filter<T>(xs: seq<T>, p: T -> bool): (r: seq<T>)
    ensures |r| <= |xs|
    ensures forall k :: 0 <= k < |r| ==> p(r[k]) && exists i :: 0 <= i < |xs| && xs[i] == r[k]
    ensures forall i :: 0 <= i < |xs| && p(xs[i]) ==> xs[i] in r
  {
    if xs == [] then []
    else
      assert forall i :: 1 <= i < |xs| ==> xs[i] == xs[1..][i - 1];
      if p(xs[0]) then [xs[0]] + Filter(xs[1..], p) else Filter(xs[1..], p)
  }

  lemma {:induction false} FilterAppend<T>(a: seq<T>, b: seq<T>, p: T -> bool)
    ensures Filter(a + b, p) == Filter(a, p) + Filter(b, p)
  {
    if a != [] {
      assert (a + b)[0] == a[0];
      assert (a + b)[1..] == a[1..] + b;
      FilterAppend(a[1..], b, p);
      AppendAssociative([a[0]], Filter(a[1..], p), Filter(b, p));
    } else {
      assert a + b == b;
    }
  }

  /** `flat_map(f).collect()`, or a loop that extends a vector with
      `f(x)` for each `x`; unfolded from the last element so that a loop
      over a growing prefix follows it step by step. */
  function FlatMap<T, U>(xs: seq<T>, f: T -> seq<U>): seq<U>
  {
    if xs == [] then [] else FlatMap(xs[..|xs| - 1], f) + f(xs[|xs| - 1])
  }

  lemma {:induction false} FlatMapAppend<T, U>(a: seq<T>, b: seq<T>, f: T -> seq<U>)
    ensures FlatMap(a + b, f) == FlatMap(a, f) + FlatMap(b, f)
    decreases |b|
  {
    if b == [] {
      assert a + b == a;
    } else {
      var ab := a + b;
      assert ab[..|ab| - 1] == a + b[..|b| - 1];
      FlatMapAppend(a, b[..|b| - 1], f);
    }
  }

  /** One more element extends the result by its image. */
  lemma FlatMapSnoc<T, U>(xs: seq<T>, i: nat, f: T -> seq<U>)
    requires i < |xs|
    ensures FlatMap(xs[..i + 1], f) == FlatMap(xs[..i], f) + f(xs[i])
  {
    assert xs[..i + 1][..i] == xs[..i];
  }

  /** `filter_map(f).next()` over one more element: the earlier answer if
      there was one, else what `f` says of the new element. */
  lemma {:induction false} FindMapSnoc<T, U>(xs: seq<T>, f: T -> Option<U>)
    requires xs != []
    ensures FindMap(xs, f) == FindMap(xs[..|xs| - 1], f).Or(f(xs[|xs| - 1]))
  {
    if |xs| > 1 && f(xs[0]).None? {
      assert xs[1..][..|xs[1..]| - 1] == xs[..|xs| - 1][1..];
      FindMapSnoc(xs[1..], f);
    }
  }

  /** `map(f)` over a function that may throw (or `collect::<Result<..>>()`):
      all images when every call succeeds, else the first failure. */
  function TryMap<T, U, E>(xs: seq<T>, f: T -> Result<U, E>): (r: Result<seq<U>, E>)
    ensures r.Ok? <==> forall i :: 0 <= i < |xs| ==> f(xs[i]).Ok?
    ensures r.Ok? ==> |r.value| == |xs| && forall i :: 0 <= i < |xs| ==> f(xs[i]) == Ok(r.value[i])
    ensures r.Err? ==> exists i :: 0 <= i < |xs| && f(xs[i]) == Err(r.error) && forall j :: 0 <= j < i ==> f(xs[j]).Ok?
  {
    if xs == [] then Ok([])
    else
      assert forall i :: 1 <= i < |xs| ==> xs[i] == xs[1..][i - 1];
      match f(xs[0])
      case Err(e) => Err(e)
      case Ok(y) =>
        match TryMap(xs[1..], f)
        case Err(e) => Err(e)
        case Ok(ys) => Ok([y] + ys)
  }

  /** A map that leaves every element as it is succeeds with the input. */
  lemma TryMapFixed<T, E>(xs: seq<T>, f: T -> Result<T, E>)
    requires forall i :: 0 <= i < |xs| ==> f(xs[i]) == Ok(xs[i])
    ensures TryMap(xs, f) == Ok(xs)
  {
    var r := TryMap(xs, f);
    assert r.Ok?;
    assert forall i :: 0 <= i < |xs| ==> r.value[i] == xs[i];
    assert r.value == xs;
  }

  /** One more element adds its image, if any, at the end. */
  lemma FilterMapSnoc<T, U>(xs: seq<T>, i: nat, f: T -> Option<U>)
    requires i < |xs|
    ensures FilterMap(xs[..i + 1], f) == FilterMap(xs[..i], f) + (if f(xs[i]).Some? then [f(xs[i]).value] else [])
  {
    assert xs[..i + 1] == xs[..i] + [xs[i]];
    FilterMapAppend(xs[..i], [xs[i]], f);
    assert [xs[i]][1..] == [];
  }

  /** No element occurs twice. */
  predicate Distinct<T(==)>(xs: seq<T>)
  {
    forall i, j :: 0 <= i < j < |xs| ==> xs[i] != xs[j]
  }

  /** `collect::<IndexSet<_>>()`: the first occurrence of each element, in
      order. */
  function Dedup<T(==)>(xs: seq<T>): (r: seq<T>)
    ensures Distinct(r)
    ensures forall k :: 0 <= k < |r| ==> r[k] in xs
    ensures forall i :: 0 <= i < |xs| ==> xs[i] in r
  {
    if xs == [] then []
    else
      var p := Dedup(xs[..|xs| - 1]);
      var x := xs[|xs| - 1];
      assert forall i :: 0 <= i < |xs| - 1 ==> xs[i] == xs[..|xs| - 1][i];
      if x in p then p else p + [x]
  }

  /** Collecting elements that are already distinct keeps them as they are. */
  lemma {:induction false} DedupDistinct<T>(xs: seq<T>)
    requires Distinct(xs)
    ensures Dedup(xs) == xs
  {
    if xs != [] {
      var n := |xs| - 1;
      DedupDistinct(xs[..n]);
      assert xs[n] !in xs[..n];
      assert xs[..n] + [xs[n]] == xs;
    }
  }

  /** The position of the first occurrence of `x`. */
  function IndexOf<T(==)>(xs: seq<T>, x: T): (r: nat)
    requires x in xs
    ensures r < |xs| && xs[r] == x
    ensures forall j :: 0 <= j < r ==> xs[j] != x
  {
    if xs[0] == x then 0
    else
      assert x in xs[1..];
      1 + IndexOf(xs[1..], x)
  }

  /** An element of a prefix is first found inside that prefix. */
  lemma IndexOfPrefix<T>(xs: seq<T>, n: nat, x: T)
    requires n <= |xs| && x in xs[..n]
    ensures IndexOf(xs, x) == IndexOf(xs[..n], x)
  {
    var i, k := IndexOf(xs, x), IndexOf(xs[..n], x);
    assert forall j :: 0 <= j < n ==> xs[..n][j] == xs[j];
    assert xs[k] == x;
  }

  /** One more element joins the set at its end exactly when it is new. */
  lemma DedupSnoc<T>(xs: seq<T>, x: T)
    ensures Dedup(xs + [x]) == if x in xs then Dedup(xs) else Dedup(xs) + [x]
  {
    assert (xs + [x])[..|xs|] == xs;
    assert x in xs <==> x in Dedup(xs) by {
      if x in xs {
        var i :| 0 <= i < |xs| && xs[i] == x;
      }
    }
  }

  /** The set keeps first-occurrence order: an element listed earlier
      first occurs earlier in the input. */
  lemma {:induction false} DedupOrder<T>(xs: seq<T>)
    ensures forall k, l :: 0 <= k < l < |Dedup(xs)| ==> IndexOf(xs, Dedup(xs)[k]) < IndexOf(xs, Dedup(xs)[l])
  {
    if xs != [] {
      var n := |xs| - 1;
      var p, x := xs[..n], xs[n];
      assert xs == p + [x];
      DedupOrder(p);
      DedupSnoc(p, x);
      var d := Dedup(p);
      forall k | 0 <= k < |d| ensures IndexOf(xs, d[k]) == IndexOf(p, d[k]) < n {
        IndexOfPrefix(xs, n, d[k]);
      }
      if x !in p {
        assert IndexOf(xs, x) == n;
        assert Dedup(xs) == d + [x];
      }
    }
  }

  /** A single element is its own set. */
  lemma DedupSingle<T>(x: T)
    ensures Dedup([x]) == [x]
  {
    assert [x][..0] == [];
  }

  /** Regrouping a concatenation, stated once over any element type so
      that callers need not reason about the elements. */
  lemma AppendAssociative<T>(x: seq<T>, y: seq<T>, z: seq<T>)
    ensures x + y + z == x + (y + z)
  {
  }

  lemma ConcatAssociative<T>(w: seq<T>, x: seq<T>, y: seq<T>, z: seq<T>)
    ensures w + (x + y) + z == w + x + y + z
  {
  }
}
