/** An insertion-ordered map: Rust's `IndexMap` and a JavaScript object
    with string keys. Entries keep the position of their first insertion;
    inserting an existing key replaces its value in place. */
module IndexMaps {
  import opened Wrappers

  type IndexMap<K, V> = seq<(K, V)>

  function Keys<K, V>(m: IndexMap<K, V>): (r: seq<K>)
    ensures |r| == |m|
    ensures forall i :: 0 <= i < |m| ==> r[i] == m[i].0
  {
    if m == [] then [] else [m[0].0] + Keys(m[1..])
  }

  function Values<K, V>(m: IndexMap<K, V>): (r: seq<V>)
    ensures |r| == |m|
    ensures forall i :: 0 <= i < |m| ==> r[i] == m[i].1
  {
    if m == [] then [] else [m[0].1] + Values(m[1..])
  }

  /** No key occurs twice, the invariant every `IndexMap` keeps. */
  predicate UniqueKeys<K(==), V>(m: IndexMap<K, V>)
  {
    forall i, j :: 0 <= i < j < |m| ==> m[i].0 != m[j].0
  }

  predicate HasKey<K(==), V>(m: IndexMap<K, V>, k: K)
  {
    exists i :: 0 <= i < |m| && m[i].0 == k
  }

  /** The position of `k`, if present. */
  function IndexOf<K(==), V>(m: IndexMap<K, V>, k: K): (r: Option<nat>)
    ensures r.Some? ==> r.value < |m| && m[r.value].0 == k
    ensures r.Some? ==> forall j :: 0 <= j < r.value ==> m[j].0 != k
    ensures r.None? <==> !HasKey(m, k)
  {
    if m == [] then None
    else if m[0].0 == k then Some(0)
    else match IndexOf(m[1..], k)
      case None => None
      case Some(i) => Some(i + 1)
  }

  /** `IndexMap::get`. */
  function Get<K(==), V>(m: IndexMap<K, V>, k: K): (r: Option<V>)
    ensures r.Some? <==> HasKey(m, k)
  {
    match IndexOf(m, k)
    case None => None
    case Some(i) => Some(m[i].1)
  }

  /** `IndexMap::insert`: replaces the value of an existing key where it
      stands, or appends a new entry. */
  function Insert<K(==), V>(m: IndexMap<K, V>, k: K, v: V): (r: IndexMap<K, V>)
    ensures HasKey(m, k) ==> |r| == |m|
    ensures !HasKey(m, k) ==> r == m + [(k, v)]
  {
    match IndexOf(m, k)
    case None => m + [(k, v)]
    case Some(i) => m[i := (k, v)]
  }

  /** `entry(k).or_insert_with(..)`: adds `(k, v)` only when `k` is absent. */
  function InsertIfAbsent<K(==), V>(m: IndexMap<K, V>, k: K, v: V): (r: IndexMap<K, V>)
    ensures HasKey(m, k) ==> r == m
    ensures !HasKey(m, k) ==> r == m + [(k, v)]
  {
    if HasKey(m, k) then m else m + [(k, v)]
  }

  /** `extend`: inserts the entries of `es` one after the other. */
  function InsertAll<K(==), V>(m: IndexMap<K, V>, es: seq<(K, V)>): IndexMap<K, V>
    decreases |es|
  {
    if es == [] then m else InsertAll(Insert(m, es[0].0, es[0].1), es[1..])
  }

  /** After an insertion the key maps to the new value. */
  lemma GetInsertSame<K, V>(m: IndexMap<K, V>, k: K, v: V)
    ensures Get(Insert(m, k, v), k) == Some(v)
  {
    var r := Insert(m, k, v);
    match IndexOf(m, k)
    case None =>
      assert r[|m|] == (k, v);
      assert IndexOf(r, k) == Some(|m|);
    case Some(i) =>
      assert forall j :: 0 <= j < i ==> r[j] == m[j];
      assert r[i] == (k, v);
      assert IndexOf(r, k) == Some(i);
  }

  /** An insertion leaves every other key's value alone. */
  lemma GetInsertOther<K, V>(m: IndexMap<K, V>, k: K, v: V, k': K)
    requires k' != k
    ensures Get(Insert(m, k, v), k') == Get(m, k')
  {
    var r := Insert(m, k, v);
    match IndexOf(m, k')
    case None =>
      if HasKey(r, k') {
        var j :| 0 <= j < |r| && r[j].0 == k';
        assert false;
      }
    case Some(i) =>
      assert r[i] == m[i];
      assert IndexOf(r, k') == Some(i);
  }

  /** An insertion keeps the key order, adding `k` at the end when new. */
  lemma KeysInsert<K, V>(m: IndexMap<K, V>, k: K, v: V)
    ensures Keys(Insert(m, k, v)) == if HasKey(m, k) then Keys(m) else Keys(m) + [k]
  {
  }

  /** Insertion keeps keys unique. */
  lemma InsertUnique<K, V>(m: IndexMap<K, V>, k: K, v: V)
    requires UniqueKeys(m)
    ensures UniqueKeys(Insert(m, k, v))
  {
  }

  lemma GetInsertIfAbsent<K, V>(m: IndexMap<K, V>, k: K, v: V, k': K)
    ensures Get(InsertIfAbsent(m, k, v), k') == if k' == k && !HasKey(m, k) then Some(v) else Get(m, k')
  {
    if !HasKey(m, k) {
      if k' == k {
        assert InsertIfAbsent(m, k, v) == Insert(m, k, v);
        GetInsertSame(m, k, v);
      } else {
        assert InsertIfAbsent(m, k, v) == Insert(m, k, v);
        GetInsertOther(m, k, v, k');
      }
    }
  }

  lemma HasKeyInsert<K, V>(m: IndexMap<K, V>, k: K, v: V, k': K)
    ensures HasKey(Insert(m, k, v), k') <==> k' == k || HasKey(m, k')
  {
    if k' == k {
      GetInsertSame(m, k, v);
    } else {
      GetInsertOther(m, k, v, k');
    }
  }

  /** The value of the last entry of `es` with key `k`. */
  function LastValue<K(==), V>(es: seq<(K, V)>, k: K): (r: Option<V>)
    ensures r.Some? <==> exists i :: 0 <= i < |es| && es[i].0 == k
  {
    if es == [] then None
    else
      var rest := LastValue(es[1..], k);
      assert forall i :: 1 <= i < |es| ==> es[i] == es[1..][i - 1];
      if rest.Some? then rest
      else if es[0].0 == k then Some(es[0].1)
      else None
  }

  /** Collecting pairs into a map (`collect()` or `extend`): for each key
      the last pair wins; other keys keep their old value. */
  lemma {:induction false} GetInsertAll<K, V>(m: IndexMap<K, V>, es: seq<(K, V)>, k: K)
    ensures Get(InsertAll(m, es), k) == LastValue(es, k).Or(Get(m, k))
    decreases |es|
  {
    if es != [] {
      var m' := Insert(m, es[0].0, es[0].1);
      GetInsertAll(m', es[1..], k);
      if es[0].0 == k {
        GetInsertSame(m, k, es[0].1);
      } else {
        GetInsertOther(m, es[0].0, es[0].1, k);
      }
    }
  }

  /** Pairs with distinct keys collect into exactly themselves, in order. */
  lemma {:induction false} InsertAllFresh<K, V>(m: IndexMap<K, V>, es: seq<(K, V)>)
    requires forall i, j :: 0 <= i < j < |es| ==> es[i].0 != es[j].0
    requires forall i :: 0 <= i < |es| ==> !HasKey(m, es[i].0)
    ensures InsertAll(m, es) == m + es
    decreases |es|
  {
    if es != [] {
      var m' := m + [es[0]];
      assert Insert(m, es[0].0, es[0].1) == m';
      forall i | 0 <= i < |es[1..]|
        ensures !HasKey(m', es[1..][i].0)
      {
        assert es[1..][i] == es[i + 1];
      }
      InsertAllFresh(m', es[1..]);
      assert m' + es[1..] == m + es;
    }
  }

  /** Inserting one more entry after the others. */
  lemma {:induction false} InsertAllSnoc<K, V>(m: IndexMap<K, V>, es: seq<(K, V)>, e: (K, V))
    ensures InsertAll(m, es + [e]) == Insert(InsertAll(m, es), e.0, e.1)
    decreases |es|
  {
    if es == [] {
      assert es + [e] == [e];
    } else {
      assert (es + [e])[1..] == es[1..] + [e];
      InsertAllSnoc(Insert(m, es[0].0, es[0].1), es[1..], e);
    }
  }
}
