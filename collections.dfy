/**
 * Kotlin collection operations used to build maps and pick entries:
 * `associate`/`toMap` (a later pair for the same key replaces an earlier one),
 * `mapNotNull` and `firstNotNullOfOrNull`.
 */
module Collections {
  import opened Wrappers

  /** `pairs.toMap()`: every key of the pairs, each with the value of its last pair. */
  function Associate<K, V>(pairs: seq<(K, V)>): (r: map<K, V>)
    ensures r.Keys == set i | 0 <= i < |pairs| :: pairs[i].0
    ensures forall i :: 0 <= i < |pairs| && (forall j :: i < j < |pairs| ==> pairs[j].0 != pairs[i].0)
                        ==> r[pairs[i].0] == pairs[i].1
    decreases |pairs|
  {
    if |pairs| == 0 then map[]
    else
      var init := pairs[..|pairs| - 1];
      var last := pairs[|pairs| - 1];
      var r := Associate(init)[last.0 := last.1];
      assert forall i :: 0 <= i < |init| ==> init[i] == pairs[i];
      r
  }

  /** `s.associate(f)`: one key per element, the last element with a key giving its value. */
  function AssociateBy<T, K, V>(s: seq<T>, f: T -> (K, V)): (r: map<K, V>)
    ensures r.Keys == set i | 0 <= i < |s| :: f(s[i]).0
    ensures forall i :: 0 <= i < |s| && (forall j :: i < j < |s| ==> f(s[j]).0 != f(s[i]).0)
                        ==> r[f(s[i]).0] == f(s[i]).1
  {
    var pairs := seq(|s|, i requires 0 <= i < |s| => f(s[i]));
    var r := Associate(pairs);
    assert forall i :: 0 <= i < |s| ==> pairs[i] == f(s[i]);
    r
  }

  /** When every element gives the same value, every key of `associate` holds it. */
  lemma AssociateByConstant<T, K, V>(s: seq<T>, f: T -> (K, V), v: V)
    requires forall x :: f(x).1 == v
    ensures forall k :: k in AssociateBy(s, f) ==> AssociateBy(s, f)[k] == v
  {
    var r := AssociateBy(s, f);
    forall k | k in r
      ensures r[k] == v
    {
      var i :| 0 <= i < |s| && f(s[i]).0 == k;
      var j := LastWithKey(s, f, i);
    }
  }

  /** The last position whose key is the key at position `i`. */
  ghost function LastWithKey<T, K, V>(s: seq<T>, f: T -> (K, V), i: nat): (j: nat)
    requires i < |s|
    ensures i <= j < |s| && f(s[j]).0 == f(s[i]).0
    ensures forall l :: j < l < |s| ==> f(s[l]).0 != f(s[i]).0
    decreases |s| - i
  {
    if exists l :: i < l < |s| && f(s[l]).0 == f(s[i]).0 then
      var l :| i < l < |s| && f(s[l]).0 == f(s[i]).0;
      LastWithKey(s, f, l)
    else i
  }

  /** `s.mapNotNull(f)`: the non-null results, in order. */
  function MapNotNull<T, U>(s: seq<T>, f: T -> Option<U>): (r: seq<U>)
    ensures forall x :: x in r ==> exists i :: 0 <= i < |s| && f(s[i]) == Some(x)
    ensures forall i :: 0 <= i < |s| && f(s[i]).Some? ==> f(s[i]).value in r
    decreases |s|
  {
    if |s| == 0 then []
    else
      var rest := MapNotNull(s[1..], f);
      assert forall i :: 1 <= i < |s| ==> s[i] == s[1..][i - 1];
      match f(s[0])
      case None => rest
      case Some(x) => [x] + rest
  }

  lemma {:induction false} MapNotNullAppend<T, U>(a: seq<T>, b: seq<T>, f: T -> Option<U>)
    ensures MapNotNull(a + b, f) == MapNotNull(a, f) + MapNotNull(b, f)
    decreases |a|
  {
    if |a| > 0 {
      assert (a + b)[1..] == a[1..] + b;
      MapNotNullAppend(a[1..], b, f);
    } else {
      assert a + b == b;
    }
  }

  /** `s.mapNotNull(f).toMap()`: a key of the map comes from some non-null result. */
  lemma MapNotNullKeyFrom<T, K, V>(s: seq<T>, f: T -> Option<(K, V)>, k: K)
    requires k in Associate(MapNotNull(s, f))
    ensures exists i :: 0 <= i < |s| && f(s[i]).Some? && f(s[i]).value.0 == k
  {
    var pairs := MapNotNull(s, f);
    var m :| 0 <= m < |pairs| && pairs[m].0 == k;
    assert pairs[m] in pairs;
  }

  /** `s.mapNotNull(f).toMap()`: the key of every non-null result is in the map. */
  lemma MapNotNullKeyIn<T, K, V>(s: seq<T>, f: T -> Option<(K, V)>, i: int)
    requires 0 <= i < |s| && f(s[i]).Some?
    ensures f(s[i]).value.0 in Associate(MapNotNull(s, f))
  {
    var pairs := MapNotNull(s, f);
    var m :| 0 <= m < |pairs| && pairs[m] == f(s[i]).value;
  }

  /** No non-null result after position `i` has the key of the result at `i`. */
  ghost predicate LastWithKeyAt<T, K, V>(s: seq<T>, f: T -> Option<(K, V)>, i: int)
    requires 0 <= i < |s| && f(s[i]).Some?
  {
    forall j :: i < j < |s| && f(s[j]).Some? ==> f(s[j]).value.0 != f(s[i]).value.0
  }

  lemma MapNotNullAround<T, U>(s: seq<T>, f: T -> Option<U>, i: int)
    requires 0 <= i < |s| && f(s[i]).Some?
    ensures MapNotNull(s, f) == MapNotNull(s[..i], f) + [f(s[i]).value] + MapNotNull(s[i + 1..], f)
  {
    var a, b, t := s[..i], s[i + 1..], [s[i]] + s[i + 1..];
    assert s == a + t;
    MapNotNullAppend(a, t, f);
    assert t[0] == s[i] && t[1..] == b;
    assert MapNotNull(t, f) == [f(s[i]).value] + MapNotNull(b, f);
  }

  lemma LastNotNullWins<T, K, V>(s: seq<T>, f: T -> Option<(K, V)>, i: int)
    requires 0 <= i < |s| && f(s[i]).Some? && LastWithKeyAt(s, f, i)
    ensures var r := Associate(MapNotNull(s, f));
            f(s[i]).value.0 in r && r[f(s[i]).value.0] == f(s[i]).value.1
  {
    var pairs := MapNotNull(s, f);
    var v := f(s[i]).value;
    var before, after := MapNotNull(s[..i], f), MapNotNull(s[i + 1..], f);
    MapNotNullAround(s, f, i);
    var c := |before|;
    forall m | c < m < |pairs|
      ensures pairs[m].0 != v.0
    {
      assert pairs[m] == after[m - c - 1];
      var j' :| 0 <= j' < |s[i + 1..]| && f(s[i + 1..][j']) == Some(pairs[m]);
      assert f(s[i + 1 + j']) == Some(pairs[m]);
    }
    assert pairs[c] == v;
  }

  /** `s.firstNotNullOfOrNull(f)` */
  function FirstSome<T, U(==)>(s: seq<T>, f: T -> Option<U>): (r: Option<U>)
    ensures r.None? <==> forall i :: 0 <= i < |s| ==> f(s[i]).None?
    ensures r.Some? ==> exists k :: 0 <= k < |s| && f(s[k]) == r && forall i :: 0 <= i < k ==> f(s[i]).None?
    decreases |s|
  {
    if |s| == 0 then None
    else if f(s[0]).Some? then f(s[0])
    else
      var r := FirstSome(s[1..], f);
      assert forall i :: 1 <= i < |s| ==> s[i] == s[1..][i - 1];
      if r.Some? then
        var k :| 0 <= k < |s[1..]| && f(s[1..][k]) == r && forall i :: 0 <= i < k ==> f(s[1..][i]).None?;
        assert f(s[k + 1]) == r;
        r
      else r
  }
}
