/** The order in which a `BTreeMap<usize, _>` is visited: ascending keys. The
    program keeps the voltage/frequency curve and the calibration results in
    such maps; here they are `map<nat, V>` and this module gives their
    iteration order, their smallest and their largest key. */
module Ordered {

  /** Every non-empty set of naturals has a least element. */
  lemma {:induction false} LeastExists(s: set<nat>)
    requires s != {}
    ensures exists m :: m in s && forall j :: j in s ==> m <= j
  {
    var x :| x in s;
    if s != {x} {
      LeastExists(s - {x});
      var m :| m in s - {x} && forall j :: j in s - {x} ==> m <= j;
      var least := if x < m then x else m;
      forall j | j in s ensures least <= j {
        if j != x { assert j in s - {x}; }
      }
    } else {
      assert forall j :: j in s ==> x <= j;
    }
  }

  /** Every non-empty finite set of naturals has a greatest element. */
  lemma {:induction false} GreatestExists(s: set<nat>)
    requires s != {}
    ensures exists m :: m in s && forall j :: j in s ==> j <= m
  {
    var x :| x in s;
    if s != {x} {
      GreatestExists(s - {x});
      var m :| m in s - {x} && forall j :: j in s - {x} ==> j <= m;
      var greatest := if m < x then x else m;
      forall j | j in s ensures j <= greatest {
        if j != x { assert j in s - {x}; }
      }
    } else {
      assert forall j :: j in s ==> j <= x;
    }
  }

  /** The smallest element: where an ascending iteration starts. */
  function Least(s: set<nat>): (m: nat)
    requires s != {}
    ensures m in s && forall j :: j in s ==> m <= j
  {
    LeastExists(s);
    var m :| m in s && forall j :: j in s ==> m <= j;
    m
  }

  /** The largest element: `keys.max()` of an ascending iteration. */
  function Greatest(s: set<nat>): (m: nat)
    requires s != {}
    ensures m in s && forall j :: j in s ==> j <= m
  {
    GreatestExists(s);
    var m :| m in s && forall j :: j in s ==> j <= m;
    m
  }

  lemma RemoveKeyCard<V>(m: map<nat, V>, k: nat)
    requires k in m
    ensures |m - {k}| == |m| - 1
  {
    assert |m| == |m.Keys| && |m - {k}| == |(m - {k}).Keys|;
    assert (m - {k}).Keys == m.Keys - {k};
  }

  /** The keys of `m` in the order a `BTreeMap` visits them. */
  function AscendingKeys<V>(m: map<nat, V>): (ks: seq<nat>)
    ensures forall a, b :: 0 <= a < b < |ks| ==> ks[a] < ks[b]
    ensures forall k :: k in ks <==> k in m
    decreases m.Keys
  {
    if m.Keys == {} then []
    else
      var k := Least(m.Keys);
      var rest := m - {k};
      assert rest.Keys == m.Keys - {k} < m.Keys;
      var tail := AscendingKeys(rest);
      [k] + tail
  }

  /** The iteration visits as many keys as the map holds. */
  lemma {:induction false} AscendingKeysCount<V>(m: map<nat, V>)
    ensures |AscendingKeys(m)| == |m|
    decreases m.Keys
  {
    if m.Keys == {} {
      assert |m| == |m.Keys|;
    } else {
      var k := Least(m.Keys);
      assert (m - {k}).Keys == m.Keys - {k} < m.Keys;
      AscendingKeysCount(m - {k});
      RemoveKeyCard(m, k);
    }
  }

  /** The values of `m` in ascending key order: `m.into_iter().map(|(_, v)| v)`. */
  function InOrder<V>(m: map<nat, V>): (vs: seq<V>)
    ensures |vs| == |m|
  {
    var ks := AscendingKeys(m);
    AscendingKeysCount(m);
    seq(|ks|, j requires 0 <= j < |ks| => m[ks[j]])
  }

  /** The values handed over are exactly the values of the map: each key's
      value appears, and nothing else does. */
  lemma InOrderContents<V>(m: map<nat, V>)
    ensures forall k :: k in m ==> m[k] in InOrder(m)
    ensures forall v :: v in InOrder(m) ==> exists k :: k in m && m[k] == v
  {
    var ks := AscendingKeys(m);
    var vs := InOrder(m);
    forall k | k in m ensures m[k] in vs {
      var j :| 0 <= j < |ks| && ks[j] == k;
      assert vs[j] == m[k];
    }
    forall v | v in vs ensures exists k :: k in m && m[k] == v {
      var j :| 0 <= j < |vs| && vs[j] == v;
      assert ks[j] in m && m[ks[j]] == v;
    }
  }

  /** The values are handed over in ascending key order: the `j`-th value
      is the value of the `j`-th key of the strictly increasing walk. */
  lemma InOrderAscending<V>(m: map<nat, V>)
    ensures |InOrder(m)| == |AscendingKeys(m)|
    ensures forall j :: 0 <= j < |InOrder(m)| ==> AscendingKeys(m)[j] in m && InOrder(m)[j] == m[AscendingKeys(m)[j]]
  {
    AscendingKeysCount(m);
  }
}
