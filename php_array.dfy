/**
 * PHP arrays with string keys: ordered maps in which each key occurs once.
 * Only the operations the core uses are modelled: reading a key, `unset`,
 * assigning a key (`$a[$k] = $v`) and `array_merge`.
 */
module PhpArray {
  import opened Common

  type OrderedMap<V> = seq<(string, V)>

  /** The keys, in array order. */
  function Keys<V>(m: OrderedMap<V>): (ks: seq<string>)
    ensures |ks| == |m| && forall i :: 0 <= i < |m| ==> ks[i] == m[i].0
  {
    seq(|m|, i requires 0 <= i < |m| => m[i].0)
  }

  /** The invariant every PHP array keeps: no key occurs twice. */
  predicate KeysDistinct<V>(m: OrderedMap<V>) {
    forall i, j :: 0 <= i < j < |m| ==> m[i].0 != m[j].0
  }

  predicate HasKey<V>(m: OrderedMap<V>, k: string) {
    exists i :: 0 <= i < |m| && m[i].0 == k
  }

  /** `$a[$k]`, with None for a missing key. */
  function Get<V>(m: OrderedMap<V>, k: string): (r: Option<V>)
    ensures r.None? <==> !HasKey(m, k)
    ensures KeysDistinct(m) ==> forall i :: 0 <= i < |m| && m[i].0 == k ==> r == Some(m[i].1)
  {
    if m == [] then None
    else if m[0].0 == k then Some(m[0].1)
    else Get(m[1..], k)
  }

  /** The entries whose key is not in `ks`, in their order: `unset` of each key of `ks`. */
  function Without<V>(m: OrderedMap<V>, ks: set<string>): (r: OrderedMap<V>)
    ensures forall i :: 0 <= i < |r| ==> r[i].0 !in ks
  {
    if m == [] then []
    else if m[0].0 in ks then Without(m[1..], ks)
    else [m[0]] + Without(m[1..], ks)
  }

  lemma {:induction false} WithoutKeys<V>(m: OrderedMap<V>, ks: set<string>)
    ensures forall i :: 0 <= i < |Without(m, ks)| ==> HasKey(m, Without(m, ks)[i].0)
  {
    if m != [] {
      WithoutKeys(m[1..], ks);
      var r := Without(m, ks);
      forall i | 0 <= i < |r| ensures HasKey(m, r[i].0) {
        if m[0].0 in ks {
          assert r == Without(m[1..], ks);
          assert HasKey(m[1..], r[i].0);
          var j :| 0 <= j < |m[1..]| && m[1..][j].0 == r[i].0;
          assert m[j + 1].0 == r[i].0;
        } else if i == 0 {
          assert m[0].0 == r[i].0;
        } else {
          assert r[i] == Without(m[1..], ks)[i - 1];
          assert HasKey(m[1..], r[i].0);
          var j :| 0 <= j < |m[1..]| && m[1..][j].0 == r[i].0;
          assert m[j + 1].0 == r[i].0;
        }
      }
    }
  }

  /** Removing keys keeps the remaining keys distinct. */
  lemma {:induction false} WithoutDistinct<V>(m: OrderedMap<V>, ks: set<string>)
    requires KeysDistinct(m)
    ensures KeysDistinct(Without(m, ks))
  {
    if m != [] {
      var m' := m[1..];
      assert KeysDistinct(m') by {
        forall i, j | 0 <= i < j < |m'| ensures m'[i].0 != m'[j].0 {
          assert m'[i] == m[i + 1] && m'[j] == m[j + 1];
        }
      }
      WithoutDistinct(m', ks);
      if m[0].0 !in ks {
        WithoutKeys(m', ks);
        var r' := Without(m', ks);
        forall i | 0 <= i < |r'| ensures r'[i].0 != m[0].0 {
          var j :| 0 <= j < |m'| && m'[j].0 == r'[i].0;
          assert m[j + 1].0 == r'[i].0;
        }
      }
    }
  }

  /** Removing other keys does not change what a key reads as. */
  lemma {:induction false} WithoutKeepsGet<V>(m: OrderedMap<V>, ks: set<string>, k: string)
    requires k !in ks
    ensures Get(Without(m, ks), k) == Get(m, k)
  {
    if m != [] {
      WithoutKeepsGet(m[1..], ks, k);
    }
  }

  /**
   * `unset( $a[$k] )`: the key is gone, every other key reads as before, and the
   * remaining entries are the others in their order.
   */
  function Unset<V>(m: OrderedMap<V>, k: string): (r: OrderedMap<V>)
    ensures !HasKey(r, k)
    ensures forall k' :: k' != k ==> Get(r, k') == Get(m, k')
    ensures KeysDistinct(m) ==> KeysDistinct(r)
    ensures r == Without(m, {k})
  {
    WithoutKeepsOthers(m, {k});
    if KeysDistinct(m) then
      WithoutDistinct(m, {k});
      Without(m, {k})
    else
      Without(m, {k})
  }

  /** Every key that is not removed reads as before. */
  lemma WithoutKeepsOthers<V>(m: OrderedMap<V>, ks: set<string>)
    ensures forall k :: k !in ks ==> Get(Without(m, ks), k) == Get(m, k)
  {
    forall k | k !in ks
      ensures Get(Without(m, ks), k) == Get(m, k)
    {
      WithoutKeepsGet(m, ks, k);
    }
  }

  lemma {:induction false} WithoutWithout<V>(m: OrderedMap<V>, ks: set<string>, ks': set<string>)
    ensures Without(Without(m, ks), ks') == Without(m, ks + ks')
  {
    if m != [] {
      WithoutWithout(m[1..], ks, ks');
    }
  }

  /**
   * `$a[$k] = $v`: an existing key keeps its place and takes the new value,
   * a new key is appended at the end.
   */
  function Put<V>(m: OrderedMap<V>, k: string, v: V): (r: OrderedMap<V>)
  {
    if m == [] then [(k, v)]
    else if m[0].0 == k then [(k, v)] + m[1..]
    else [m[0]] + Put(m[1..], k, v)
  }

  /** After `$a[$k] = $v`, reading `$k` gives `$v` and every other key reads as before. */
  lemma {:induction false} PutGet<V>(m: OrderedMap<V>, k: string, v: V)
    ensures Get(Put(m, k, v), k) == Some(v)
    ensures forall k' :: k' != k ==> Get(Put(m, k, v), k') == Get(m, k')
  {
    if m != [] && m[0].0 != k {
      PutGet(m[1..], k, v);
    }
  }

  /** Assigning a key keeps the keys distinct. */
  lemma PutKeepsDistinct<V>(m: OrderedMap<V>, k: string, v: V)
    ensures KeysDistinct(m) ==> KeysDistinct(Put(m, k, v))
  {
    if KeysDistinct(m) && HasKey(m, k) {
      PutExisting(m, k, v);
    } else if !HasKey(m, k) {
      PutFresh(m, k, v);
    }
  }

  /** `array_merge( $a, $b )` for string keys: each entry of `$b` in turn is assigned into `$a`. */
  function Merge<V>(a: OrderedMap<V>, b: OrderedMap<V>): OrderedMap<V>
    decreases |b|
  {
    if b == [] then a else Merge(Put(a, b[0].0, b[0].1), b[1..])
  }

  /** The keys of `a` with each value replaced by the one `b` holds for that key, if any. */
  function Overwrite<V>(a: OrderedMap<V>, b: OrderedMap<V>): (r: OrderedMap<V>)
    ensures |r| == |a|
    ensures forall i :: 0 <= i < |a| ==> r[i].0 == a[i].0
  {
    seq(|a|, i requires 0 <= i < |a| =>
      (a[i].0, match Get(b, a[i].0) case Some(v) => v case None => a[i].1))
  }

  function KeySet<V>(m: OrderedMap<V>): (ks: set<string>)
    ensures forall k :: k in ks <==> HasKey(m, k)
  {
    set i | 0 <= i < |m| :: m[i].0
  }

  /** Assigning a key `a` already holds changes only that key's value. */
  lemma {:induction false} PutExisting<V>(a: OrderedMap<V>, k: string, v: V)
    requires KeysDistinct(a) && HasKey(a, k)
    ensures |Put(a, k, v)| == |a|
    ensures forall i :: 0 <= i < |a| ==> Put(a, k, v)[i] == if a[i].0 == k then (k, v) else a[i]
  {
    if a[0].0 != k {
      assert HasKey(a[1..], k) by {
        var i :| 0 <= i < |a| && a[i].0 == k;
        assert a[1..][i - 1].0 == k;
      }
      PutExisting(a[1..], k, v);
    }
  }

  /** Assigning a key `a` does not hold appends it. */
  lemma {:induction false} PutFresh<V>(a: OrderedMap<V>, k: string, v: V)
    requires !HasKey(a, k)
    ensures Put(a, k, v) == a + [(k, v)]
  {
    if a != [] {
      PutFresh(a[1..], k, v);
      assert a == [a[0]] + a[1..];
    }
  }

  /**
   * What array_merge does when both arrays have distinct keys: the keys of `a`
   * keep their places and take `b`'s value where `b` has one; the other entries
   * of `b` follow, in `b`'s order.
   */
  lemma {:induction false} MergeShape<V>(a: OrderedMap<V>, b: OrderedMap<V>)
    requires KeysDistinct(a) && KeysDistinct(b)
    ensures Merge(a, b) == Overwrite(a, b) + Without(b, KeySet(a))
    ensures KeysDistinct(Merge(a, b))
    decreases |b|
  {
    if b == [] {
      assert Overwrite(a, b) == a;
    } else {
      var k, v, b' := b[0].0, b[0].1, b[1..];
      var a' := Put(a, k, v);
      assert Merge(a, b) == Merge(a', b');
      TailOfDistinct(b);
      if HasKey(a, k) {
        MergeStepExisting(a, b);
        MergeShape(a', b');
      } else {
        MergeStepFresh(a, b);
        MergeShape(a', b');
        assert k !in KeySet(a);
        var o, w := Overwrite(a, b), Without(b', KeySet(a));
        assert Without(b, KeySet(a)) == [(k, v)] + w;
        assert Merge(a', b') == (o + [(k, v)]) + w;
        assert (o + [(k, v)]) + w == o + ([(k, v)] + w);
      }
    }
  }

  lemma TailOfDistinct<V>(b: OrderedMap<V>)
    requires KeysDistinct(b) && b != []
    ensures KeysDistinct(b[1..]) && !HasKey(b[1..], b[0].0)
    ensures Get(b, b[0].0) == Some(b[0].1)
    ensures forall k' :: k' != b[0].0 ==> Get(b, k') == Get(b[1..], k')
  {
    var b' := b[1..];
    forall i, j | 0 <= i < j < |b'| ensures b'[i].0 != b'[j].0 {
      assert b'[i] == b[i + 1] && b'[j] == b[j + 1];
    }
  }

  /** One step of array_merge on a key `a` already holds. */
  lemma MergeStepExisting<V>(a: OrderedMap<V>, b: OrderedMap<V>)
    requires KeysDistinct(a) && KeysDistinct(b) && b != [] && HasKey(a, b[0].0)
    requires KeysDistinct(b[1..]) && !HasKey(b[1..], b[0].0)
    requires Get(b, b[0].0) == Some(b[0].1)
    requires forall k' :: k' != b[0].0 ==> Get(b, k') == Get(b[1..], k')
    ensures var a' := Put(a, b[0].0, b[0].1);
      && KeysDistinct(a')
      && Overwrite(a', b[1..]) == Overwrite(a, b)
      && KeySet(a') == KeySet(a)
      && Without(b[1..], KeySet(a')) == Without(b, KeySet(a))
  {
    var (k, v) := b[0];
    var a' := Put(a, k, v);
    PutExisting(a, k, v);
    forall i, j | 0 <= i < j < |a'| ensures a'[i].0 != a'[j].0 {
      assert a'[i].0 == a[i].0 && a'[j].0 == a[j].0;
    }
    forall k' ensures HasKey(a', k') <==> HasKey(a, k') {
      if HasKey(a, k') {
        var i :| 0 <= i < |a| && a[i].0 == k';
        assert a'[i].0 == k';
      }
      if HasKey(a', k') {
        var i :| 0 <= i < |a'| && a'[i].0 == k';
        assert a[i].0 == k';
      }
    }
    assert KeySet(a') == KeySet(a);
    forall i | 0 <= i < |a| ensures Overwrite(a', b[1..])[i] == Overwrite(a, b)[i] {
    }
  }

  /** One step of array_merge on a key `a` does not hold. */
  lemma MergeStepFresh<V>(a: OrderedMap<V>, b: OrderedMap<V>)
    requires KeysDistinct(a) && KeysDistinct(b) && b != [] && !HasKey(a, b[0].0)
    requires KeysDistinct(b[1..]) && !HasKey(b[1..], b[0].0)
    requires forall k' :: k' != b[0].0 ==> Get(b, k') == Get(b[1..], k')
    ensures var a' := Put(a, b[0].0, b[0].1);
      && KeysDistinct(a')
      && Overwrite(a', b[1..]) == Overwrite(a, b) + [b[0]]
      && Without(b[1..], KeySet(a')) == Without(b[1..], KeySet(a))
  {
    var (k, v) := b[0];
    PutFresh(a, k, v);
    var a' := a + [(k, v)];
    forall i, j | 0 <= i < j < |a'| ensures a'[i].0 != a'[j].0 {
      if j == |a| {
        assert a[i].0 != k;
      }
    }
    forall k' ensures HasKey(a', k') <==> HasKey(a, k') || k' == k {
      if HasKey(a, k') {
        var i :| 0 <= i < |a| && a[i].0 == k';
        assert a'[i].0 == k';
      }
      assert a'[|a|].0 == k;
    }
    assert KeySet(a') == KeySet(a) + {k};
    forall i | 0 <= i < |a| ensures Overwrite(a', b[1..])[i] == Overwrite(a, b)[i] {
      assert a[i].0 != k;
    }
    assert Get(b[1..], k) == None;
    WithoutNoKey(b[1..], KeySet(a), k);
  }

  lemma {:induction false} WithoutNoKey<V>(m: OrderedMap<V>, ks: set<string>, k: string)
    requires !HasKey(m, k)
    ensures Without(m, ks + {k}) == Without(m, ks)
  {
    if m != [] {
      WithoutNoKey(m[1..], ks, k);
    }
  }
}
