/**
 * PHP arrays used as dictionaries: an ordered sequence of key/value entries in
 * which no key occurs twice. Writing an existing key overwrites its value in
 * place; writing a new key appends it at the end.
 */
module PhpArrays {
  import opened Wrappers

  datatype Entry<K, V> = Entry(key: K, value: V)

  predicate UniqueKeys<K(==), V>(a: seq<Entry<K, V>>)
  {
    forall i, j :: 0 <= i < j < |a| ==> a[i].key != a[j].key
  }

  /** A PHP array: the order of its entries is the order of first insertion. */
  type PhpArray<K(==), V> = a: seq<Entry<K, V>> | UniqueKeys(a) witness []

  /** `array_keys($a)`: the keys in array order. */
  function Keys<K(==), V>(a: seq<Entry<K, V>>): (ks: seq<K>)
    ensures |ks| == |a|
    ensures forall i :: 0 <= i < |a| ==> ks[i] == a[i].key
  {
    if a == [] then [] else [a[0].key] + Keys(a[1..])
  }

  predicate HasKey<K(==), V>(a: seq<Entry<K, V>>, k: K)
  {
    exists i :: 0 <= i < |a| && a[i].key == k
  }

  /** `$a[$k]` when the key is present, `None` otherwise. */
  function Get<K(==), V>(a: seq<Entry<K, V>>, k: K): (r: Option<V>)
    ensures r.Some? <==> HasKey(a, k)
    ensures r.Some? ==> exists i :: 0 <= i < |a| && a[i] == Entry(k, r.value)
  {
    if a == [] then None
    else if a[0].key == k then Some(a[0].value)
    else
      var r := Get(a[1..], k);
      assert r.Some? ==> exists i :: 0 <= i < |a| - 1 && a[1..][i] == Entry(k, r.value);
      assert HasKey(a[1..], k) ==> HasKey(a, k);
      assert HasKey(a, k) ==> HasKey(a[1..], k) by {
        if HasKey(a, k) {
          var i :| 0 <= i < |a| && a[i].key == k;
          assert a[1..][i - 1].key == k;
        }
      }
      r
  }

  /**
   * `$a[$k] = $v`: an existing key keeps its position and gets the new value;
   * a new key is appended. Either way the keys stay unique.
   */
  function Put<K(==), V>(a: PhpArray<K, V>, k: K, v: V): (r: PhpArray<K, V>)
    ensures HasKey(a, k) ==> |r| == |a|
    ensures HasKey(a, k) ==>
      forall i :: 0 <= i < |a| ==> r[i] == if a[i].key == k then Entry(k, v) else a[i]
    ensures !HasKey(a, k) ==> r == a + [Entry(k, v)]
  {
    if a == [] then [Entry(k, v)]
    else if a[0].key == k then [Entry(k, v)] + a[1..]
    else
      var rest := Put(a[1..], k, v);
      assert HasKey(a, k) <==> HasKey(a[1..], k) by {
        if HasKey(a, k) {
          var i :| 0 <= i < |a| && a[i].key == k;
          assert a[1..][i - 1].key == k;
        }
      }
      var r := [a[0]] + rest;
      assert UniqueKeys(r) by {
        forall i | 0 < i < |r| ensures r[i].key != a[0].key {
          assert r[i] == rest[i - 1];
          assert i < |a| ==> rest[i - 1] == a[i] || rest[i - 1] == Entry(k, v);
        }
      }
      r
  }

  /** Reading back after a write: the written key gives the new value, every other key is untouched. */
  lemma {:induction false} PutGet<K, V>(a: PhpArray<K, V>, k: K, v: V, k': K)
    ensures Get(Put(a, k, v), k') == if k' == k then Some(v) else Get(a, k')
  {
    if a != [] && a[0].key != k {
      PutGet(a[1..], k, v, k');
      assert Put(a, k, v) == [a[0]] + Put(a[1..], k, v);
      assert ([a[0]] + Put(a[1..], k, v))[1..] == Put(a[1..], k, v);
    } else if a != [] {
      assert Put(a, k, v)[1..] == a[1..];
    }
  }

  /** A write keeps the key order: an existing key stays where it was, a new one goes last. */
  lemma PutKeys<K, V>(a: PhpArray<K, V>, k: K, v: V)
    ensures Keys(Put(a, k, v)) == if HasKey(a, k) then Keys(a) else Keys(a) + [k]
  {
  }
}
