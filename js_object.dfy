/**
 * A plain JavaScript object used as a dictionary: its own properties in insertion order.
 * `o[k] = v` replaces the value of an existing key in place and appends a new key at the end;
 * `delete o[k]` drops the key and keeps the order of the others.
 */
module JsObject {
  import opened Wrappers

  type Entries<V> = seq<(string, V)>

  function Keys<V>(o: Entries<V>): (ks: seq<string>)
    ensures |ks| == |o|
    ensures forall i :: 0 <= i < |o| ==> ks[i] == o[i].0
  {
    seq(|o|, i requires 0 <= i < |o| => o[i].0)
  }

  /** No key appears twice, which is what every object built by `Put` looks like. */
  predicate DistinctKeys<V>(o: Entries<V>) {
    forall i, j :: 0 <= i < j < |o| ==> o[i].0 != o[j].0
  }

  /** `o.hasOwnProperty(k)`. */
  predicate Has<V>(o: Entries<V>, k: string) {
    exists i :: 0 <= i < |o| && o[i].0 == k
  }

  /** `o[k]`, `None` standing for `undefined`; the first entry with the key wins. */
  function Get<V>(o: Entries<V>, k: string): (r: Option<V>)
    ensures r.None? <==> !Has(o, k)
    ensures r.Some? ==> (k, r.value) in o
  {
    if |o| == 0 then None
    else if o[0].0 == k then Some(o[0].1)
    else Get(o[1..], k)
  }

  /** `o[k] = v`. */
  function Put<V>(o: Entries<V>, k: string, v: V): (r: Entries<V>)
    ensures Get(r, k) == Some(v)
    ensures forall k' :: k' != k ==> Get(r, k') == Get(o, k')
  {
    if |o| == 0 then [(k, v)]
    else if o[0].0 == k then [(k, v)] + o[1..]
    else [o[0]] + Put(o[1..], k, v)
  }

  /** A new key goes at the end; an existing one keeps its place, so the key order is unchanged. */
  lemma {:induction false} PutOrder<V>(o: Entries<V>, k: string, v: V)
    ensures Has(o, k) ==> Keys(Put(o, k, v)) == Keys(o)
    ensures !Has(o, k) ==> Put(o, k, v) == o + [(k, v)]
  {
    if |o| > 0 && o[0].0 != k {
      PutOrder(o[1..], k, v);
      assert Has(o, k) ==> Has(o[1..], k) by {
        if Has(o, k) {
          var i :| 0 <= i < |o| && o[i].0 == k;
          assert o[1..][i - 1].0 == k;
        }
      }
      assert o == [o[0]] + o[1..];
    }
  }

  /** `Put` keeps keys unique. */
  lemma {:induction false} PutDistinct<V>(o: Entries<V>, k: string, v: V)
    requires DistinctKeys(o)
    ensures DistinctKeys(Put(o, k, v))
  {
    var r := Put(o, k, v);
    forall i, j | 0 <= i < j < |r|
      ensures r[i].0 != r[j].0
    {
      PutOrder(o, k, v);
      if Has(o, k) {
        assert Keys(r)[i] == Keys(o)[i] && Keys(r)[j] == Keys(o)[j];
      }
    }
  }

  /** `delete o[k]`. */
  function Remove<V>(o: Entries<V>, k: string): (r: Entries<V>)
    ensures !Has(r, k)
    ensures forall k' :: k' != k ==> Get(r, k') == Get(o, k')
    ensures forall e :: e in r ==> e in o
  {
    if |o| == 0 then []
    else if o[0].0 == k then Remove(o[1..], k)
    else [o[0]] + Remove(o[1..], k)
  }

  /** Deleting an absent key changes nothing, and deleting keeps keys unique. */
  lemma {:induction false} RemoveFacts<V>(o: Entries<V>, k: string)
    ensures !Has(o, k) ==> Remove(o, k) == o
    ensures DistinctKeys(o) ==> DistinctKeys(Remove(o, k))
  {
    if |o| > 0 {
      RemoveFacts(o[1..], k);
      assert !Has(o, k) ==> !Has(o[1..], k) by {
        if Has(o[1..], k) {
          var i :| 0 <= i < |o[1..]| && o[1..][i].0 == k;
          assert o[i + 1].0 == k;
        }
      }
      assert DistinctKeys(o) ==> DistinctKeys(o[1..]) by {
        if DistinctKeys(o) {
          forall i, j | 0 <= i < j < |o[1..]| ensures o[1..][i].0 != o[1..][j].0 {
            assert o[1..][i] == o[i + 1] && o[1..][j] == o[j + 1];
          }
        }
      }
      assert o == [o[0]] + o[1..];
      if o[0].0 != k && DistinctKeys(o) {
        var r := Remove(o, k);
        var t := Remove(o[1..], k);
        forall i, j | 0 <= i < j < |r| ensures r[i].0 != r[j].0 {
          if i == 0 {
            assert r[j] == t[j - 1];
            assert r[j] in o[1..];
            var m :| 0 <= m < |o[1..]| && o[1..][m] == r[j];
            assert o[m + 1] == r[j];
          } else {
            assert r[i] == t[i - 1] && r[j] == t[j - 1];
          }
        }
      }
    }
  }

  /** Writing a key twice keeps the second value and the place of the first. */
  lemma {:induction false} PutPut<V>(o: Entries<V>, k: string, v: V, w: V)
    ensures Put(Put(o, k, v), k, w) == Put(o, k, w)
  {
    if |o| > 0 && o[0].0 != k {
      PutPut(o[1..], k, v, w);
      assert Put(o, k, v)[1..] == Put(o[1..], k, v);
    }
  }
}
