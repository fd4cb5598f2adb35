/**
 * `trieDecoder(trie)` of the Logmatic reporter: the parsed `restiming` beacon value is a trie of
 * nested objects; flattening it concatenates the keys along each path, and every value that is not
 * an object (including null) is stored under its concatenated key. Writing a key twice keeps the
 * place of the first write and the value of the last, as JavaScript objects do.
 */
module TrieDecoder {
  import opened Wrappers
  import opened JsText
  import opened JsObject

  /** A JSON value that is not an object: what a flattened trie holds. */
  datatype Scalar = Null | Bool(b: bool) | Num(n: int) | Str(s: string)

  /** A parsed JSON value: an object with its own properties in order (an array's being its indices), or a scalar. */
  datatype Trie = Leaf(value: Scalar) | Node(children: seq<(string, Trie)>)

  /**
   * `trieDecoder(trie)`: an object is flattened; `for (i in s)` over a top-level string visits
   * its indices, and over any other scalar visits nothing.
   */
  function TrieDecode(trie: Trie): Entries<Scalar> {
    match trie
    case Node(cs) => FlattenNode(trie, |cs|)
    case Leaf(Str(s)) => seq(|s|, j requires 0 <= j < |s| => (IntToString(j), Str([s[j]])))
    case Leaf(_) => []
  }

  /** The flattening of the first `n` properties of the object `t`, in the order `for...in` visits them. */
  function FlattenNode(t: Trie, n: nat): Entries<Scalar>
    requires t.Node? && n <= |t.children|
    decreases t, 0, n
  {
    if n == 0 then []
    else
      var prev := FlattenNode(t, n - 1);
      var p := t.children[n - 1];
      assert p in t.children;
      match p.1
      case Leaf(v) => Put(prev, p.0, v)
      case Node(cs) => PutPrefixed(prev, p.0, FlattenNode(p.1, |cs|))
  }

  /** `for (x in flat) decoded[i + x] = flat[x]`. */
  function PutPrefixed(o: Entries<Scalar>, i: string, flat: Entries<Scalar>): Entries<Scalar>
    decreases |flat|
  {
    if |flat| == 0 then o
    else
      var last := flat[|flat| - 1];
      Put(PutPrefixed(o, i, flat[..|flat| - 1]), i + last.0, last.1)
  }

  // ---------------------------------------------------------------------------------------------
  // The reference definition: every root-to-leaf path, in visiting order

  /** Each path of the first `n` properties of `t` with its keys concatenated, and the leaf it ends at. */
  function LeafPaths(t: Trie, n: nat): seq<(string, Scalar)>
    requires t.Node? && n <= |t.children|
    decreases t, 0, n
  {
    if n == 0 then []
    else
      var p := t.children[n - 1];
      assert p in t.children;
      LeafPaths(t, n - 1) +
        match p.1
        case Leaf(v) => [(p.0, v)]
        case Node(cs) => Prefixed(p.0, LeafPaths(p.1, |cs|))
  }

  /** The paths with `i` in front of every key. */
  function Prefixed(i: string, ps: seq<(string, Scalar)>): (r: seq<(string, Scalar)>)
    ensures |r| == |ps|
    ensures forall j :: 0 <= j < |ps| ==> r[j] == (i + ps[j].0, ps[j].1)
  {
    seq(|ps|, j requires 0 <= j < |ps| => (i + ps[j].0, ps[j].1))
  }

  /** The value of the last path with key `k`: what successive assignments leave under `k`. */
  function Last(ps: seq<(string, Scalar)>, k: string): (r: Option<Scalar>)
    ensures r.None? <==> !Has(ps, k)
    ensures r.Some? ==> (k, r.value) in ps
  {
    if |ps| == 0 then None
    else if ps[|ps| - 1].0 == k then Some(ps[|ps| - 1].1)
    else
      var r := Last(ps[..|ps| - 1], k);
      assert Has(ps, k) ==> Has(ps[..|ps| - 1], k) by {
        if Has(ps, k) {
          var j :| 0 <= j < |ps| && ps[j].0 == k;
          assert ps[..|ps| - 1][j].0 == k;
        }
      }
      r
  }

  // ---------------------------------------------------------------------------------------------
  // Properties

  /** Flattening builds an object: no key twice. */
  lemma {:induction false} FlattenDistinct(t: Trie, n: nat)
    requires t.Node? && n <= |t.children|
    ensures DistinctKeys(FlattenNode(t, n))
    decreases t, 0, n
  {
    if n > 0 {
      var p := t.children[n - 1];
      assert p in t.children;
      var prev := FlattenNode(t, n - 1);
      FlattenDistinct(t, n - 1);
      match p.1
      case Leaf(v) => PutDistinct(prev, p.0, v);
      case Node(cs) => PrefixedDistinct(prev, p.0, FlattenNode(p.1, |cs|));
    }
  }

  lemma {:induction false} PrefixedDistinct(o: Entries<Scalar>, i: string, flat: Entries<Scalar>)
    requires DistinctKeys(o)
    ensures DistinctKeys(PutPrefixed(o, i, flat))
    decreases |flat|
  {
    if |flat| > 0 {
      var last := flat[|flat| - 1];
      PrefixedDistinct(o, i, flat[..|flat| - 1]);
      PutDistinct(PutPrefixed(o, i, flat[..|flat| - 1]), i + last.0, last.1);
    }
  }

  /** In an object, the entry holding `k` is the one `Get` finds. */
  lemma GetUnique(o: Entries<Scalar>, k: string, v: Scalar)
    requires DistinctKeys(o) && (k, v) in o
    ensures Get(o, k) == Some(v)
  {
    var j :| 0 <= j < |o| && o[j] == (k, v);
    var w := Get(o, k).value;
    var m :| 0 <= m < |o| && o[m] == (k, w);
    assert j == m;
  }

  /** In an object, the last entry for a key is the only one. */
  lemma LastDistinct(o: Entries<Scalar>, k: string)
    requires DistinctKeys(o)
    ensures Last(o, k) == Get(o, k)
  {
    if Last(o, k).Some? {
      GetUnique(o, k, Last(o, k).value);
    }
  }

  /** Two runs of assignments: a key's value comes from the later run if it writes the key. */
  lemma {:induction false} LastAppend(a: seq<(string, Scalar)>, b: seq<(string, Scalar)>, k: string)
    ensures Last(a + b, k) == if Last(b, k).Some? then Last(b, k) else Last(a, k)
    decreases |b|
  {
    if |b| > 0 {
      var b' := b[..|b| - 1];
      assert (a + b)[..|a + b| - 1] == a + b';
      LastAppend(a, b', k);
    } else {
      assert a + b == a;
    }
  }

  /** A key is written by the prefixed paths exactly when it starts with `i` and the rest is written by the paths. */
  lemma {:induction false} LastPrefixed(i: string, ps: seq<(string, Scalar)>, k: string)
    ensures Last(Prefixed(i, ps), k) == if |i| <= |k| && k[..|i|] == i then Last(ps, k[|i|..]) else None
    decreases |ps|
  {
    if |ps| > 0 {
      var ps' := ps[..|ps| - 1];
      var x := ps[|ps| - 1].0;
      assert Prefixed(i, ps)[..|ps| - 1] == Prefixed(i, ps');
      LastPrefixed(i, ps', k);
      if i + x == k {
        assert k[..|i|] == i && k[|i|..] == x;
      }
    }
  }

  /** `PutPrefixed` assigns the prefixed entries in order on top of `o`. */
  lemma {:induction false} PutPrefixedGet(o: Entries<Scalar>, i: string, flat: Entries<Scalar>, k: string)
    ensures Get(PutPrefixed(o, i, flat), k) ==
      if Last(Prefixed(i, flat), k).Some? then Last(Prefixed(i, flat), k) else Get(o, k)
    decreases |flat|
  {
    if |flat| > 0 {
      var flat' := flat[..|flat| - 1];
      assert Prefixed(i, flat)[..|flat| - 1] == Prefixed(i, flat');
      PutPrefixedGet(o, i, flat', k);
    }
  }

  /**
   * The flattening holds, under every key, the leaf of the last path whose concatenated keys
   * spell it, and nothing under any other key.
   */
  lemma {:induction false} FlattenNodeSpec(t: Trie, n: nat, k: string)
    requires t.Node? && n <= |t.children|
    ensures Get(FlattenNode(t, n), k) == Last(LeafPaths(t, n), k)
    decreases t, 0, n, 3
  {
    AgreesUpTo(t, n, k);
  }

  /** The first `n` properties flatten to what their last leaf paths say about `k`. */
  ghost predicate Agrees(t: Trie, n: nat, k: string)
    requires t.Node? && n <= |t.children|
  {
    Get(FlattenNode(t, n), k) == Last(LeafPaths(t, n), k)
  }

  lemma {:induction false} AgreesUpTo(t: Trie, n: nat, k: string)
    requires t.Node? && n <= |t.children|
    ensures Agrees(t, n, k)
    decreases t, 0, n, 2
  {
    if n > 0 {
      var m: nat := n - 1;
      AgreesUpTo(t, m, k);
      ChildStep(t, m, k);
    }
  }

  /** Adding the `n`-th property keeps the flattening and the last leaf paths in step. */
  lemma {:induction false} ChildStep(t: Trie, m: nat, k: string)
    requires t.Node? && m < |t.children| && Agrees(t, m, k)
    ensures Agrees(t, m + 1, k)
    decreases t, 0, m + 1, 1
  {
    var n := m + 1;
    if t.children[m].1.Leaf? {
      LeafStep(t, n, k);
    } else {
      NodeStep(t, n, k);
    }
  }

  /** The step of `FlattenNodeSpec` for a property holding a leaf. */
  lemma LeafStep(t: Trie, n: nat, k: string)
    requires t.Node? && 0 < n <= |t.children| && t.children[n - 1].1.Leaf?
    requires Agrees(t, n - 1, k)
    ensures Agrees(t, n, k)
  {
    var p := t.children[n - 1];
    assert FlattenNode(t, n) == Put(FlattenNode(t, n - 1), p.0, p.1.value);
    assert LeafPaths(t, n) == LeafPaths(t, n - 1) + [(p.0, p.1.value)];
    LastAppend(LeafPaths(t, n - 1), [(p.0, p.1.value)], k);
  }

  /** The step of `FlattenNodeSpec` for a property holding a nested object. */
  lemma {:induction false} NodeStep(t: Trie, n: nat, k: string)
    requires t.Node? && 0 < n <= |t.children| && t.children[n - 1].1.Node?
    requires Agrees(t, n - 1, k)
    ensures Agrees(t, n, k)
    decreases t, 0, n, 0
  {
    var p := t.children[n - 1];
    assert p in t.children;
    var c := p.1;
    var f := FlattenNode(c, |c.children|);
    var sub := LeafPaths(c, |c.children|);
    assert FlattenNode(t, n) == PutPrefixed(FlattenNode(t, n - 1), p.0, f);
    assert LeafPaths(t, n) == LeafPaths(t, n - 1) + Prefixed(p.0, sub);
    LastAppend(LeafPaths(t, n - 1), Prefixed(p.0, sub), k);
    PutPrefixedGet(FlattenNode(t, n - 1), p.0, f, k);
    SubtrieSpec(p.0, c, k);
  }

  /** The step of `FlattenNodeSpec` for a nested object under key `i`. */
  lemma {:induction false} SubtrieSpec(i: string, c: Trie, k: string)
    requires c.Node?
    ensures Last(Prefixed(i, FlattenNode(c, |c.children|)), k) == Last(Prefixed(i, LeafPaths(c, |c.children|)), k)
    decreases c, 1
  {
    var f := FlattenNode(c, |c.children|);
    var sub := LeafPaths(c, |c.children|);
    LastPrefixed(i, f, k);
    LastPrefixed(i, sub, k);
    if |i| <= |k| && k[..|i|] == i {
      var x := k[|i|..];
      FlattenDistinct(c, |c.children|);
      LastDistinct(f, x);
      FlattenNodeSpec(c, |c.children|, x);
    }
  }

  /**
   * Every entry of the decoded trie is a root-to-leaf path of the input, so it holds no object;
   * and every path's key is in the decoded trie.
   */
  lemma FlattenPaths(t: Trie)
    requires t.Node?
    ensures forall e :: e in TrieDecode(t) ==> e in LeafPaths(t, |t.children|)
    ensures forall p :: p in LeafPaths(t, |t.children|) ==> Has(TrieDecode(t), p.0)
  {
    var f := TrieDecode(t);
    var ps := LeafPaths(t, |t.children|);
    FlattenDistinct(t, |t.children|);
    forall e | e in f
      ensures e in ps
    {
      GetUnique(f, e.0, e.1);
      FlattenNodeSpec(t, |t.children|, e.0);
    }
    forall p | p in ps
      ensures Has(f, p.0)
    {
      FlattenNodeSpec(t, |t.children|, p.0);
    }
  }

  /** Illustration of `FlattenNodeSpec` on one input: `{a: {b: 1, c: 2}}` decodes to `{ab: 1, ac: 2}`. */
  lemma NestedExample()
    ensures TrieDecode(Node([("a", Node([("b", Leaf(Num(1))), ("c", Leaf(Num(2)))]))])) ==
      [("ab", Num(1)), ("ac", Num(2))]
  {
    var inner := Node([("b", Leaf(Num(1))), ("c", Leaf(Num(2)))]);
    var f := FlattenNode(inner, 2);
    assert FlattenNode(inner, 1) == [("b", Num(1))];
    assert f == [("b", Num(1)), ("c", Num(2))];
    assert f[..1] == [("b", Num(1))] && f[..1][..0] == [];
    assert "a" + "b" == "ab" && "a" + "c" == "ac";
    assert PutPrefixed([], "a", f[..1]) == [("ab", Num(1))];
    assert Put([("ab", Num(1))], "ac", Num(2)) == [("ab", Num(1)), ("ac", Num(2))];
  }
}
