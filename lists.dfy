/** JavaScript's `Array.prototype.filter` and `findIndex` on sequences: the list
    primitives the front end is written with. */
module Lists {
  import opened Wrappers

  /** `s.filter(p)`: the elements that pass, in their order. */
  function Keep<T>(s: seq<T>, p: T -> bool): (r: seq<T>)
    ensures |r| <= |s|
    ensures forall k :: 0 <= k < |r| ==> r[k] in s && p(r[k])
    ensures forall k :: 0 <= k < |s| && p(s[k]) ==> s[k] in r
    decreases |s|
  {
    if s == [] then []
    else (if p(s[0]) then [s[0]] else []) + Keep(s[1..], p)
  }

  /** Filtering a concatenation filters each part in place: the order of what is kept
      is the order of the input. */
  lemma {:induction false} KeepConcat<T>(a: seq<T>, b: seq<T>, p: T -> bool)
    ensures Keep(a + b, p) == Keep(a, p) + Keep(b, p)
    decreases |a|
  {
    if a == [] {
      assert a + b == b;
    } else {
      assert (a + b)[0] == a[0];
      assert (a + b)[1..] == a[1..] + b;
      KeepConcat(a[1..], b, p);
    }
  }

  /** Two filters in a row are one filter by the conjunction. */
  lemma {:induction false} KeepKeep<T>(s: seq<T>, p: T -> bool, q: T -> bool)
    ensures Keep(Keep(s, p), q) == Keep(s, x => p(x) && q(x))
    decreases |s|
  {
    if s != [] {
      KeepKeep(s[1..], p, q);
      var head := if p(s[0]) then [s[0]] else [];
      KeepConcat(head, Keep(s[1..], p), q);
      if p(s[0]) {
        assert Keep(head, q) == if q(s[0]) then [s[0]] else [];
      }
    }
  }

  /** A filter every element passes changes nothing. */
  lemma {:induction false} KeepAll<T>(s: seq<T>, p: T -> bool)
    requires forall k :: 0 <= k < |s| ==> p(s[k])
    ensures Keep(s, p) == s
    decreases |s|
  {
    if s != [] {
      assert forall k :: 0 <= k < |s| - 1 ==> s[1..][k] == s[k + 1];
      KeepAll(s[1..], p);
      assert [s[0]] + s[1..] == s;
    }
  }

  /** `findIndex` on a list of keys: the first position holding `key`. */
  function FirstIndex(keys: seq<string>, key: string): (r: Option<nat>)
    ensures r.Some? ==> r.value < |keys| && keys[r.value] == key
    ensures r.Some? ==> forall k :: 0 <= k < r.value ==> keys[k] != key
    ensures r.None? <==> key !in keys
    decreases |keys|
  {
    if keys == [] then None
    else if keys[0] == key then Some(0)
    else
      var rest := FirstIndex(keys[1..], key);
      if rest.None? then None else Some(rest.value + 1)
  }

  /** No key appears twice. */
  predicate Distinct(keys: seq<string>) {
    forall i, j :: 0 <= i < j < |keys| ==> keys[i] != keys[j]
  }

  /** With distinct keys, the first position of a key is its only position. */
  lemma FirstIsOnly(keys: seq<string>, key: string, k: nat)
    requires Distinct(keys) && k < |keys| && keys[k] == key
    ensures FirstIndex(keys, key) == Some(k)
  {
    assert key in keys;
  }
}
