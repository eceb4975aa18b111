/** A Python `dict` or a JavaScript object with string keys, as the list of its
    entries in insertion order.  Insertion order is observable in this system:
    it decides table row order, the brand-multiplier precedence and which
    findings are shown first. */
module Dict {
  import opened Wrappers

  /** The keys, in entry order (`d.keys()`, `Object.keys(o)`). */
  function Keys<V>(m: seq<(string, V)>): (ks: seq<string>)
    ensures |ks| == |m|
    ensures forall i :: 0 <= i < |m| ==> ks[i] == m[i].0
  {
    seq(|m|, i requires 0 <= i < |m| => m[i].0)
  }

  /** The values, in entry order (`d.values()`). */
  function Values<V>(m: seq<(string, V)>): (vs: seq<V>)
    ensures |vs| == |m|
    ensures forall i :: 0 <= i < |m| ==> vs[i] == m[i].1
  {
    seq(|m|, i requires 0 <= i < |m| => m[i].1)
  }

  /** No key occurs twice: what every real dictionary satisfies. */
  predicate DistinctKeys<V>(m: seq<(string, V)>) {
    forall i, j :: 0 <= i < j < |m| ==> m[i].0 != m[j].0
  }

  /** Position of the first occurrence of `x`, or `|s|` when there is none. */
  function IndexOf(s: seq<string>, x: string): (i: nat)
    ensures i <= |s|
    ensures i < |s| ==> s[i] == x
    ensures forall j :: 0 <= j < i ==> s[j] != x
  {
    if |s| == 0 then 0 else if s[0] == x then 0 else 1 + IndexOf(s[1..], x)
  }

  /** `d.get(k)`: the value filed under `k`, if any. */
  function Get<V>(m: seq<(string, V)>, k: string): (r: Option<V>)
    ensures r.Some? <==> k in Keys(m)
    ensures r.Some? ==> (k, r.value) in m
  {
    var i := IndexOf(Keys(m), k);
    if i < |m| then Some(m[i].1) else None
  }

  /** `d.get(k, default)`. */
  function GetOr<V>(m: seq<(string, V)>, k: string, default: V): V {
    Get(m, k).GetOr(default)
  }

  /** In a dictionary without repeated keys, every entry is what its key looks up. */
  lemma GetEntry<V>(m: seq<(string, V)>, i: nat)
    requires DistinctKeys(m) && i < |m|
    ensures Get(m, m[i].0) == Some(m[i].1)
  {
    var j := IndexOf(Keys(m), m[i].0);
    assert Keys(m)[i] == m[i].0;
  }

  /** `d[k] = v`: overwrite the entry in place when `k` is present, else append. */
  function Put<V>(m: seq<(string, V)>, k: string, v: V): (r: seq<(string, V)>)
    ensures Get(r, k) == Some(v)
    ensures k !in Keys(m) ==> r == m + [(k, v)]
    ensures k in Keys(m) ==> r == m[IndexOf(Keys(m), k) := (k, v)]
    ensures k in Keys(m) ==> Keys(r) == Keys(m)
  {
    var i := IndexOf(Keys(m), k);
    if i < |m| then
      var r := m[i := (k, v)];
      assert Keys(r) == Keys(m);
      r
    else
      var r := m + [(k, v)];
      assert IndexOf(Keys(r), k) == |m| by {
        assert Keys(r) == Keys(m) + [k];
        IndexOfAppend(Keys(m), k);
      }
      r
  }

  lemma {:induction false} IndexOfAppend(s: seq<string>, x: string)
    requires x !in s
    ensures IndexOf(s + [x], x) == |s|
  {
    if |s| > 0 {
      assert (s + [x])[1..] == s[1..] + [x];
      IndexOfAppend(s[1..], x);
    }
  }

  /** Looking up in a dictionary extended by one entry at its end. */
  lemma GetAppend<V>(m: seq<(string, V)>, x: string, y: V, k: string)
    ensures Get(m + [(x, y)], k) == if k in Keys(m) then Get(m, k) else if k == x then Some(y) else None
  {
    var r := m + [(x, y)];
    assert Keys(r) == Keys(m) + [x];
    var i := IndexOf(Keys(m), k);
    if k in Keys(m) {
      assert IndexOf(Keys(r), k) == i by { IndexOfPrefix(Keys(m), [x], k); }
    } else if k == x {
      IndexOfAppend(Keys(m), k);
    }
  }

  lemma {:induction false} IndexOfPrefix(s: seq<string>, t: seq<string>, x: string)
    requires x in s
    ensures IndexOf(s + t, x) == IndexOf(s, x)
  {
    if s[0] != x {
      assert (s + t)[1..] == s[1..] + t;
      IndexOfPrefix(s[1..], t, x);
    }
  }
}
