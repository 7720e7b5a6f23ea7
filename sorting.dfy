/**
 * `.sort({ createdAt: -1 })`: documents ordered newest first by a timestamp
 * key. Documents with equal timestamps may come in any order; the model
 * fixes one such order (an insertion sort), and everything proved about it
 * holds of any newest-first permutation.
 */
module Sorting {

  predicate NewestFirst<T>(s: seq<T>, key: T -> int) {
    forall i, j :: 0 <= i < j < |s| ==> key(s[i]) >= key(s[j])
  }

  /** Puts `x` before the first element older than it. */
  function Insert<T(==)>(x: T, s: seq<T>, key: T -> int): (r: seq<T>)
    requires NewestFirst(s, key)
    ensures multiset(r) == multiset(s) + multiset{x}
    ensures NewestFirst(r, key)
  {
    if s == [] then [x]
    else if key(x) >= key(s[0]) then [x] + s
    else
      var rest := Insert(x, s[1..], key);
      ConsNewestFirst(s[0], x, s[1..], rest, key);
      assert s == [s[0]] + s[1..];
      [s[0]] + rest
  }

  /** A head no older than anything behind it keeps a newest-first list so. */
  lemma ConsNewestFirst<T>(h: T, x: T, tail: seq<T>, rest: seq<T>, key: T -> int)
    requires NewestFirst([h] + tail, key) && NewestFirst(rest, key)
    requires multiset(rest) == multiset(tail) + multiset{x} && key(x) < key(h)
    ensures NewestFirst([h] + rest, key)
  {
    var r := [h] + rest;
    forall i, j | 0 <= i < j < |r| ensures key(r[i]) >= key(r[j]) {
      if i == 0 {
        assert r[j] == rest[j - 1] && rest[j - 1] in multiset(rest);
        if r[j] != x {
          assert r[j] in multiset(tail);
          var k :| 0 <= k < |tail| && tail[k] == r[j];
          assert ([h] + tail)[0] == h && ([h] + tail)[k + 1] == r[j];
          assert key(([h] + tail)[0]) >= key(([h] + tail)[k + 1]);
        }
      } else {
        assert r[i] == rest[i - 1] && r[j] == rest[j - 1];
        assert key(rest[i - 1]) >= key(rest[j - 1]);
      }
    }
  }

  function SortNewestFirst<T(==)>(s: seq<T>, key: T -> int): (r: seq<T>)
    ensures multiset(r) == multiset(s)
    ensures NewestFirst(r, key)
  {
    if s == [] then []
    else
      assert s == [s[0]] + s[1..];
      Insert(s[0], SortNewestFirst(s[1..], key), key)
  }

  /**
   * Taking the first `n` of a newest-first list: what is left out is never
   * newer than anything taken.
   */
  lemma PrefixIsNewest<T>(s: seq<T>, key: T -> int, n: nat)
    requires NewestFirst(s, key) && n <= |s|
    ensures NewestFirst(s[..n], key)
    ensures forall x, y :: x in multiset(s) - multiset(s[..n]) && y in s[..n] ==> key(x) <= key(y)
  {
    SuffixIsRest(s, n);
    forall x, y | x in multiset(s) - multiset(s[..n]) && y in s[..n]
      ensures key(x) <= key(y)
    {
      var j := IndexOf(s[n..], x);
      var i := IndexOf(s[..n], y);
      assert s[n + j] == x && s[i] == y;
    }
  }

  /** What a prefix leaves out of the multiset is exactly the suffix. */
  lemma SuffixIsRest<T>(s: seq<T>, n: nat)
    requires n <= |s|
    ensures multiset(s) - multiset(s[..n]) == multiset(s[n..])
  {
    assert s == s[..n] + s[n..];
  }

  /** A position at which an element of the multiset occurs. */
  lemma IndexOf<T>(s: seq<T>, x: T) returns (k: nat)
    requires x in multiset(s)
    ensures k < |s| && s[k] == x
  {
    assert x in s;
    k :| k < |s| && s[k] == x;
  }
}
