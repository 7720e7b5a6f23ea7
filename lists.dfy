/**
 * The two array transforms the client-side state updaters are built from:
 * `array.map(x => hit(x) ? f(x) : x)` and `array.filter(keep)`.
 */
module Lists {

  /** `s.map(x => hit(x) ? f(x) : x)` */
  function Replace<T>(s: seq<T>, hit: T -> bool, f: T -> T): (r: seq<T>)
    ensures |r| == |s|
    ensures forall i :: 0 <= i < |s| ==> r[i] == if hit(s[i]) then f(s[i]) else s[i]
  {
    if s == [] then [] else [if hit(s[0]) then f(s[0]) else s[0]] + Replace(s[1..], hit, f)
  }

  /** `s.filter(keep)` */
  function Keep<T(==)>(s: seq<T>, keep: T -> bool): (r: seq<T>)
    ensures |r| <= |s|
    ensures forall x :: x in r ==> x in s && keep(x)
    ensures forall x :: x in s && keep(x) ==> x in r
  {
    if s == [] then [] else (if keep(s[0]) then [s[0]] else []) + Keep(s[1..], keep)
  }

  /** Filtering distributes over concatenation: the survivors keep their relative order. */
  lemma {:induction false} KeepAppend<T>(a: seq<T>, b: seq<T>, keep: T -> bool)
    ensures Keep(a + b, keep) == Keep(a, keep) + Keep(b, keep)
  {
    if a == [] {
      assert a + b == b;
    } else {
      assert (a + b)[1..] == a[1..] + b;
      KeepAppend(a[1..], b, keep);
    }
  }

  /** When every element passes, filtering changes nothing. */
  lemma {:induction false} KeepAll<T>(s: seq<T>, keep: T -> bool)
    requires forall i :: 0 <= i < |s| ==> keep(s[i])
    ensures Keep(s, keep) == s
  {
    if s != [] {
      KeepAll(s[1..], keep);
    }
  }

  /** The multiset of survivors is the multiset of the passing elements; nothing is duplicated. */
  lemma KeepMultiset<T>(s: seq<T>, keep: T -> bool)
    ensures multiset(Keep(s, keep)) <= multiset(s)
    ensures |Keep(s, keep)| == |s| <==> forall i :: 0 <= i < |s| ==> keep(s[i])
  {
    KeepSubMultiset(s, keep);
    KeepLength(s, keep);
  }

  lemma {:induction false} KeepSubMultiset<T>(s: seq<T>, keep: T -> bool)
    ensures multiset(Keep(s, keep)) <= multiset(s)
  {
    if s != [] {
      KeepSubMultiset(s[1..], keep);
      assert s == [s[0]] + s[1..];
    }
  }

  lemma {:induction false} KeepLength<T>(s: seq<T>, keep: T -> bool)
    ensures |Keep(s, keep)| == |s| <==> forall i :: 0 <= i < |s| ==> keep(s[i])
  {
    if s != [] {
      var t := s[1..];
      KeepLength(t, keep);
      assert forall i :: 0 <= i < |t| ==> t[i] == s[i + 1];
      if keep(s[0]) {
        assert |Keep(s, keep)| == 1 + |Keep(t, keep)|;
        if forall i :: 0 <= i < |t| ==> keep(t[i]) {
          assert forall i :: 0 <= i < |s| ==> keep(s[i]) by {
            forall i | 0 <= i < |s| ensures keep(s[i]) {
              if i > 0 { assert s[i] == t[i - 1]; }
            }
          }
        }
      } else {
        assert |Keep(s, keep)| == |Keep(t, keep)|;
      }
    }
  }
}
