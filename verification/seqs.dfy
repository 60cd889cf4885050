/** Sequence facts used for pinned-chat lists. */
module Seqs {

  /** No element occurs twice. */
  predicate NoDups<T(==)>(s: seq<T>) {
    forall i, j :: 0 <= i < j < |s| ==> s[i] != s[j]
  }

  /** `s.filter(y => y !== x)`: every occurrence of `x` dropped, the rest kept in order. */
  function RemoveAll<T(==)>(s: seq<T>, x: T): (r: seq<T>)
    ensures x !in r
    ensures multiset(r) == multiset(s)[x := 0]
  {
    if |s| == 0 then []
    else
      assert s == [s[0]] + s[1..];
      (if s[0] == x then [] else [s[0]]) + RemoveAll(s[1..], x)
  }

  /** Removal works piecewise, so the survivors keep their relative order. */
  lemma {:induction false} RemoveAllAppend<T>(a: seq<T>, b: seq<T>, x: T)
    ensures RemoveAll(a + b, x) == RemoveAll(a, x) + RemoveAll(b, x)
  {
    if |a| == 0 {
      assert a + b == b;
    } else {
      var t := a[1..];
      var h := if a[0] == x then [] else [a[0]];
      HeadTail(a);
      AppendAssoc([a[0]], t, b);
      RemoveAllCons(a[0], t + b, x);
      RemoveAllCons(a[0], t, x);
      RemoveAllAppend(t, b, x);
      AppendAssoc(h, RemoveAll(t, x), RemoveAll(b, x));
    }
  }

  /** Concatenation is associative. */
  lemma AppendAssoc<T>(p: seq<T>, q: seq<T>, r: seq<T>)
    ensures p + (q + r) == (p + q) + r
  {
  }

  /** Removal from a list with a known head: the head survives unless it is removed. */
  lemma RemoveAllCons<T>(y: T, u: seq<T>, x: T)
    ensures RemoveAll([y] + u, x) == (if y == x then [] else [y]) + RemoveAll(u, x)
  {
    assert ([y] + u)[0] == y && ([y] + u)[1..] == u;
  }

  /** Removing an absent element changes nothing. */
  lemma {:induction false} RemoveAllAbsent<T>(s: seq<T>, x: T)
    requires x !in s
    ensures RemoveAll(s, x) == s
  {
    if |s| > 0 {
      assert s[0] != x;
      var t := s[1..];
      assert x !in t by {
        forall k | 0 <= k < |t| ensures t[k] != x {
          assert t[k] == s[k + 1];
        }
      }
      RemoveAllAbsent(t, x);
      assert RemoveAll(s, x) == [s[0]] + t;
      HeadTail(s);
    }
  }

  /** Removal keeps a duplicate-free list duplicate-free. */
  lemma {:induction false} RemoveAllNoDups<T>(s: seq<T>, x: T)
    requires NoDups(s)
    ensures NoDups(RemoveAll(s, x))
  {
    if |s| > 0 {
      assert NoDups(s[1..]) by {
        forall i, j | 0 <= i < j < |s[1..]| ensures s[1..][i] != s[1..][j] {
          assert s[1..][i] == s[i + 1] && s[1..][j] == s[j + 1];
        }
      }
      RemoveAllNoDups(s[1..], x);
      var rest := RemoveAll(s[1..], x);
      assert s[0] !in s[1..] by {
        forall k | 0 <= k < |s[1..]| ensures s[1..][k] != s[0] {
          assert s[1..][k] == s[k + 1];
        }
      }
      assert multiset(rest)[s[0]] == 0 by {
        assert multiset(s[1..])[s[0]] == 0;
      }
      assert s[0] !in rest;
    }
  }

  /** A non-empty list is its head followed by its tail. */
  lemma HeadTail<T>(s: seq<T>)
    requires |s| > 0
    ensures s == [s[0]] + s[1..]
  {
  }

  /** A non-empty list is its prefix followed by its last element. */
  lemma InitLast<T>(s: seq<T>)
    requires |s| > 0
    ensures s == s[..|s| - 1] + [s[|s| - 1]]
  {
  }

  /** A non-empty list's multiset is its head plus its tail's. */
  lemma MultisetCons<T>(s: seq<T>)
    requires |s| > 0
    ensures multiset(s) == multiset{s[0]} + multiset(s[1..])
  {
    assert s == [s[0]] + s[1..];
  }

  /** Appending an element that is absent keeps a list duplicate-free. */
  lemma AppendFreshNoDups<T>(s: seq<T>, x: T)
    requires x !in s
    ensures NoDups(s) ==> NoDups(s + [x])
  {
  }

  /** The two facts about removal the unpin handler relies on. */
  lemma RemoveAllFacts<T>(s: seq<T>, x: T)
    ensures x !in s ==> RemoveAll(s, x) == s
    ensures NoDups(s) ==> NoDups(RemoveAll(s, x))
  {
    if x !in s { RemoveAllAbsent(s, x); }
    if NoDups(s) { RemoveAllNoDups(s, x); }
  }
}
