/**
 * Sequence helpers shared by the cache, the scheduler and the manager:
 * duplicate-freedom, removal of one element or of a set of elements, and
 * "move to the back", which is what a linked-list LRU touch does.
 */
module Seqs {

  /** No element occurs twice. */
  predicate NoDup<T(==)>(s: seq<T>) {
    s == [] || (s[0] !in s[1..] && NoDup(s[1..]))
  }

  /** In a duplicate-free sequence, the element at `i` occurs neither before nor after `i`. */
  lemma {:induction false} NoDupAt<T>(s: seq<T>, i: nat)
    requires NoDup(s) && i < |s|
    ensures s[i] !in s[..i] && s[i] !in s[i + 1..]
  {
    if i > 0 {
      NoDupAt(s[1..], i - 1);
      assert s[..i] == [s[0]] + s[1..][..i - 1];
      assert s[i + 1..] == s[1..][i..];
      assert s[i] in s[1..];
    }
  }

  /** The elements of `s` as a set. */
  function Elems<T>(s: seq<T>): set<T> {
    set x | x in s
  }

  /** Extending a prefix by one element adds that element to its set. */
  lemma ElemsPrefixStep<T>(s: seq<T>, i: nat)
    requires i < |s|
    ensures Elems(s[..i + 1]) == Elems(s[..i]) + {s[i]}
  {
    assert s[..i + 1] == s[..i] + [s[i]];
  }

  /** `s` with every occurrence of `x` removed, other elements kept in order. */
  function Without<T(==, !new)>(s: seq<T>, x: T): (r: seq<T>)
    ensures forall y :: y in r <==> y in s && y != x
    ensures |r| <= |s|
  {
    if s == [] then [] else (if s[0] == x then [] else [s[0]]) + Without(s[1..], x)
  }

  /** `s` with every element of `xs` removed, other elements kept in order. */
  function RemoveSet<T(==, !new)>(s: seq<T>, xs: set<T>): (r: seq<T>)
    ensures forall y :: y in r <==> y in s && y !in xs
    ensures |r| <= |s|
  {
    if s == [] then [] else (if s[0] in xs then [] else [s[0]]) + RemoveSet(s[1..], xs)
  }

  /** `x` taken out of wherever it stands and appended at the back. */
  function MoveToBack<T(==, !new)>(s: seq<T>, x: T): (r: seq<T>)
    ensures forall y :: y in r <==> y in s || y == x
    ensures |r| > 0 && r[|r| - 1] == x
  {
    Without(s, x) + [x]
  }

  /** Position of the first occurrence of `x`. */
  function IndexOf<T(==, !new)>(s: seq<T>, x: T): (i: nat)
    requires x in s
    ensures i < |s| && s[i] == x && x !in s[..i]
  {
    if s[0] == x then 0 else
      var j := IndexOf(s[1..], x);
      assert s[1..][..j] == s[1..j + 1];
      1 + j
  }

  lemma {:induction false} WithoutAppend<T(!new)>(a: seq<T>, b: seq<T>, x: T)
    ensures Without(a + b, x) == Without(a, x) + Without(b, x)
  {
    if a == [] {
      assert a + b == b;
    } else {
      assert (a + b)[1..] == a[1..] + b;
      WithoutAppend(a[1..], b, x);
    }
  }

  lemma {:induction false} RemoveSetAppend<T(!new)>(a: seq<T>, b: seq<T>, xs: set<T>)
    ensures RemoveSet(a + b, xs) == RemoveSet(a, xs) + RemoveSet(b, xs)
  {
    if a == [] {
      assert a + b == b;
    } else {
      assert (a + b)[1..] == a[1..] + b;
      RemoveSetAppend(a[1..], b, xs);
    }
  }

  /** Removing an element that is absent changes nothing. */
  lemma {:induction false} WithoutAbsent<T(!new)>(s: seq<T>, x: T)
    requires x !in s
    ensures Without(s, x) == s
  {
    if s != [] {
      WithoutAbsent(s[1..], x);
    }
  }

  /** Removing a set that the sequence avoids changes nothing. */
  lemma {:induction false} RemoveSetDisjoint<T(!new)>(s: seq<T>, xs: set<T>)
    requires forall y :: y in s ==> y !in xs
    ensures RemoveSet(s, xs) == s
  {
    if s != [] {
      RemoveSetDisjoint(s[1..], xs);
    }
  }

  /** In a duplicate-free sequence, removing `s[i]` is cutting position `i` out. */
  lemma {:induction false} WithoutAt<T(!new)>(s: seq<T>, i: nat)
    requires NoDup(s) && i < |s|
    ensures Without(s, s[i]) == s[..i] + s[i + 1..]
  {
    var x := s[i];
    if i == 0 {
      WithoutAbsent(s[1..], x);
    } else {
      assert x in s[1..];
      WithoutAt(s[1..], i - 1);
      assert s[..i] == [s[0]] + s[1..][..i - 1];
      assert s[i + 1..] == s[1..][i..];
    }
  }

  /** Two duplicate-free sequences with no common element concatenate to a duplicate-free one. */
  lemma {:induction false} NoDupConcat<T(!new)>(a: seq<T>, b: seq<T>)
    requires NoDup(a) && NoDup(b)
    requires forall y :: y in a ==> y !in b
    ensures NoDup(a + b)
  {
    if a == [] {
      assert a + b == b;
    } else {
      assert (a + b)[1..] == a[1..] + b;
      NoDupConcat(a[1..], b);
      assert a[0] !in b;
    }
  }

  lemma {:induction false} WithoutNoDup<T(!new)>(s: seq<T>, x: T)
    requires NoDup(s)
    ensures NoDup(Without(s, x))
  {
    if s != [] {
      WithoutNoDup(s[1..], x);
      assert s[0] !in s[1..];
      NoDupConcat(if s[0] == x then [] else [s[0]], Without(s[1..], x));
    }
  }

  lemma {:induction false} RemoveSetNoDup<T(!new)>(s: seq<T>, xs: set<T>)
    requires NoDup(s)
    ensures NoDup(RemoveSet(s, xs))
  {
    if s != [] {
      RemoveSetNoDup(s[1..], xs);
      assert s[0] !in s[1..];
      NoDupConcat(if s[0] in xs then [] else [s[0]], RemoveSet(s[1..], xs));
    }
  }

  /** Moving to the back keeps a duplicate-free sequence duplicate-free and keeps its length. */
  lemma MoveToBackNoDup<T(!new)>(s: seq<T>, x: T)
    requires NoDup(s) && x in s
    ensures NoDup(MoveToBack(s, x)) && |MoveToBack(s, x)| == |s|
  {
    WithoutNoDup(s, x);
    NoDupConcat(Without(s, x), [x]);
    var i := IndexOf(s, x);
    WithoutAt(s, i);
    assert |Without(s, x)| == |s| - 1;
  }

  /** Every prefix of a duplicate-free sequence is duplicate-free. */
  lemma {:induction false} NoDupPrefix<T>(s: seq<T>, n: nat)
    requires NoDup(s) && n <= |s|
    ensures NoDup(s[..n])
  {
    if n > 0 {
      NoDupPrefix(s[1..], n - 1);
      assert s[..n][1..] == s[1..][..n - 1];
      assert s[0] !in s[1..][..n - 1];
    }
  }

  /** Moving the last element to the back is the identity. */
  lemma MoveLastToBack<T(!new)>(s: seq<T>)
    requires NoDup(s) && s != []
    ensures MoveToBack(s, s[|s| - 1]) == s
  {
    WithoutAt(s, |s| - 1);
  }

  /** Removing `x` then the set `xs` is removing `xs + {x}`. */
  lemma {:induction false} WithoutRemoveSet<T(!new)>(s: seq<T>, xs: set<T>, x: T)
    ensures Without(RemoveSet(s, xs), x) == RemoveSet(s, xs + {x})
  {
    if s != [] {
      WithoutRemoveSet(s[1..], xs, x);
      var head := if s[0] in xs then [] else [s[0]];
      assert RemoveSet(s, xs) == head + RemoveSet(s[1..], xs);
      WithoutAppend(head, RemoveSet(s[1..], xs), x);
      assert Without(head, x) == (if s[0] in xs + {x} then [] else [s[0]]);
    }
  }

  /** A duplicate-free sequence is as long as its set of elements is large. */
  lemma {:induction false} NoDupCard<T(!new)>(s: seq<T>)
    requires NoDup(s)
    ensures |Elems(s)| == |s|
  {
    if s != [] {
      NoDupCard(s[1..]);
      assert Elems(s) == {s[0]} + Elems(s[1..]);
      assert s[0] !in Elems(s[1..]);
    }
  }
}
