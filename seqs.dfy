/** Multiplicity and deletion on sequences: the table rows of the backend and the
    lists of the client screens are both sequences. */
module Seqs {

  /** How many times `x` occurs in `s`. */
  function Count<T(==)>(s: seq<T>, x: T): (n: nat)
    ensures n <= |s|
    ensures n == 0 <==> x !in s
  {
    if s == [] then 0 else (if s[0] == x then 1 else 0) + Count(s[1..], x)
  }

  /** `s` with every copy of `x` removed and the rest in their original order:
      a SQL `DELETE ... WHERE row = x`, or JavaScript's `s.filter(y => y !== x)`. */
  function Without<T(==,!new)>(s: seq<T>, x: T): (r: seq<T>)
    ensures x !in r
    ensures forall y :: y in r <==> y in s && y != x
    ensures forall y :: y != x ==> Count(r, y) == Count(s, y)
    ensures |r| == |s| - Count(s, x)
  {
    if s == [] then []
    else if s[0] == x then Without(s[1..], x)
    else [s[0]] + Without(s[1..], x)
  }

  /** No element occurs twice. */
  ghost predicate Distinct<T(!new)>(s: seq<T>) {
    forall x :: Count(s, x) <= 1
  }

  lemma {:induction false} CountAppend<T>(a: seq<T>, b: seq<T>, x: T)
    ensures Count(a + b, x) == Count(a, x) + Count(b, x)
  {
    if a == [] {
      assert a + b == b;
    } else {
      assert (a + b)[1..] == a[1..] + b;
      CountAppend(a[1..], b, x);
    }
  }

  /** Appending one element adds one to its own count and changes no other count. */
  lemma CountSnoc<T>(s: seq<T>, x: T)
    ensures forall y :: Count(s + [x], y) == Count(s, y) + (if y == x then 1 else 0)
  {
    forall y ensures Count(s + [x], y) == Count(s, y) + (if y == x then 1 else 0) {
      CountAppend(s, [x], y);
    }
  }

  /** Count agrees with the multiplicity in the sequence's multiset. */
  lemma {:induction false} CountIsMultiplicity<T>(s: seq<T>, x: T)
    ensures Count(s, x) == multiset(s)[x]
  {
    if s != [] {
      assert s == [s[0]] + s[1..];
      CountIsMultiplicity(s[1..], x);
    }
  }

  /** Deleting commutes with concatenation, so deletion keeps the relative order of
      what remains. */
  lemma {:induction false} WithoutAppend<T(!new)>(a: seq<T>, b: seq<T>, x: T)
    ensures Without(a + b, x) == Without(a, x) + Without(b, x)
  {
    if a == [] {
      assert a + b == b;
    } else {
      var ab := a + b;
      assert ab[0] == a[0] && ab[1..] == a[1..] + b;
      WithoutAppend(a[1..], b, x);
      if a[0] == x {
        calc {
          Without(ab, x);
          Without(a[1..] + b, x);
          Without(a[1..], x) + Without(b, x);
          Without(a, x) + Without(b, x);
        }
      } else {
        calc {
          Without(ab, x);
          [a[0]] + Without(a[1..] + b, x);
          [a[0]] + (Without(a[1..], x) + Without(b, x));
          ([a[0]] + Without(a[1..], x)) + Without(b, x);
          Without(a, x) + Without(b, x);
        }
      }
    }
  }

  /** Deleting an element that is not there changes nothing. */
  lemma {:induction false} WithoutAbsent<T(!new)>(s: seq<T>, x: T)
    requires x !in s
    ensures Without(s, x) == s
  {
    if s != [] {
      WithoutAbsent(s[1..], x);
    }
  }

  /** A sequence without repetitions has as many elements as its set. */
  lemma {:induction false} DistinctCard<T(!new)>(s: seq<T>)
    requires Distinct(s)
    ensures |set x | x in s| == |s|
  {
    if s != [] {
      var t := s[1..];
      forall y ensures Count(t, y) <= 1 {
        assert Count(s, y) == (if s[0] == y then 1 else 0) + Count(t, y);
      }
      DistinctCard(t);
      assert Count(s, s[0]) == 1 + Count(t, s[0]);
      assert s[0] !in t;
      assert (set x | x in s) == {s[0]} + (set x | x in t);
    }
  }

  /** `pat` occurs as a contiguous run somewhere in `s`. */
  predicate Occurs<T(==)>(pat: seq<T>, s: seq<T>)
    decreases |s|
  {
    |pat| <= |s| && (s[..|pat|] == pat || (s != [] && Occurs(pat, s[1..])))
  }

  /** `a` is `b` with some elements dropped and the rest in their original order. */
  predicate Subsequence<T(==)>(a: seq<T>, b: seq<T>)
    decreases |b|
  {
    if a == [] then true
    else if b == [] then false
    else if a[0] == b[0] then Subsequence(a[1..], b[1..])
    else Subsequence(a, b[1..])
  }

  /** Deletion keeps the surviving elements in their order. */
  lemma {:induction false} WithoutIsSubsequence<T(!new)>(s: seq<T>, x: T)
    ensures Subsequence(Without(s, x), s)
  {
    if s != [] {
      WithoutIsSubsequence(s[1..], x);
      if s[0] != x {
        assert ([s[0]] + Without(s[1..], x))[1..] == Without(s[1..], x);
      }
    }
  }

  /** A prefix of a subsequence is a subsequence. */
  lemma {:induction false} PrefixOfSubsequence<T>(a: seq<T>, b: seq<T>, k: nat)
    requires Subsequence(a, b) && k <= |a|
    ensures Subsequence(a[..k], b)
    decreases |b|
  {
    if k > 0 && b != [] {
      if a[0] == b[0] {
        assert a[..k][1..] == a[1..][..k - 1];
        PrefixOfSubsequence(a[1..], b[1..], k - 1);
      } else {
        PrefixOfSubsequence(a, b[1..], k);
      }
    }
  }

  /** What follows the last `x` in `s`, or all of `s` when `x` does not occur:
      JavaScript's `s.split(x).pop()`. */
  function AfterLast<T(==)>(s: seq<T>, x: T): (r: seq<T>)
    ensures |r| <= |s| && r == s[|s| - |r|..]
    ensures x !in r
    ensures |r| < |s| <==> x in s
    ensures |r| < |s| ==> s[|s| - |r| - 1] == x
  {
    if s == [] then []
    else if s[|s| - 1] == x then []
    else AfterLast(s[..|s| - 1], x) + [s[|s| - 1]]
  }

  /** The run after a separator that does not recur is what AfterLast finds. */
  lemma {:induction false} AfterLastOfSuffix<T>(a: seq<T>, x: T, b: seq<T>)
    requires x !in b
    ensures AfterLast(a + [x] + b, x) == b
    decreases |b|
  {
    if b == [] {
      assert a + [x] + b == a + [x];
    } else {
      var s := a + [x] + b;
      var b' := b[..|b| - 1];
      assert s[..|s| - 1] == a + [x] + b';
      AfterLastOfSuffix(a, x, b');
      assert b == b' + [b[|b| - 1]];
    }
  }

  /** Two sequences whose counts agree everywhere except at `x` differ in length
      exactly by their difference at `x`. */
  lemma LengthFromCounts<T(!new)>(r: seq<T>, s: seq<T>, x: T)
    requires forall y :: y != x ==> Count(r, y) == Count(s, y)
    ensures |r| - Count(r, x) == |s| - Count(s, x)
  {
    var r', s' := Without(r, x), Without(s, x);
    forall y ensures multiset(r')[y] == multiset(s')[y] {
      CountIsMultiplicity(r', y);
      CountIsMultiplicity(s', y);
    }
    assert multiset(r') == multiset(s');
    assert |multiset(r')| == |r'| && |multiset(s')| == |s'|;
  }
}
