/**
 * Shared vocabulary for the model: optional and failing results, the opaque
 * per-process memory blob, order-preserving filtering (the `Array.filter`
 * calls of the game layer) and decimal rendering of numbers (template strings).
 */
module Base {

  /** A JavaScript value that may be `undefined`. */
  datatype Option<+T> = None | Some(value: T) {
    function GetOr(default: T): T {
      match this
      case Some(v) => v
      case None => default
    }
  }

  /** A call that either returns a value or throws. */
  datatype Result<+T, +E> = Ok(value: T) | Err(error: E)

  /**
   * An opaque memory object (`{}` in the source). The kernels only create,
   * store and delete such objects, never look inside, so object identity is
   * all that is modelled.
   */
  class ProcessMemory {
    constructor () {}
  }

  /** True iff `r` can be obtained from `s` by deleting elements. */
  ghost predicate SubsequenceOf<T>(r: seq<T>, s: seq<T>)
    decreases |s|
  {
    r == [] || (s != [] && ((r[0] == s[0] && SubsequenceOf(r[1..], s[1..])) || SubsequenceOf(r, s[1..])))
  }

  /** True iff no element occurs twice in `s`. */
  predicate Distinct<T(==)>(s: seq<T>) {
    forall i, j :: 0 <= i < j < |s| ==> s[i] != s[j]
  }

  /**
   * `s.filter(p)`: the elements of `s` that satisfy `p`, in their original
   * order, each occurrence kept exactly once.
   */
  function Filter<T(!new)>(s: seq<T>, p: T -> bool): (r: seq<T>)
    ensures |r| <= |s|
    ensures forall i :: 0 <= i < |r| ==> p(r[i])
    ensures forall x :: x in r <==> x in s && p(x)
    ensures forall x :: multiset(r)[x] == if p(x) then multiset(s)[x] else 0
    ensures SubsequenceOf(r, s)
    decreases |s|
  {
    if s == [] then []
    else
      var rest := Filter(s[1..], p);
      assert s == [s[0]] + s[1..];
      assert multiset(s) == multiset{s[0]} + multiset(s[1..]);
      if p(s[0]) then
        assert ([s[0]] + rest)[1..] == rest;
        [s[0]] + rest
      else rest
  }

  /** Every sequence is a subsequence of itself extended at the end. */
  lemma {:induction false} SubsequenceAppend<T>(r: seq<T>, s: seq<T>, x: T)
    requires SubsequenceOf(r, s)
    ensures SubsequenceOf(r + [x], s + [x])
    ensures SubsequenceOf(r, s + [x])
    decreases |s|
  {
    if r == [] {
      if s == [] {
        assert (r + [x])[1..] == [];
      } else {
        SubsequenceAppend(r, s[1..], x);
        assert (s + [x])[1..] == s[1..] + [x];
      }
    } else {
      assert (s + [x])[1..] == s[1..] + [x];
      assert (r + [x])[1..] == r[1..] + [x];
      if r[0] == s[0] && SubsequenceOf(r[1..], s[1..]) {
        SubsequenceAppend(r[1..], s[1..], x);
      } else {
        SubsequenceAppend(r, s[1..], x);
      }
    }
  }

  /** A distinct sequence has as many elements as the set of its elements. */
  lemma {:induction false} DistinctCardinality<T>(s: seq<T>)
    requires Distinct(s)
    ensures |set x | x in s| == |s|
  {
    if s != [] {
      var tail := s[1..];
      assert Distinct(tail);
      DistinctCardinality(tail);
      assert (set x | x in s) == {s[0]} + (set x | x in tail);
      assert s[0] !in (set x | x in tail);
    }
  }

  /** No element occurs twice iff every element occurs at most once in the multiset. */
  lemma {:induction false} DistinctMultiset<T>(s: seq<T>)
    ensures Distinct(s) <==> forall x :: multiset(s)[x] <= 1
  {
    if s != [] {
      var tail := s[1..];
      assert s == [s[0]] + tail;
      DistinctMultiset(tail);
      if Distinct(s) {
        assert Distinct(tail);
      } else {
        var i, j :| 0 <= i < j < |s| && s[i] == s[j];
        if i == 0 {
          assert s[0] in tail by { assert tail[j - 1] == s[j]; }
          assert multiset(s)[s[0]] >= 2;
        } else {
          assert tail[i - 1] == tail[j - 1];
          assert !Distinct(tail);
          var x :| multiset(tail)[x] > 1;
          assert multiset(s)[x] > 1;
        }
      }
    }
  }

  /** Reordering a sequence without repetitions gives a sequence without repetitions. */
  lemma DistinctPermutation<T>(a: seq<T>, b: seq<T>)
    requires Distinct(a) && multiset(a) == multiset(b)
    ensures Distinct(b)
  {
    DistinctMultiset(a);
    DistinctMultiset(b);
  }

  /** A non-empty set has an element. */
  lemma PickOne<T>(s: set<T>) returns (x: T)
    requires s != {}
    ensures x in s
  {
    x :| x in s;
  }

  /** A subset has at most as many elements as its superset. */
  lemma {:induction false} SubsetCardinality<T>(a: set<T>, b: set<T>)
    requires a <= b
    ensures |a| <= |b|
    decreases a
  {
    if a != {} {
      var x :| x in a;
      SubsetCardinality(a - {x}, b - {x});
    }
  }

  /** A proper subset has fewer elements than its superset. */
  lemma ProperSubsetCardinality<T>(a: set<T>, b: set<T>)
    requires a < b
    ensures |a| < |b|
  {
    assert b - a != {} by {
      assert a != b;
    }
    var x :| x in b - a;
    SubsetCardinality(a, b - {x});
  }

  function DigitChar(d: nat): char
    requires d < 10
  {
    "0123456789"[d]
  }

  /** Decimal rendering of a number, as a template string prints it. */
  function IntToString(n: int): (s: string)
    ensures |s| > 0
    ensures n >= 0 ==> s[0] != '-'
    decreases if n < 0 then -n + 1 else n
  {
    if n < 0 then "-" + IntToString(-n)
    else if n < 10 then [DigitChar(n)]
    else IntToString(n / 10) + [DigitChar(n % 10)]
  }

  /** Every character of a rendered natural number is a decimal digit. */
  lemma {:induction false} IntToStringDigits(n: nat)
    ensures forall i :: 0 <= i < |IntToString(n)| ==> IntToString(n)[i] in "0123456789"
    decreases n
  {
    if n >= 10 {
      IntToStringDigits(n / 10);
    }
  }

  lemma DigitCharInjective(a: nat, b: nat)
    requires a < 10 && b < 10 && DigitChar(a) == DigitChar(b)
    ensures a == b
  {
  }

  /** Different natural numbers render as different strings. */
  lemma {:induction false} IntToStringInjective(a: nat, b: nat)
    requires IntToString(a) == IntToString(b)
    ensures a == b
    decreases a
  {
    var s := IntToString(a);
    if a < 10 && b < 10 {
      DigitCharInjective(a, b);
    } else if a >= 10 && b >= 10 {
      var pa, pb := IntToString(a / 10), IntToString(b / 10);
      assert s == pa + [DigitChar(a % 10)] && s == pb + [DigitChar(b % 10)];
      assert |pa| == |pb|;
      assert pa == s[..|s| - 1] == pb;
      DigitCharInjective(a % 10, b % 10);
      IntToStringInjective(a / 10, b / 10);
    }
  }
}
