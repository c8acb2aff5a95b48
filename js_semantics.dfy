/**
 * The few pieces of JavaScript semantics the combobox relies on:
 * the relational operator `<=` on strings, `Array.prototype.indexOf`,
 * and the default (comparator-less) `Array.prototype.sort`, which sorts
 * an array in place by comparing strings.
 *
 * Strings are sequences of characters. A character of the Basic
 * Multilingual Plane is the single UTF-16 code unit JavaScript compares;
 * surrogate code units have no `char` and are outside this model.
 */
module JsSemantics {

  /** `a <= b` on JavaScript strings: `a` is a prefix of `b`, or at the
      first position where they differ `a` has the smaller code unit. */
  predicate Le(a: string, b: string)
  {
    |a| == 0 || (|b| > 0 && (a[0] < b[0] || (a[0] == b[0] && Le(a[1..], b[1..]))))
  }

  /** `a` and `b` agree before index `k`, and there `a` has the smaller
      code unit. */
  predicate LowerAt(a: string, b: string, k: int)
  {
    0 <= k < |a| && k < |b| && a[..k] == b[..k] && a[k] < b[k]
  }

  /** With equal first characters, a difference in the tails is a
      difference one position further on in the whole strings. */
  lemma LowerAtTails(a: string, b: string, k: int)
    requires |a| > 0 && |b| > 0 && a[0] == b[0]
    ensures LowerAt(a, b, k) <==> 0 < k && LowerAt(a[1..], b[1..], k - 1)
  {
  }

  /** `Le` is the ordering that ECMAScript's IsLessThan operation gives
      `<=` on strings: `a` is a prefix of `b`, or at some index
      the two first differ and `a` has the smaller code unit there. */
  lemma {:induction false} LeIsCodeUnitOrder(a: string, b: string)
    ensures Le(a, b) <==> a <= b || exists k :: LowerAt(a, b, k)
  {
    if |a| == 0 || |b| == 0 {
    } else if a[0] < b[0] {
      assert LowerAt(a, b, 0);
    } else if a[0] == b[0] {
      LeIsCodeUnitOrder(a[1..], b[1..]);
      assert a <= b <==> a[1..] <= b[1..] by {
        assert a == [a[0]] + a[1..] && b == [b[0]] + b[1..];
      }
      if k' :| LowerAt(a[1..], b[1..], k') {
        LowerAtTails(a, b, k' + 1);
      }
      if k :| LowerAt(a, b, k) {
        LowerAtTails(a, b, k);
      }
    }
  }

  lemma {:induction false} LeReflexive(a: string)
    ensures Le(a, a)
  {
    if |a| > 0 {
      LeReflexive(a[1..]);
    }
  }

  lemma {:induction false} LeAntisymmetric(a: string, b: string)
    requires Le(a, b) && Le(b, a)
    ensures a == b
  {
    if |a| > 0 && |b| > 0 {
      LeAntisymmetric(a[1..], b[1..]);
      assert a == [a[0]] + a[1..] && b == [b[0]] + b[1..];
    }
  }

  lemma {:induction false} LeTransitive(a: string, b: string, c: string)
    requires Le(a, b) && Le(b, c)
    ensures Le(a, c)
  {
    if |a| > 0 && |b| > 0 && |c| > 0 && a[0] == b[0] && b[0] == c[0] {
      LeTransitive(a[1..], b[1..], c[1..]);
    }
  }

  lemma {:induction false} LeTotal(a: string, b: string)
    ensures Le(a, b) || Le(b, a)
  {
    if |a| > 0 && |b| > 0 && a[0] == b[0] {
      LeTotal(a[1..], b[1..]);
    }
  }

  /** Ascending order under `<=`, the order `sort()` leaves an array of strings in. */
  predicate Sorted(s: seq<string>)
  {
    forall i, j :: 0 <= i < j < |s| ==> Le(s[i], s[j])
  }

  /** Two sorted arrangements of the same strings are the same sequence:
      whatever algorithm the engine's `sort()` uses, its result is determined
      by the multiset of keys alone. */
  lemma {:induction false} SortedUnique(a: seq<string>, b: seq<string>)
    requires Sorted(a) && Sorted(b) && multiset(a) == multiset(b)
    ensures a == b
  {
    if |a| == 0 {
      assert |multiset(b)| == 0;
    } else {
      assert a[0] in multiset(b);
      assert b[0] in multiset(a);
      var i :| 0 <= i < |b| && b[i] == a[0];
      var j :| 0 <= j < |a| && a[j] == b[0];
      assert Le(b[0], a[0]) by {
        if i > 0 { assert Le(b[0], b[i]); } else { LeReflexive(b[0]); }
      }
      assert Le(a[0], b[0]) by {
        if j > 0 { assert Le(a[0], a[j]); } else { LeReflexive(a[0]); }
      }
      LeAntisymmetric(a[0], b[0]);
      assert a == [a[0]] + a[1..];
      assert b == [b[0]] + b[1..];
      calc {
        multiset(a[1..]);
        multiset(a) - multiset{a[0]};
        multiset(b) - multiset{b[0]};
        multiset(b[1..]);
      }
      assert Sorted(a[1..]) by {
        forall k, l | 0 <= k < l < |a| - 1 ensures Le(a[1..][k], a[1..][l]) {
          assert Le(a[k + 1], a[l + 1]);
        }
      }
      assert Sorted(b[1..]) by {
        forall k, l | 0 <= k < l < |b| - 1 ensures Le(b[1..][k], b[1..][l]) {
          assert Le(b[k + 1], b[l + 1]);
        }
      }
      SortedUnique(a[1..], b[1..]);
    }
  }

  /** `Array.prototype.indexOf` with strict equality: the first index
      holding `x`, or -1 when there is none. */
  function IndexOf(s: seq<string>, x: string): (r: int)
    ensures -1 <= r < |s|
    ensures r == -1 <==> x !in s
    ensures 0 <= r ==> s[r] == x && x !in s[..r]
  {
    if |s| == 0 then -1
    else if s[0] == x then 0
    else
      var r' := IndexOf(s[1..], x);
      assert s == [s[0]] + s[1..];
      if r' == -1 then -1
      else
        assert s[..r' + 1] == [s[0]] + s[1..][..r'];
        r' + 1
  }

  /** The default `sort()` of an array of strings: in place, ascending,
      a permutation of what the array held. */
  method SortInPlace(a: array<string>)
    modifies a
    ensures Sorted(a[..])
    ensures multiset(a[..]) == old(multiset(a[..]))
  {
    var i := 0;
    while i < a.Length
      invariant 0 <= i <= a.Length
      invariant Sorted(a[..i])
      invariant multiset(a[..]) == old(multiset(a[..]))
    {
      InsertLast(a, i);
      i := i + 1;
    }
    assert a[..] == a[..a.Length];
  }

  /** One pass of the sort: with `a[..i]` already in order, moves `a[i]`
      down by adjacent swaps until `a[..i + 1]` is in order. */
  method InsertLast(a: array<string>, i: nat)
    requires i < a.Length
    requires Sorted(a[..i])
    modifies a
    ensures Sorted(a[..i + 1])
    ensures multiset(a[..]) == old(multiset(a[..]))
  {
    var j := i;
    while j > 0 && !Le(a[j - 1], a[j])
      invariant 0 <= j <= i
      invariant forall k, l :: 0 <= k < l <= i && k != j && l != j ==> Le(a[k], a[l])
      invariant forall l :: j < l <= i ==> Le(a[j], a[l])
      invariant multiset(a[..]) == old(multiset(a[..]))
    {
      LeTotal(a[j - 1], a[j]);
      SwapDown(a, j);
      j := j - 1;
    }
    forall k | 0 <= k < j
      ensures Le(a[k], a[j])
    {
      if k < j - 1 {
        LeTransitive(a[k], a[j - 1], a[j]);
      }
    }
  }

  /** Exchanges `a[j - 1]` and `a[j]`, leaving every other element and the
      multiset of elements as they were. */
  method SwapDown(a: array<string>, j: nat)
    requires 0 < j < a.Length
    modifies a
    ensures a[j - 1] == old(a[j]) && a[j] == old(a[j - 1])
    ensures forall k :: 0 <= k < a.Length && k != j - 1 && k != j ==> a[k] == old(a[k])
    ensures multiset(a[..]) == old(multiset(a[..]))
  {
    a[j - 1], a[j] := a[j], a[j - 1];
  }
}
