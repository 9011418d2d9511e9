/** A concrete region test for the checker. The game script calls
    `isValidSet` without defining it; this module supplies the reading its
    comment gives ("a valid Sudoku solution"): the 9 values are the digits 1..9,
    each once. Everything proved in Checker holds for any test; the results
    here hold for this one only. */
module RegionRule {
  import opened Board
  import opened Checker

  /** The nine digits. */
  const Digits: set<int> := {1, 2, 3, 4, 5, 6, 7, 8, 9}

  /** The assumed region test: 9 values in which every digit 1..9 occurs. */
  predicate HasAllDigits(s: seq<int>) {
    |s| == 9 && forall d :: d in Digits ==> d in s
  }

  /** No value occurs twice. */
  predicate Distinct(s: seq<int>) {
    forall i, j :: 0 <= i < j < |s| ==> s[i] != s[j]
  }

  /** The set of values occurring in `s`. */
  function Values(s: seq<int>): set<int> {
    set x | x in s
  }

  /** A sequence has at most as many distinct values as elements, and exactly
      as many when no value repeats. */
  lemma {:induction false} ValuesCount(s: seq<int>)
    ensures |Values(s)| <= |s|
    ensures |Values(s)| == |s| <==> Distinct(s)
  {
    if s != [] {
      var t := s[1..];
      ValuesCount(t);
      assert Values(s) == {s[0]} + Values(t);
      if s[0] in t {
        assert Values(s) == Values(t);
        var j :| 0 <= j < |t| && t[j] == s[0];
        assert s[0] == s[j + 1];
      } else {
        assert |Values(s)| == |Values(t)| + 1;
        if Distinct(t) {
          forall i, j | 0 <= i < j < |s|
            ensures s[i] != s[j]
          {
            if i == 0 {
              assert s[j] == t[j - 1];
            } else {
              assert s[i] == t[i - 1] && s[j] == t[j - 1];
            }
          }
        }
      }
      if Distinct(s) {
        assert forall i, j :: 0 <= i < j < |t| ==> t[i] == s[i + 1] && t[j] == s[j + 1];
      }
    }
  }

  lemma DigitsCount()
    ensures |Digits| == 9
  {
  }

  /** A subset is no larger than its superset, and only as large when it is
      the whole superset. */
  lemma SubsetSize(a: set<int>, b: set<int>)
    requires a <= b
    ensures |a| <= |b|
    ensures |a| == |b| ==> a == b
  {
    assert b == a + (b - a);
    if |a| == |b| {
      assert |b - a| == 0;
    }
  }

  /** Nine values in which every digit occurs are digits, none repeated. */
  lemma AllDigitsArePermutation(s: seq<int>)
    requires HasAllDigits(s)
    ensures forall i :: 0 <= i < |s| ==> 1 <= s[i] <= 9
    ensures Distinct(s)
  {
    ValuesCount(s);
    DigitsCount();
    assert Digits <= Values(s);
    SubsetSize(Digits, Values(s));
    forall i | 0 <= i < |s|
      ensures 1 <= s[i] <= 9
    {
      assert s[i] in Values(s);
    }
  }

  /** Nine distinct digits include every digit. */
  lemma PermutationHasAllDigits(s: seq<int>)
    requires |s| == 9 && forall i :: 0 <= i < |s| ==> 1 <= s[i] <= 9
    requires Distinct(s)
    ensures HasAllDigits(s)
  {
    ValuesCount(s);
    DigitsCount();
    assert Values(s) <= Digits by {
      forall x | x in Values(s)
        ensures x in Digits
      {
        var i :| 0 <= i < |s| && s[i] == x;
      }
    }
    SubsetSize(Values(s), Digits);
    forall d | d in Digits
      ensures d in s
    {
      assert d in Values(s);
    }
  }

  /** The assumed test accepts exactly the orderings of the digits 1..9: nine
      values, each a digit, no two the same. */
  lemma HasAllDigitsIffPermutation(s: seq<int>)
    ensures HasAllDigits(s) <==>
            |s| == 9 && (forall i :: 0 <= i < |s| ==> 1 <= s[i] <= 9) && Distinct(s)
  {
    if HasAllDigits(s) {
      AllDigitsArePermutation(s);
    }
    if |s| == 9 && (forall i :: 0 <= i < |s| ==> 1 <= s[i] <= 9) && Distinct(s) {
      PermutationHasAllDigits(s);
    }
  }
}
