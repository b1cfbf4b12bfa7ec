/** Sequence helpers for the source's array idioms (`indexOf` + `splice`, `includes`). */
module Seqs {

  predicate NoDup<T(==)>(s: seq<T>) {
    forall i, j :: 0 <= i < j < |s| ==> s[i] != s[j]
  }

  /** `indexOf(x)` followed by `splice(idx, 1)` when found: drops the first occurrence. */
  function RemoveFirst<T(==)>(s: seq<T>, x: T): (r: seq<T>)
    ensures x !in s ==> r == s
    ensures x in s ==> |r| == |s| - 1
    ensures forall y :: y in r ==> y in s
    ensures forall y :: y in s && y != x ==> y in r
  {
    if |s| == 0 then []
    else if s[0] == x then s[1..]
    else [s[0]] + RemoveFirst(s[1..], x)
  }

  /** In a list without duplicates, removing the first occurrence removes the element. */
  lemma {:induction false} RemoveFirstNoDup<T>(s: seq<T>, x: T)
    requires NoDup(s)
    ensures NoDup(RemoveFirst(s, x))
    ensures x !in RemoveFirst(s, x)
    decreases |s|
  {
    if |s| > 0 {
      assert NoDup(s[1..]) by {
        forall i, j | 0 <= i < j < |s[1..]| ensures s[1..][i] != s[1..][j] {
          assert s[1..][i] == s[i + 1] && s[1..][j] == s[j + 1];
        }
      }
      if s[0] != x {
        RemoveFirstNoDup(s[1..], x);
        var t := RemoveFirst(s[1..], x);
        assert s[0] !in t by {
          forall j | 0 <= j < |s[1..]| ensures s[1..][j] != s[0] {
            assert s[1..][j] == s[j + 1];
          }
        }
        assert NoDup([s[0]] + t) by {
          forall i, j | 0 <= i < j < |[s[0]] + t| ensures ([s[0]] + t)[i] != ([s[0]] + t)[j] {
            if i > 0 {
              assert ([s[0]] + t)[i] == t[i - 1];
            }
            assert ([s[0]] + t)[j] == t[j - 1];
          }
        }
      } else {
        assert x !in s[1..] by {
          forall j | 0 <= j < |s[1..]| ensures s[1..][j] != s[0] {
            assert s[1..][j] == s[j + 1];
          }
        }
      }
    }
  }

  /** Appending an absent element and removing it again gives back the list. */
  lemma {:induction false} RemoveFirstAppended<T>(s: seq<T>, x: T)
    requires x !in s
    ensures RemoveFirst(s + [x], x) == s
    decreases |s|
  {
    if |s| == 0 {
      assert s + [x] == [x];
    } else {
      assert (s + [x])[1..] == s[1..] + [x];
      assert x !in s[1..];
      RemoveFirstAppended(s[1..], x);
      assert s == [s[0]] + s[1..];
    }
  }

  lemma NoDupAppend<T>(s: seq<T>, x: T)
    requires NoDup(s) && x !in s
    ensures NoDup(s + [x])
  {
    forall i, j | 0 <= i < j < |s + [x]| ensures (s + [x])[i] != (s + [x])[j] {
      assert (s + [x])[i] == s[i];
      if j < |s| {
        assert (s + [x])[j] == s[j];
      }
    }
  }

  /** The elements satisfying `p`, in their original order (`Array.prototype.filter`). */
  function Filter<T>(s: seq<T>, p: T -> bool): (r: seq<T>)
    ensures |r| <= |s|
    decreases |s|
  {
    if |s| == 0 then []
    else if p(s[0]) then [s[0]] + Filter(s[1..], p)
    else Filter(s[1..], p)
  }

  /** An element is kept exactly when it occurs in the input and satisfies `p`. */
  lemma {:induction false} FilterMembers<T>(s: seq<T>, p: T -> bool)
    ensures forall x :: x in Filter(s, p) <==> x in s && p(x)
    decreases |s|
  {
    if |s| > 0 {
      FilterMembers(s[1..], p);
      assert forall x :: x in s <==> x == s[0] || x in s[1..];
    }
  }

  /** Nothing is kept when no element satisfies `p`. */
  lemma {:induction false} FilterNone<T>(s: seq<T>, p: T -> bool)
    requires forall x :: x in s ==> !p(x)
    ensures Filter(s, p) == []
    decreases |s|
  {
    if |s| > 0 {
      assert forall x :: x in s[1..] ==> x in s;
      FilterNone(s[1..], p);
    }
  }

  /** Filtering a list without duplicates gives one without duplicates. */
  lemma {:induction false} FilterNoDup<T>(s: seq<T>, p: T -> bool)
    requires NoDup(s)
    ensures NoDup(Filter(s, p))
    decreases |s|
  {
    if |s| > 0 {
      assert NoDup(s[1..]) by {
        forall i, j | 0 <= i < j < |s[1..]| ensures s[1..][i] != s[1..][j] {
          assert s[1..][i] == s[i + 1] && s[1..][j] == s[j + 1];
        }
      }
      FilterNoDup(s[1..], p);
      if p(s[0]) {
        FilterMembers(s[1..], p);
        var t := Filter(s[1..], p);
        assert s[0] !in s[1..] by {
          forall j | 0 <= j < |s[1..]| ensures s[1..][j] != s[0] {
            assert s[1..][j] == s[j + 1];
          }
        }
        assert NoDup([s[0]] + t) by {
          forall i, j | 0 <= i < j < |[s[0]] + t| ensures ([s[0]] + t)[i] != ([s[0]] + t)[j] {
            if i > 0 {
              assert ([s[0]] + t)[i] == t[i - 1];
            }
            assert ([s[0]] + t)[j] == t[j - 1];
          }
        }
      }
    }
  }

  /** Two tests that agree on every element select the same elements. */
  lemma {:induction false} FilterExt<T>(s: seq<T>, p: T -> bool, q: T -> bool)
    requires forall x :: x in s ==> p(x) == q(x)
    ensures Filter(s, p) == Filter(s, q)
    decreases |s|
  {
    if |s| > 0 {
      assert forall x :: x in s[1..] ==> x in s;
      FilterExt(s[1..], p, q);
    }
  }

  /** The elements in reverse order, as a backward loop visits them. */
  function Reverse<T>(s: seq<T>): (r: seq<T>)
    ensures |r| == |s| && forall i :: 0 <= i < |s| ==> r[i] == s[|s| - 1 - i]
    decreases |s|
  {
    if |s| == 0 then [] else Reverse(s[1..]) + [s[0]]
  }

  /** Reversing keeps the elements. */
  lemma ReverseMembers<T>(s: seq<T>)
    ensures forall x :: x in Reverse(s) <==> x in s
  {
    forall x | x in s ensures x in Reverse(s) {
      var i :| 0 <= i < |s| && s[i] == x;
      assert Reverse(s)[|s| - 1 - i] == x;
    }
  }
}
