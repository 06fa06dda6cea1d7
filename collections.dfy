/**
 * The .NET List<T> operations that the game uses on its entity lists:
 * Remove (first occurrence), RemoveAll (with a predicate) and Contains,
 * modelled over sequences.
 */
module Collections {

  /** No element occurs twice. */
  ghost predicate Distinct<T>(s: seq<T>)
  {
    forall i, j :: 0 <= i < j < |s| ==> s[i] != s[j]
  }

  /** List<T>.Remove: drops the first occurrence of x, if any. */
  function RemoveFirst<T(==)>(s: seq<T>, x: T): seq<T>
  {
    if s == [] then []
    else if s[0] == x then s[1..]
    else [s[0]] + RemoveFirst(s[1..], x)
  }

  /** List<T>.RemoveAll: keeps, in order, the elements for which gone does not hold. */
  function RemoveAll<T>(s: seq<T>, gone: T -> bool): seq<T>
  {
    if s == [] then []
    else (if gone(s[0]) then [] else [s[0]]) + RemoveAll(s[1..], gone)
  }

  /** Remove takes out exactly one copy of a listed element and nothing else. */
  lemma {:induction false} RemoveFirstMultiset<T>(s: seq<T>, x: T)
    ensures x in s ==> multiset(RemoveFirst(s, x)) == multiset(s) - multiset{x}
    ensures x !in s ==> RemoveFirst(s, x) == s
  {
    if s != [] {
      assert s == [s[0]] + s[1..];
      RemoveFirstMultiset(s[1..], x);
    }
  }

  /** Remove on a list without duplicates: the element is gone, one entry fewer, still no duplicates. */
  lemma {:induction false} RemoveFirstDistinct<T>(s: seq<T>, x: T)
    requires Distinct(s)
    ensures x !in RemoveFirst(s, x)
    ensures Distinct(RemoveFirst(s, x))
    ensures forall y :: y in RemoveFirst(s, x) <==> y in s && y != x
    ensures x in s ==> |RemoveFirst(s, x)| == |s| - 1
  {
    if s != [] {
      assert s == [s[0]] + s[1..];
      assert Distinct(s[1..]) by {
        forall i, j | 0 <= i < j < |s[1..]| ensures s[1..][i] != s[1..][j] {
          assert s[1..][i] == s[i + 1] && s[1..][j] == s[j + 1];
        }
      }
      if s[0] != x {
        RemoveFirstDistinct(s[1..], x);
        var r := RemoveFirst(s[1..], x);
        assert s[0] !in s[1..] by {
          forall k | 0 <= k < |s[1..]| ensures s[1..][k] != s[0] { assert s[1..][k] == s[k + 1]; }
        }
        forall i, j | 0 <= i < j < |[s[0]] + r| ensures ([s[0]] + r)[i] != ([s[0]] + r)[j] {
          if i == 0 { assert ([s[0]] + r)[j] in r; }
        }
      } else {
        assert s[0] !in s[1..] by {
          forall k | 0 <= k < |s[1..]| ensures s[1..][k] != s[0] { assert s[1..][k] == s[k + 1]; }
        }
      }
    }
  }

  /** RemoveAll keeps exactly the elements that are not gone, and never adds any. */
  lemma {:induction false} RemoveAllMembers<T>(s: seq<T>, gone: T -> bool)
    ensures forall y :: y in RemoveAll(s, gone) <==> y in s && !gone(y)
    ensures |RemoveAll(s, gone)| <= |s|
    ensures (forall y :: y in s ==> !gone(y)) ==> RemoveAll(s, gone) == s
  {
    if s != [] {
      assert s == [s[0]] + s[1..];
      RemoveAllMembers(s[1..], gone);
    }
  }

  /** RemoveAll of a list without duplicates has no duplicates. */
  lemma {:induction false} RemoveAllDistinct<T>(s: seq<T>, gone: T -> bool)
    requires Distinct(s)
    ensures Distinct(RemoveAll(s, gone))
  {
    if s != [] {
      assert Distinct(s[1..]) by {
        forall i, j | 0 <= i < j < |s[1..]| ensures s[1..][i] != s[1..][j] {
          assert s[1..][i] == s[i + 1] && s[1..][j] == s[j + 1];
        }
      }
      RemoveAllDistinct(s[1..], gone);
      RemoveAllMembers(s[1..], gone);
      var r := RemoveAll(s[1..], gone);
      assert s[0] !in s[1..] by {
        forall k | 0 <= k < |s[1..]| ensures s[1..][k] != s[0] { assert s[1..][k] == s[k + 1]; }
      }
      if !gone(s[0]) {
        forall i, j | 0 <= i < j < |[s[0]] + r| ensures ([s[0]] + r)[i] != ([s[0]] + r)[j] {
          if i == 0 { assert ([s[0]] + r)[j] in r; }
        }
      }
    }
  }
}
