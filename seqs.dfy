/** Sequence helpers that stand for Ruby's Array#uniq and Array#delete. */
module Seqs {

  ghost predicate Distinct<T>(s: seq<T>) {
    forall i, j :: 0 <= i < j < |s| ==> s[i] != s[j]
  }

  /** Array#uniq: the first occurrence of each element, in order. */
  function Uniq<T(==)>(s: seq<T>): (u: seq<T>)
    ensures forall i :: 0 <= i < |u| ==> u[i] in s
    ensures forall i :: 0 <= i < |s| ==> s[i] in u
    ensures |u| <= |s|
  {
    if s == [] then []
    else
      var rest := Uniq(s[..|s| - 1]);
      if s[|s| - 1] in rest then rest else rest + [s[|s| - 1]]
  }

  /** `a.length == a.uniq.length` holds exactly when `a` repeats nothing. */
  lemma {:induction false} UniqLengthIffDistinct<T>(s: seq<T>)
    ensures |Uniq(s)| == |s| <==> Distinct(s)
  {
    if s != [] {
      var init := s[..|s| - 1];
      var last := s[|s| - 1];
      UniqLengthIffDistinct(init);
      if Distinct(s) {
        assert Distinct(init) by {
          forall i, j | 0 <= i < j < |init| ensures init[i] != init[j] {
            assert init[i] == s[i] && init[j] == s[j];
          }
        }
        assert last !in init by {
          forall k | 0 <= k < |init| ensures init[k] != last {
            assert init[k] == s[k];
          }
        }
      } else {
        var i, j :| 0 <= i < j < |s| && s[i] == s[j];
        if j < |s| - 1 {
          assert init[i] == init[j];
          assert !Distinct(init);
        } else {
          assert init[i] == last;
        }
      }
    }
  }

  /** Array#delete: every occurrence of `x` removed, the rest kept in order. */
  function RemoveAll<T(==)>(s: seq<T>, x: T): (r: seq<T>)
    ensures multiset(r) == multiset(s)[x := 0]
    ensures |r| <= |s|
    ensures x !in s ==> r == s
  {
    if s == [] then []
    else
      assert s == [s[0]] + s[1..];
      if s[0] == x then RemoveAll(s[1..], x)
      else [s[0]] + RemoveAll(s[1..], x)
  }

  /** Removing every occurrence of `x` from a sequence without repeats leaves one without
      repeats, one element shorter when `x` was there. */
  lemma {:induction false} RemoveAllDistinct<T>(s: seq<T>, x: T)
    requires Distinct(s)
    ensures Distinct(RemoveAll(s, x))
    ensures x in s ==> |RemoveAll(s, x)| == |s| - 1
  {
    if s != [] {
      DistinctTail(s);
      RemoveAllDistinct(s[1..], x);
      var r := RemoveAll(s[1..], x);
      if s[0] != x {
        assert multiset(s[1..])[s[0]] == 0;
        assert s[0] !in r by {
          assert multiset(r)[s[0]] == 0;
        }
        DistinctCons(s[0], r);
      }
    }
  }

  lemma DistinctTail<T>(s: seq<T>)
    requires Distinct(s) && s != []
    ensures Distinct(s[1..]) && s[0] !in s[1..]
  {
    forall i, j | 0 <= i < j < |s[1..]| ensures s[1..][i] != s[1..][j] {
      assert s[1..][i] == s[i + 1] && s[1..][j] == s[j + 1];
    }
    forall k | 0 <= k < |s[1..]| ensures s[1..][k] != s[0] {
      assert s[1..][k] == s[k + 1];
    }
  }

  lemma DistinctCons<T>(a: T, r: seq<T>)
    requires Distinct(r) && a !in r
    ensures Distinct([a] + r)
  {
    forall i, j | 0 <= i < j < |[a] + r| ensures ([a] + r)[i] != ([a] + r)[j] {
      assert ([a] + r)[j] == r[j - 1];
      if i > 0 {
        assert ([a] + r)[i] == r[i - 1];
      }
    }
  }
}
