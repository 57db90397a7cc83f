/**
  The stable descending sort both backends and the UI use: Python's
  `sorted(..., reverse=True)` / `list.sort(..., reverse=True)` and a stable
  `Array.prototype.sort` with a `b - a` comparator, for any comparison that
  is a total preorder.
*/
module Sorting {
  /** A comparison that is total and transitive. */
  ghost predicate TotalPreorder<T(!new)>(le: (T, T) -> bool) {
    && (forall a, b :: le(a, b) || le(b, a))
    && (forall a, b, c :: le(a, b) && le(b, c) ==> le(a, c))
  }

  predicate Descending<T>(s: seq<T>, le: (T, T) -> bool) {
    forall i, j :: 0 <= i < j < |s| ==> le(s[j], s[i])
  }

  /** `x` placed before the first element that does not exceed it. */
  function InsertDesc<T>(x: T, s: seq<T>, le: (T, T) -> bool): seq<T> {
    if s == [] || le(s[0], x) then [x] + s else [s[0]] + InsertDesc(x, s[1..], le)
  }

  /** A stable sort, greatest first. */
  function SortDesc<T>(s: seq<T>, le: (T, T) -> bool): seq<T> {
    if s == [] then [] else InsertDesc(s[0], SortDesc(s[1..], le), le)
  }

  /** The elements of `s` ranked equal to `e`, in order. */
  function Equivalents<T>(s: seq<T>, e: T, le: (T, T) -> bool): seq<T> {
    if s == [] then []
    else (if le(s[0], e) && le(e, s[0]) then [s[0]] else []) + Equivalents(s[1..], e, le)
  }

  lemma {:induction false} InsertDescPerm<T>(x: T, s: seq<T>, le: (T, T) -> bool)
    ensures multiset(InsertDesc(x, s, le)) == multiset(s) + multiset{x}
  {
    if s != [] && !le(s[0], x) {
      InsertDescPerm(x, s[1..], le);
      assert s == [s[0]] + s[1..];
    }
  }

  lemma InsertDescFrom<T>(x: T, s: seq<T>, le: (T, T) -> bool, k: nat)
    requires k < |InsertDesc(x, s, le)|
    ensures InsertDesc(x, s, le)[k] == x || InsertDesc(x, s, le)[k] in s
  {
    InsertDescPerm(x, s, le);
    assert InsertDesc(x, s, le)[k] in multiset(InsertDesc(x, s, le));
  }

  lemma {:induction false} InsertDescSorted<T(!new)>(x: T, s: seq<T>, le: (T, T) -> bool)
    requires TotalPreorder(le) && Descending(s, le)
    ensures Descending(InsertDesc(x, s, le), le)
  {
    if s != [] && !le(s[0], x) {
      InsertDescSorted(x, s[1..], le);
      var r := InsertDesc(x, s[1..], le);
      forall k | 0 <= k < |r| ensures le(r[k], s[0]) {
        InsertDescFrom(x, s[1..], le, k);
      }
      assert InsertDesc(x, s, le) == [s[0]] + r;
    } else if s != [] {
      forall i, j | 0 <= i < j < |s| + 1 ensures le(([x] + s)[j], ([x] + s)[i]) {
        if i == 0 && j > 1 {
          assert le(s[j - 1], s[0]);
        }
      }
    }
  }

  lemma {:induction false} InsertDescStable<T(!new)>(x: T, s: seq<T>, e: T, le: (T, T) -> bool)
    requires TotalPreorder(le)
    ensures Equivalents(InsertDesc(x, s, le), e, le) == (if le(x, e) && le(e, x) then [x] else []) + Equivalents(s, e, le)
  {
    if s == [] || le(s[0], x) {
      assert ([x] + s)[1..] == s;
    } else {
      var r := InsertDesc(x, s[1..], le);
      var rest := Equivalents(s[1..], e, le);
      var ex := if le(x, e) && le(e, x) then [x] else [];
      var es := if le(s[0], e) && le(e, s[0]) then [s[0]] else [];
      InsertDescStable(x, s[1..], e, le);
      assert Equivalents(InsertDesc(x, s, le), e, le) == es + Equivalents(r, e, le) by {
        assert ([s[0]] + r)[1..] == r;
      }
      assert ex == [] || es == [];
      SwapEmpty(es, ex, rest);
    }
  }

  /** Two parts of which one is empty can be listed in either order. */
  lemma SwapEmpty<T>(a: seq<T>, b: seq<T>, c: seq<T>)
    requires a == [] || b == []
    ensures a + (b + c) == b + (a + c)
  {
    if a == [] {
      assert a + (b + c) == b + c;
    } else {
      assert b + (a + c) == a + c;
    }
  }

  /** `SortDesc` orders greatest first. */
  lemma {:induction false} SortDescSorted<T(!new)>(s: seq<T>, le: (T, T) -> bool)
    requires TotalPreorder(le)
    ensures Descending(SortDesc(s, le), le)
  {
    if s != [] {
      SortDescSorted(s[1..], le);
      InsertDescSorted(s[0], SortDesc(s[1..], le), le);
    }
  }

  /** `SortDesc` keeps every element with its multiplicity. */
  lemma {:induction false} SortDescPerm<T>(s: seq<T>, le: (T, T) -> bool)
    ensures multiset(SortDesc(s, le)) == multiset(s)
  {
    if s != [] {
      SortDescPerm(s[1..], le);
      InsertDescPerm(s[0], SortDesc(s[1..], le), le);
      assert s == [s[0]] + s[1..];
    }
  }

  /** `SortDesc` keeps the input order of the elements ranked equal to any `e`. */
  lemma {:induction false} SortDescStable<T(!new)>(s: seq<T>, e: T, le: (T, T) -> bool)
    requires TotalPreorder(le)
    ensures Equivalents(SortDesc(s, le), e, le) == Equivalents(s, e, le)
  {
    if s != [] {
      SortDescStable(s[1..], e, le);
      InsertDescStable(s[0], SortDesc(s[1..], le), e, le);
    }
  }

}
