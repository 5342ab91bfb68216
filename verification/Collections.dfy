/** Sums and filters over sequences, in the form the table invariants need. */
module Collections {

  datatype Option<+T> = None | Some(value: T)

  /** The sum of `f` over the rows of `s`. */
  function Sum<T>(s: seq<T>, f: T -> int): int {
    if s == [] then 0 else Sum(s[..|s| - 1], f) + f(s[|s| - 1])
  }

  lemma {:induction false} SumAppend<T>(s: seq<T>, x: T, f: T -> int)
    ensures Sum(s + [x], f) == Sum(s, f) + f(x)
  {
    assert (s + [x])[..|s|] == s;
  }

  lemma {:induction false} SumUpdate<T>(s: seq<T>, i: nat, x: T, f: T -> int)
    requires i < |s|
    ensures Sum(s[i := x], f) == Sum(s, f) - f(s[i]) + f(x)
  {
    var last := |s| - 1;
    if i == last {
      assert s[i := x][..last] == s[..last];
    } else {
      SumUpdate(s[..last], i, x, f);
      assert s[i := x][..last] == s[..last][i := x];
    }
  }

  /** Two tables whose rows contribute the same have the same total. */
  lemma {:induction false} SumCongruent<T, U>(s: seq<T>, t: seq<U>, f: T -> int, g: U -> int)
    requires |s| == |t| && forall i :: 0 <= i < |s| ==> f(s[i]) == g(t[i])
    ensures Sum(s, f) == Sum(t, g)
  {
    if s != [] {
      SumCongruent(s[..|s| - 1], t[..|s| - 1], f, g);
    }
  }

  /** Rows added at the end that contribute nothing leave the total as it was. */
  lemma {:induction false} SumTail<T>(s: seq<T>, t: seq<T>, f: T -> int)
    requires |s| <= |t|
    requires forall i :: 0 <= i < |s| ==> f(s[i]) == f(t[i])
    requires forall i :: |s| <= i < |t| ==> f(t[i]) == 0
    ensures Sum(s, f) == Sum(t, f)
  {
    if |s| < |t| {
      SumTail(s, t[..|t| - 1], f);
    } else if s != [] {
      SumTail(s[..|s| - 1], t[..|t| - 1], f);
    }
  }

  lemma {:induction false} SumAtMost<T>(s: seq<T>, f: T -> int, g: T -> int)
    requires forall i :: 0 <= i < |s| ==> f(s[i]) <= g(s[i])
    ensures Sum(s, f) <= Sum(s, g)
  {
    if s != [] {
      SumAtMost(s[..|s| - 1], f, g);
    }
  }

  lemma {:induction false} SumShrinks<T>(s: seq<T>, t: seq<T>, f: T -> int)
    requires |s| == |t| && forall i :: 0 <= i < |s| ==> f(t[i]) <= f(s[i])
    ensures Sum(t, f) <= Sum(s, f)
  {
    if s != [] {
      SumShrinks(s[..|s| - 1], t[..|t| - 1], f);
    }
  }

  lemma {:induction false} SumZero<T>(s: seq<T>, f: T -> int)
    requires forall i :: 0 <= i < |s| ==> f(s[i]) == 0
    ensures Sum(s, f) == 0
  {
    if s != [] {
      SumZero(s[..|s| - 1], f);
    }
  }

  lemma {:induction false} SumNonNegative<T>(s: seq<T>, f: T -> int)
    requires forall i :: 0 <= i < |s| ==> 0 <= f(s[i])
    ensures 0 <= Sum(s, f)
  {
    if s != [] {
      SumNonNegative(s[..|s| - 1], f);
    }
  }

  /** A total of non-negative contributions is zero only if each of them is. */
  lemma {:induction false} SumZeroMeansAllZero<T>(s: seq<T>, f: T -> int, i: nat)
    requires forall j :: 0 <= j < |s| ==> 0 <= f(s[j])
    requires Sum(s, f) == 0 && i < |s|
    ensures f(s[i]) == 0
  {
    SumNonNegative(s[..|s| - 1], f);
    if i < |s| - 1 {
      SumZeroMeansAllZero(s[..|s| - 1], f, i);
    }
  }

  /** The rows of `s` that satisfy `p`, in table order. */
  function Filter<T>(s: seq<T>, p: T -> bool): (r: seq<T>)
    ensures |r| <= |s|
  {
    if s == [] then []
    else
      var front, last := Filter(s[..|s| - 1], p), s[|s| - 1];
      if p(last) then front + [last] else front
  }

  lemma {:induction false} FilterMembers<T>(s: seq<T>, p: T -> bool)
    ensures forall x :: x in Filter(s, p) <==> x in s && p(x)
  {
    if s != [] {
      var front, last := s[..|s| - 1], s[|s| - 1];
      FilterMembers(front, p);
      forall x
        ensures x in Filter(s, p) <==> x in s && p(x)
      {
        assert x in s <==> x in front || x == last;
      }
    }
  }

  /** A filter drops something exactly when some row fails it. */
  lemma {:induction false} FilterShortens<T>(s: seq<T>, p: T -> bool)
    ensures |Filter(s, p)| < |s| <==> exists x :: x in s && !p(x)
  {
    if s != [] {
      var front, last := s[..|s| - 1], s[|s| - 1];
      FilterShortens(front, p);
      assert forall x :: x in s <==> x in front || x == last;
    }
  }

  lemma {:induction false} FilterAppend<T>(s: seq<T>, x: T, p: T -> bool)
    ensures Filter(s + [x], p) == if p(x) then Filter(s, p) + [x] else Filter(s, p)
  {
    assert (s + [x])[..|s|] == s;
  }

  lemma {:induction false} FilterCommutes<T>(s: seq<T>, p: T -> bool, q: T -> bool)
    ensures Filter(Filter(s, p), q) == Filter(Filter(s, q), p)
  {
    if s != [] {
      var front, last := s[..|s| - 1], s[|s| - 1];
      FilterCommutes(front, p, q);
      if p(last) {
        FilterAppend(Filter(front, p), last, q);
      }
      if q(last) {
        FilterAppend(Filter(front, q), last, p);
      }
    }
  }

  lemma {:induction false} FilterCongruent<T>(s: seq<T>, p: T -> bool, q: T -> bool)
    requires forall i :: 0 <= i < |s| ==> p(s[i]) == q(s[i])
    ensures Filter(s, p) == Filter(s, q)
  {
    if s != [] {
      FilterCongruent(s[..|s| - 1], p, q);
    }
  }

  lemma SubsetCount<T>(a: set<T>, b: set<T>)
    requires a <= b
    ensures |a| <= |b|
  {
    assert b == a + (b - a);
  }

  function Iterate<S>(f: S -> S, s: S, n: nat): S
    decreases n
  {
    if n == 0 then s else Iterate(f, f(s), n - 1)
  }

  lemma {:induction false} IterateFixed<S>(f: S -> S, s: S, n: nat)
    requires f(s) == s
    ensures Iterate(f, s, n) == s
    decreases n
  {
    if n > 0 {
      IterateFixed(f, s, n - 1);
    }
  }

  lemma IterateLast<S>(f: S -> S, s: S, n: nat)
    requires n > 0 && f(f(s)) == f(s)
    ensures Iterate(f, s, n) == f(s)
  {
    IterateFixed(f, f(s), n - 1);
  }

  lemma IterateNext<S>(f: S -> S, s: S, n: nat)
    requires n > 0
    ensures Iterate(f, s, n) == Iterate(f, f(s), n - 1)
  {
  }

  /** The state after the actions of a run, the last one last. */
  function Fold<S, A>(step: (S, A) -> S, s: S, actions: seq<A>): S {
    if actions == [] then s
    else step(Fold(step, s, actions[..|actions| - 1]), actions[|actions| - 1])
  }

  lemma {:induction false} FoldAppend<S, A>(step: (S, A) -> S, s: S, first: seq<A>, second: seq<A>)
    ensures Fold(step, s, first + second) == Fold(step, Fold(step, s, first), second)
  {
    if second == [] {
      assert first + second == first;
    } else {
      var front := second[..|second| - 1];
      assert (first + second)[..|first + second| - 1] == first + front;
      FoldAppend(step, s, first, front);
    }
  }

  /** The actions `next` chooses in `n` successive states. */
  function Unroll<S, A>(step: (S, A) -> S, next: S -> A, s: S, n: nat): seq<A>
    decreases n
  {
    if n == 0 then [] else [next(s)] + Unroll(step, next, step(s, next(s)), n - 1)
  }

  lemma {:induction false} IterateIsFold<S(!new), A>(step: (S, A) -> S, next: S -> A, f: S -> S, s: S, n: nat)
    requires forall x :: f(x) == step(x, next(x))
    ensures Iterate(f, s, n) == Fold(step, s, Unroll(step, next, s, n))
    decreases n
  {
    if n > 0 {
      var a, s' := next(s), step(s, next(s));
      IterateIsFold(step, next, f, s', n - 1);
      assert [a][..0] == [];
      assert Fold(step, s, [a]) == s';
      FoldAppend(step, s, [a], Unroll(step, next, s', n - 1));
    }
  }
}
