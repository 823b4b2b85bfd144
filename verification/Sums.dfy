/** Sums of a measure over the elements of a finite set. */
module Sums {

  ghost function Sum<T(!new)>(s: set<T>, f: T -> nat): nat {
    if s == {} then
      0
    else
      var x :| x in s;
      f(x) + Sum(s - {x}, f)
  }

  lemma {:induction false} SumRemove<T(!new)>(s: set<T>, f: T -> nat, a: T)
    requires a in s
    ensures Sum(s, f) == f(a) + Sum(s - {a}, f)
    decreases s
  {
    var x :| x in s && Sum(s, f) == f(x) + Sum(s - {x}, f);
    if x != a {
      SumRemove(s - {x}, f, a);
      assert s - {x} - {a} == s - {a} - {x};
      SumRemove(s - {a}, f, x);
    }
  }

  lemma {:induction false} SumCongruent<T(!new)>(s: set<T>, f: T -> nat, g: T -> nat)
    requires forall x :: x in s ==> f(x) == g(x)
    ensures Sum(s, f) == Sum(s, g)
    decreases s
  {
    if s != {} {
      var x :| x in s;
      SumCongruent(s - {x}, f, g);
      SumRemove(s, f, x);
      SumRemove(s, g, x);
    }
  }

  /** When only one summand changes, the sum changes by as much. */
  lemma SumUpdate<T(!new)>(s: set<T>, f: T -> nat, g: T -> nat, a: T)
    requires a in s
    requires forall x :: x in s && x != a ==> f(x) == g(x)
    ensures Sum(s, g) + f(a) == Sum(s, f) + g(a)
  {
    SumRemove(s, f, a);
    SumRemove(s, g, a);
    SumCongruent(s - {a}, f, g);
  }
}
