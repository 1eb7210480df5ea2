/** Sums over finite sets. */
module Sums {
  ghost function Sum<T(!new)>(s: set<T>, g: T -> nat): nat {
    if s == {} then 0
    else
      var x :| x in s;
      g(x) + Sum(s - {x}, g)
  }

  lemma {:induction false} SumWithout<T(!new)>(s: set<T>, g: T -> nat, x: T)
    requires x in s
    ensures Sum(s, g) == g(x) + Sum(s - {x}, g)
    decreases |s|
  {
    var y :| y in s && Sum(s, g) == g(y) + Sum(s - {y}, g);
    if y != x {
      SumWithout(s - {y}, g, x);
      SumWithout(s - {x}, g, y);
      assert s - {y} - {x} == s - {x} - {y};
    }
  }

  lemma {:induction false} SumDisjoint<T(!new)>(a: set<T>, b: set<T>, g: T -> nat)
    requires a !! b
    ensures Sum(a + b, g) == Sum(a, g) + Sum(b, g)
    decreases |a|
  {
    if a == {} {
      assert a + b == b;
    } else {
      var x :| x in a;
      SumDisjoint(a - {x}, b, g);
      SumWithout(a, g, x);
      SumWithout(a + b, g, x);
      assert (a + b) - {x} == (a - {x}) + b;
    }
  }

  lemma SumSubset<T(!new)>(a: set<T>, b: set<T>, g: T -> nat)
    requires a <= b
    ensures Sum(b, g) == Sum(a, g) + Sum(b - a, g)
  {
    SumDisjoint(a, b - a, g);
    assert a + (b - a) == b;
  }

  lemma SumUnion<T(!new)>(a: set<T>, b: set<T>, g: T -> nat)
    ensures Sum(a + b, g) <= Sum(a, g) + Sum(b, g)
  {
    SumDisjoint(a, b - a, g);
    assert a + (b - a) == a + b;
    SumSubset(b - a, b, g);
  }

  lemma {:induction false} SumAtMost<T(!new)>(s: set<T>, g: T -> nat, h: T -> nat)
    requires forall x | x in s :: g(x) <= h(x)
    ensures Sum(s, g) <= Sum(s, h)
    decreases |s|
  {
    if s != {} {
      var x :| x in s;
      SumWithout(s, g, x);
      SumWithout(s, h, x);
      SumAtMost(s - {x}, g, h);
    }
  }

  lemma {:induction false} SumBound<T(!new)>(s: set<T>, g: T -> nat, most: nat)
    requires forall x | x in s :: g(x) <= most
    ensures Sum(s, g) <= most * |s|
    decreases |s|
  {
    if s != {} {
      var x :| x in s;
      SumWithout(s, g, x);
      SumBound(s - {x}, g, most);
      OneMore(most, |s - {x}|);
    }
  }

  lemma OneMore(most: nat, n: nat)
    ensures most * (n + 1) == most * n + most
  {
  }

  lemma {:induction false} SumScales<T(!new)>(s: set<T>, g: T -> nat, h: T -> nat, k: nat)
    requires forall x | x in s :: h(x) == g(x) * k
    ensures Sum(s, h) == Sum(s, g) * k
    decreases |s|
  {
    if s != {} {
      var x :| x in s;
      SumWithout(s, g, x);
      SumWithout(s, h, x);
      SumScales(s - {x}, g, h, k);
      assert (g(x) + Sum(s - {x}, g)) * k == g(x) * k + Sum(s - {x}, g) * k;
    }
  }
}
