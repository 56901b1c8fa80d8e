/** Sums of integer measures over finite sets. */
module Sums {

  ghost function Sum<T(!new)>(items: set<T>, f: map<T, int>): int
    requires items <= f.Keys
  {
    if items == {} then 0
    else
      var x :| x in items;
      f[x] + Sum(items - {x}, f)
  }

  /** Any element may be summed first. */
  lemma {:induction false} SumExtract<T(!new)>(items: set<T>, f: map<T, int>, y: T)
    requires items <= f.Keys && y in items
    ensures Sum(items, f) == f[y] + Sum(items - {y}, f)
    decreases |items|
  {
    var x :| x in items && Sum(items, f) == f[x] + Sum(items - {x}, f);
    if x != y {
      SumExtract(items - {x}, f, y);
      SumExtract(items - {y}, f, x);
      assert items - {x} - {y} == items - {y} - {x};
    }
  }

  lemma {:induction false} SumLeq<T(!new)>(items: set<T>, f: map<T, int>, g: map<T, int>)
    requires items <= f.Keys && items <= g.Keys
    requires forall x :: x in items ==> f[x] <= g[x]
    ensures Sum(items, f) <= Sum(items, g)
    decreases |items|
  {
    if items != {} {
      var x :| x in items;
      SumExtract(items, f, x);
      SumExtract(items, g, x);
      SumLeq(items - {x}, f, g);
    }
  }

  lemma SumShift<T(!new)>(items: set<T>, f: map<T, int>, g: map<T, int>, y: T, k: int)
    requires items <= f.Keys && items <= g.Keys && y in items
    requires forall x :: x in items && x != y ==> g[x] <= f[x]
    requires g[y] <= f[y] + k
    ensures Sum(items, g) <= Sum(items, f) + k
  {
    SumExtract(items, f, y);
    SumExtract(items, g, y);
    SumLeq(items - {y}, g, f);
  }

  lemma {:induction false} SumNonNegative<T(!new)>(items: set<T>, f: map<T, int>)
    requires items <= f.Keys
    requires forall x :: x in items ==> f[x] >= 0
    ensures Sum(items, f) >= 0
    decreases |items|
  {
    if items != {} {
      var x :| x in items;
      SumExtract(items, f, x);
      SumNonNegative(items - {x}, f);
    }
  }

  lemma SumZero<T(!new)>(items: set<T>, f: map<T, int>)
    requires items <= f.Keys && Sum(items, f) <= 0
    requires forall x :: x in items ==> f[x] >= 0
    ensures forall x :: x in items ==> f[x] == 0
  {
    forall x | x in items ensures f[x] == 0 {
      SumExtract(items, f, x);
      SumNonNegative(items - {x}, f);
    }
  }

  lemma {:induction false} SumSame<T(!new)>(items: set<T>, f: map<T, int>, g: map<T, int>)
    requires items <= f.Keys && items <= g.Keys
    requires forall x :: x in items ==> f[x] == g[x]
    ensures Sum(items, f) == Sum(items, g)
  {
    SumLeq(items, f, g);
    SumLeq(items, g, f);
  }

  lemma SumBump<T(!new)>(items: set<T>, f: map<T, int>, g: map<T, int>, y: T)
    requires items <= f.Keys && items <= g.Keys && y in items
    requires forall x :: x in items && x != y ==> f[x] == g[x]
    ensures Sum(items, g) == Sum(items, f) + g[y] - f[y]
  {
    SumExtract(items, f, y);
    SumExtract(items, g, y);
    SumSame(items - {y}, f, g);
  }

  lemma {:induction false} SumOfZeros<T(!new)>(items: set<T>, f: map<T, int>)
    requires items <= f.Keys && forall x :: x in items ==> f[x] == 0
    ensures Sum(items, f) == 0
    decreases |items|
  {
    if items != {} {
      var x :| x in items;
      SumExtract(items, f, x);
      SumOfZeros(items - {x}, f);
    }
  }
}
