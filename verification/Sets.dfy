/** Sizes of sets, for the measures of work lists. */
module Sets {

  lemma {:induction false} Subset<T>(a: set<T>, b: set<T>)
    requires a <= b
    ensures |a| <= |b|
  {
    if x :| x in a {
      Subset(a - {x}, b - {x});
    }
  }

  /** What is left of `all` shrinks as more is taken away. */
  lemma Fewer<T>(all: set<T>, a: set<T>, b: set<T>)
    requires a <= b
    ensures |all - b| <= |all - a|
    ensures (exists x :: x in b && x in all && x !in a) ==> |all - b| < |all - a|
  {
    Subset(all - b, all - a);
    if x :| x in b && x in all && x !in a {
      Subset(all - b, all - a - {x});
    }
  }
}
