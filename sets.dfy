/** Cardinality facts about finite sets used by the counting operations. */
module SetLemmas {

  /** A set mapped one-to-one into another set is no larger than it. */
  lemma {:induction false} InjectionCard<A, B>(s: set<A>, t: set<B>, f: A -> B)
    requires forall a :: a in s ==> f(a) in t
    requires forall a, b :: a in s && b in s && f(a) == f(b) ==> a == b
    ensures |s| <= |t|
  {
    if s != {} {
      var a :| a in s;
      InjectionCard(s - {a}, t - {f(a)}, f);
    }
  }

  /** A subset is no larger than its superset. */
  lemma SubsetCard<A>(s: set<A>, t: set<A>)
    requires s <= t
    ensures |s| <= |t|
  {
    InjectionCard(s, t, x => x);
  }

  /** Two disjoint subsets together are no larger than the set they are taken from. */
  lemma DisjointSubsetsCard<A>(s: set<A>, t: set<A>, u: set<A>)
    requires s <= u && t <= u && s !! t
    ensures |s| + |t| <= |u|
  {
    assert |s + t| == |s| + |t|;
    SubsetCard(s + t, u);
  }
}
