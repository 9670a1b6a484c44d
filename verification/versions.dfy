/** Versions are opaque strings; their order is supplied from outside as a
    comparator (the repository's `VersionMatcher.COMPARATOR`, whose internals
    are not part of this model). */
module Versions {

  type Version = string

  /** `older(a, b)` holds when version `a` sorts strictly before version `b`. */
  type Comparator = (Version, Version) -> bool

  /** The comparator is a strict total order: irreflexive, transitive, and
      any two distinct versions are comparable. */
  ghost predicate StrictTotalOrder(older: Comparator) {
    && (forall a :: !older(a, a))
    && (forall a, b, c :: older(a, b) && older(b, c) ==> older(a, c))
    && (forall a, b :: a != b ==> older(a, b) || older(b, a))
  }

  /** `v` is one of `vs` and no element of `vs` sorts after it. */
  ghost predicate IsGreatest(older: Comparator, v: Version, vs: set<Version>) {
    v in vs && forall w :: w in vs ==> w == v || older(w, v)
  }

  /** The greatest version of a non-empty list: what sorting the list in
      reverse comparator order and taking the first element yields. */
  function MaxOf(older: Comparator, vs: seq<Version>): (v: Version)
    requires StrictTotalOrder(older)
    requires |vs| > 0
    ensures IsGreatest(older, v, set w | w in vs)
    decreases |vs|
  {
    if |vs| == 1 then vs[0]
    else
      var m := MaxOf(older, vs[..|vs| - 1]);
      assert forall w :: w in vs ==> w in vs[..|vs| - 1] || w == vs[|vs| - 1];
      if older(m, vs[|vs| - 1]) then vs[|vs| - 1] else m
  }

  /** Under a strict total order a set has at most one greatest element, so
      the choice does not depend on the order the candidates were met in. */
  lemma GreatestIsUnique(older: Comparator, a: Version, b: Version, vs: set<Version>)
    requires StrictTotalOrder(older)
    requires IsGreatest(older, a, vs) && IsGreatest(older, b, vs)
    ensures a == b
  {
  }
}
