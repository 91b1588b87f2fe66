/** Facts about finite sets and sequences, used throughout. */
module Collections {
  /** No element occurs twice. */
  predicate Distinct<T(==)>(s: seq<T>) {
    forall i, j :: 0 <= i < j < |s| ==> s[i] != s[j]
  }

  lemma UnionSize<T>(a: set<T>, b: set<T>)
    ensures |a + b| + |a * b| == |a| + |b|
  {
  }

  lemma SubsetSize<T>(a: set<T>, b: set<T>)
    requires a <= b
    ensures |a| <= |b|
    ensures a != b ==> |a| < |b|
  {
    assert b == a + (b - a);
    UnionSize(a, b - a);
    assert a * (b - a) == {};
  }

  /** Taking one more element away leaves fewer. */
  lemma Fewer<T>(all: set<T>, seen: set<T>, x: T)
    requires x in all && x !in seen
    ensures |all - (seen + {x})| < |all - seen|
  {
    assert all - seen == (all - (seen + {x})) + {x};
  }

  predicate Ascending(places: seq<nat>) {
    forall i, j :: 0 <= i < j < |places| ==> places[i] < places[j]
  }

  /** The places of the elements that are a hit, in order. */
  function PlacesOf<T>(s: seq<T>, hit: T -> bool): seq<nat> {
    if s == [] then []
    else PlacesOf(s[..|s| - 1], hit) + (if hit(s[|s| - 1]) then [|s| - 1] else [])
  }

  lemma AscendingSnoc(before: seq<nat>, k: nat)
    requires Ascending(before) && forall x :: x in before ==> x < k
    ensures Ascending(before + [k])
  {
    assert forall i :: 0 <= i < |before| ==> before[i] in before;
  }

  lemma AscendingCons(k: nat, after: seq<nat>)
    requires Ascending(after) && forall x :: x in after ==> x > k
    ensures Ascending([k] + after)
  {
    assert forall i :: 0 <= i < |after| ==> after[i] in after;
  }

  lemma {:induction false} PlacesAre<T>(s: seq<T>, hit: T -> bool)
    ensures Ascending(PlacesOf(s, hit))
    ensures forall k: nat :: k in PlacesOf(s, hit) <==> k < |s| && hit(s[k])
  {
    if s != [] {
      var last, before := |s| - 1, PlacesOf(s[..|s| - 1], hit);
      PlacesAre(s[..last], hit);
      AscendingSnoc(before, last);
      PlacesStep(s, hit);
      hide Ascending, PlacesOf;
      forall k: nat ensures k in PlacesOf(s, hit) <==> k < |s| && hit(s[k]) {
        assert k in PlacesOf(s, hit) <==> k in before || (k == last && hit(s[last]));
        assert k < last ==> s[..last][k] == s[k];
      }
    }
  }

  lemma PlacesStep<T>(s: seq<T>, hit: T -> bool)
    requires s != []
    ensures PlacesOf(s, hit)
            == if hit(s[|s| - 1]) then PlacesOf(s[..|s| - 1], hit) + [|s| - 1] else PlacesOf(s[..|s| - 1], hit)
  {
    hide Ascending;
  }
}
