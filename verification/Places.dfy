/** Places in a sequence: what a filter takes, said by position. */
module Places {
  import opened Lists

  ghost predicate Ascending(places: seq<nat>) {
    forall j, k :: 0 <= j < k < |places| ==> places[j] < places[k]
  }

  /** The places of exactly the elements that satisfy p, in ascending order. */
  ghost predicate Picks<T(!new)>(s: seq<T>, p: T -> bool, places: seq<nat>) {
    && Ascending(places)
    && (forall k :: 0 <= k < |places| ==> places[k] < |s| && p(s[places[k]]))
    && (forall i :: 0 <= i < |s| && p(s[i]) ==> i in places)
  }

  /** The elements at these places. */
  function At<T>(s: seq<T>, places: seq<nat>): seq<T>
    requires forall k :: 0 <= k < |places| ==> places[k] < |s|
  {
    seq(|places|, k requires 0 <= k < |places| => s[places[k]])
  }

  function PlacesOf<T(!new)>(s: seq<T>, p: T -> bool): (places: seq<nat>)
    ensures Picks(s, p, places)
  {
    if s == [] then []
    else
      var n := |s| - 1;
      PlacesOf(s[..n], p) + if p(s[n]) then [n] else []
  }

  lemma PicksInit<T(!new)>(s: seq<T>, p: T -> bool, places: seq<nat>)
    requires s != [] && Picks(s, p, places)
    ensures var n := |s| - 1;
            if p(s[n]) then places != [] && places[|places| - 1] == n && Picks(s[..n], p, places[..|places| - 1])
            else Picks(s[..n], p, places)
  {
    var n := |s| - 1;
    if p(s[n]) {
      var k :| 0 <= k < |places| && places[k] == n;
      assert places[|places| - 1] >= places[k];
      assert places == places[..|places| - 1] + [n];
    }
  }

  lemma PicksWithin<T(!new)>(s: seq<T>, p: T -> bool, places: seq<nat>)
    requires Picks(s, p, places)
    ensures |places| > 0 ==> |s| > 0
  {
    if |places| > 0 {
      assert places[0] < |s|;
    }
  }

  lemma PicksNothing<T(!new)>(p: T -> bool, places: seq<nat>)
    requires Picks([], p, places)
    ensures places == []
  {
    PicksWithin([], p, places);
  }

  lemma AtInit<T>(s: seq<T>, places: seq<nat>)
    requires s != [] && places != [] && places[|places| - 1] == |s| - 1
    requires forall k :: 0 <= k < |places| ==> places[k] < |s|
    requires forall k :: 0 <= k < |places| - 1 ==> places[k] < |s| - 1
    ensures At(s, places) == At(s[..|s| - 1], places[..|places| - 1]) + [s[|s| - 1]]
  {
  }

  /** Filtering takes the elements at the places that qualify, in order: all of them and no others. */
  lemma {:induction false} FilterTakesPlaces<T(!new)>(s: seq<T>, p: T -> bool, places: seq<nat>)
    requires Picks(s, p, places)
    ensures Filter(s, p) == At(s, places)
  {
    if s != [] {
      var n := |s| - 1;
      PicksInit(s, p, places);
      if p(s[n]) {
        FilterTakesPlaces(s[..n], p, places[..|places| - 1]);
        AtInit(s, places);
      } else {
        FilterTakesPlaces(s[..n], p, places);
        assert At(s, places) == At(s[..n], places);
      }
    }
  }
}
