/** Ascending lists of instants, and the ascending list of a set. */
module Sorting {

  predicate Increasing(s: seq<int>) {
    forall i, j :: 0 <= i < j < |s| ==> s[i] < s[j]
  }

  lemma HasElement(points: set<int>)
    requires points != {}
    ensures exists b :: b in points
  {
    if forall b :: b !in points {
      assert false;
    }
  }

  method Minimum(points: set<int>) returns (least: int)
    requires points != {}
    ensures least in points && forall b :: b in points ==> least <= b
  {
    HasElement(points);
    least :| least in points;
    var rest := points - {least};
    while rest != {}
      invariant least in points && rest <= points
      invariant forall b :: b in points && b !in rest ==> least <= b
      decreases |rest|
    {
      HasElement(rest);
      var b :| b in rest;
      if b < least { least := b; }
      rest := rest - {b};
    }
  }

  /** The collected set as an ascending list. */
  method SortAscending(points: set<int>) returns (sorted: seq<int>)
    ensures Increasing(sorted)
    ensures forall b :: b in sorted <==> b in points
  {
    sorted := [];
    var rest := points;
    while rest != {}
      invariant Increasing(sorted)
      invariant forall b :: b in points <==> b in sorted || b in rest
      invariant forall b, c :: b in sorted && c in rest ==> b < c
      decreases |rest|
    {
      var least := Minimum(rest);
      assert forall i :: 0 <= i < |sorted| ==> sorted[i] in sorted;
      sorted := sorted + [least];
      rest := rest - {least};
    }
  }
}
