/**
 * Choosing the classifier's top concept: `preds.sort((a, b) => b.value - a.value)[0]`
 * in screens/UploadandClassifyScreen.tsx. JavaScript's `Array.prototype.sort`
 * is stable, so the sort is modelled as a stable insertion sort by
 * descending confidence; `TopIndex` is the independent characterisation of
 * its head: the earliest concept of maximal confidence.
 */
module Ranking {

  import opened Common
  import opened MealTypes

  /** Descending by confidence. */
  predicate Descending(s: seq<Concept>)
  {
    forall i, j :: 0 <= i < j < |s| ==> s[i].value >= s[j].value
  }

  /**
   * Places `x` in front of the first element whose confidence is not
   * above its own; `x` stands for an element that came earlier in the
   * provider's order, so it goes before its ties.
   */
  function Insert(x: Concept, s: seq<Concept>): (r: seq<Concept>)
    ensures |r| == |s| + 1
    ensures multiset(r) == multiset(s) + multiset{x}
    ensures s == [] || s[0].value <= x.value ==> r[0] == x
    ensures s != [] && s[0].value > x.value ==> r[0] == s[0]
  {
    if s == [] then [x]
    else if s[0].value <= x.value then [x] + s
    else
      assert s == [s[0]] + s[1..];
      [s[0]] + Insert(x, s[1..])
  }

  /** Inserting into a descending sequence keeps it descending. */
  lemma {:induction false} InsertKeepsDescending(x: Concept, s: seq<Concept>)
    requires Descending(s)
    ensures Descending(Insert(x, s))
    decreases |s|
  {
    if s != [] && s[0].value > x.value {
      var rest := Insert(x, s[1..]);
      InsertKeepsDescending(x, s[1..]);
      assert s == [s[0]] + s[1..];
      forall k | 0 <= k < |rest|
        ensures rest[k].value <= s[0].value
      {
        assert rest[k] in multiset(rest);
        assert rest[k] in multiset(s[1..]) || rest[k] == x;
        if rest[k] in multiset(s[1..]) {
          var j :| 0 <= j < |s[1..]| && s[1..][j] == rest[k];
          assert s[j + 1] == rest[k];
        }
      }
      assert Insert(x, s) == [s[0]] + rest;
    }
  }

  /** The stable descending sort the screen applies to the classifier's concepts. */
  function SortByConfidence(ps: seq<Concept>): (r: seq<Concept>)
    ensures |r| == |ps|
    ensures multiset(r) == multiset(ps)
    ensures Descending(r)
  {
    if ps == [] then []
    else
      assert ps == [ps[0]] + ps[1..];
      InsertKeepsDescending(ps[0], SortByConfidence(ps[1..]));
      Insert(ps[0], SortByConfidence(ps[1..]))
  }

  /** Index of the earliest concept whose confidence is maximal. */
  function TopIndex(ps: seq<Concept>): (k: nat)
    requires |ps| > 0
    ensures k < |ps|
    ensures forall j :: 0 <= j < |ps| ==> ps[j].value <= ps[k].value
    ensures forall j :: 0 <= j < k ==> ps[j].value < ps[k].value
  {
    if |ps| == 1 then 0
    else
      var t := TopIndex(ps[1..]) + 1;
      if ps[0].value >= ps[t].value then 0 else t
  }

  /** The head of the stable sort is the earliest maximal concept. */
  lemma {:induction false} SortHeadIsTop(ps: seq<Concept>)
    requires |ps| > 0
    ensures SortByConfidence(ps)[0] == ps[TopIndex(ps)]
    decreases |ps|
  {
    if |ps| > 1 {
      SortHeadIsTop(ps[1..]);
    }
  }

  /** `sort(...)[0]`: the top concept, or `undefined` for an empty list. */
  function Top(ps: seq<Concept>): (r: Option<Concept>)
    ensures r.None? <==> ps == []
    ensures r.Some? ==> r.value == ps[TopIndex(ps)]
    ensures r.Some? ==> r.value in ps
    ensures r.Some? ==> forall j :: 0 <= j < |ps| ==> ps[j].value <= r.value.value
    ensures r.Some? ==> exists k :: 0 <= k < |ps| && ps[k] == r.value
                                    && forall j :: 0 <= j < k ==> ps[j].value < r.value.value
  {
    if ps == [] then None
    else
      SortHeadIsTop(ps);
      Some(SortByConfidence(ps)[0])
  }

  /** Two concepts tied at 0.9, "A" then "B": the first one wins. */
  lemma TieGoesToFirst()
    ensures Top([Concept("a", "A", 0.9), Concept("b", "B", 0.9)]) == Some(Concept("a", "A", 0.9))
  {
  }
}
