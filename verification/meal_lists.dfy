/**
 * The three list rewrites the meal store performs on its in-memory list:
 * `meals.map(m => m.id === meal.id ? meal : m)`,
 * `meals.filter(m => m.id !== id)` and `meals.find(m => m.id === id)`
 * (app/context/MealsContext.tsx and screens/UploadandClassifyScreen.tsx).
 */
module MealLists {

  import opened Common
  import opened MealTypes

  /** True when some meal of `ms` carries the identifier `id`. */
  predicate HasId(ms: seq<Meal>, id: string)
  {
    exists i :: 0 <= i < |ms| && ms[i].id == id
  }

  /**
   * Whole-record replacement by identifier: every meal whose id equals
   * `m.id` becomes `m`, every other meal stays where it was.
   */
  function ReplaceById(ms: seq<Meal>, m: Meal): (r: seq<Meal>)
    ensures |r| == |ms|
    ensures forall i :: 0 <= i < |ms| && ms[i].id == m.id ==> r[i] == m
    ensures forall i :: 0 <= i < |ms| && ms[i].id != m.id ==> r[i] == ms[i]
  {
    if ms == [] then []
    else [if ms[0].id == m.id then m else ms[0]] + ReplaceById(ms[1..], m)
  }

  /** Replacing never changes the sequence of identifiers. */
  lemma ReplaceKeepsIds(ms: seq<Meal>, m: Meal)
    ensures forall i :: 0 <= i < |ms| ==> ReplaceById(ms, m)[i].id == ms[i].id
  {
  }

  /** With no meal carrying `m.id`, the list is unchanged and nothing is appended. */
  lemma ReplaceAbsentIsIdentity(ms: seq<Meal>, m: Meal)
    requires !HasId(ms, m.id)
    ensures ReplaceById(ms, m) == ms
  {
  }

  /** `m` occurs in the result exactly when it replaced something, or was already there. */
  lemma ReplaceContains(ms: seq<Meal>, m: Meal)
    ensures m in ReplaceById(ms, m) <==> HasId(ms, m.id)
  {
  }

  /** Replacing twice with the same meal is the same as replacing once. */
  lemma ReplaceIdempotent(ms: seq<Meal>, m: Meal)
    ensures ReplaceById(ReplaceById(ms, m), m) == ReplaceById(ms, m)
  {
  }

  /** Keeps, in order, the meals whose id differs from `id`. */
  function RemoveById(ms: seq<Meal>, id: string): (r: seq<Meal>)
    ensures |r| <= |ms|
    ensures forall x :: x in r <==> x in ms && x.id != id
    ensures !HasId(r, id)
  {
    if ms == [] then []
    else if ms[0].id == id then RemoveById(ms[1..], id)
    else [ms[0]] + RemoveById(ms[1..], id)
  }

  /** Filtering distributes over concatenation, which is what fixes the relative order. */
  lemma {:induction false} RemoveDistributes(a: seq<Meal>, b: seq<Meal>, id: string)
    ensures RemoveById(a + b, id) == RemoveById(a, id) + RemoveById(b, id)
    decreases |a|
  {
    if a == [] {
      assert a + b == b;
    } else {
      assert (a + b)[0] == a[0];
      assert (a + b)[1..] == a[1..] + b;
      RemoveDistributes(a[1..], b, id);
    }
  }

  /** With no meal carrying `id`, the filter keeps everything. */
  lemma {:induction false} RemoveAbsentIsIdentity(ms: seq<Meal>, id: string)
    requires !HasId(ms, id)
    ensures RemoveById(ms, id) == ms
    decreases |ms|
  {
    if ms != [] {
      assert ms[0].id != id;
      RemoveAbsentIsIdentity(ms[1..], id);
    }
  }

  /**
   * Two surviving meals keep their relative order: if `ms[i]` comes
   * before `ms[j]` and neither is removed, the result holds them at
   * positions `p < q`.
   */
  lemma RemoveKeepsOrder(ms: seq<Meal>, id: string, i: nat, j: nat)
    requires i < j < |ms|
    requires ms[i].id != id && ms[j].id != id
    ensures exists p, q :: 0 <= p < q < |RemoveById(ms, id)|
                           && RemoveById(ms, id)[p] == ms[i]
                           && RemoveById(ms, id)[q] == ms[j]
  {
    var a, x, b, y, c := ms[..i], ms[i], ms[i + 1..j], ms[j], ms[j + 1..];
    assert ms == a + ([x] + (b + ([y] + c)));
    RemoveDistributes(a, [x] + (b + ([y] + c)), id);
    RemoveDistributes([x], b + ([y] + c), id);
    RemoveDistributes(b, [y] + c, id);
    RemoveDistributes([y], c, id);
    assert RemoveById([x], id) == [x] by {
      assert [x][1..] == [];
    }
    assert RemoveById([y], id) == [y] by {
      assert [y][1..] == [];
    }
    var ra, rb, rc := RemoveById(a, id), RemoveById(b, id), RemoveById(c, id);
    var r := RemoveById(ms, id);
    assert r == ra + ([x] + (rb + ([y] + rc)));
    var p, q := |ra|, |ra| + 1 + |rb|;
    assert r[p] == x;
    assert r[q] == y;
  }

  /** Removing twice is the same as removing once. */
  lemma RemoveIdempotent(ms: seq<Meal>, id: string)
    ensures RemoveById(RemoveById(ms, id), id) == RemoveById(ms, id)
  {
  }

  /** Position of the first meal carrying `id`, the index `meals.find` stops at. */
  function FirstIndexOf(ms: seq<Meal>, id: string): (r: Option<nat>)
    ensures r.Some? ==> r.value < |ms| && ms[r.value].id == id
    ensures r.Some? ==> forall j :: 0 <= j < r.value ==> ms[j].id != id
    ensures r.None? <==> !HasId(ms, id)
  {
    if ms == [] then None
    else if ms[0].id == id then Some(0)
    else match FirstIndexOf(ms[1..], id)
      case None => None
      case Some(k) => Some(k + 1)
  }

  /** `meals.find(m => m.id === id)`: the first meal with that id, if any. */
  function FindById(ms: seq<Meal>, id: string): (r: Option<Meal>)
    ensures r.Some? <==> HasId(ms, id)
    ensures r.Some? ==> r.value in ms && r.value.id == id
    ensures r.Some? ==> exists i :: 0 <= i < |ms| && ms[i] == r.value
                                    && forall j :: 0 <= j < i ==> ms[j].id != id
  {
    match FirstIndexOf(ms, id)
    case None => None
    case Some(k) => Some(ms[k])
  }
}
