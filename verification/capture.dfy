/**
 * The food-capture screen of screens/UploadandClassifyScreen.tsx: the
 * candidate (photo, top concept, nutrition snapshot, grams, base weight),
 * the meal draft, and the transitions between them. The image picker,
 * the classifier and the nutrition lookup are inputs; the screen's calls
 * into the meal store come out as a `StoreRequest`.
 */
module Capture {

  import opened Common
  import opened MealTypes
  import opened MealLists
  import opened Ranking
  import MealStore

  /** The food being captured. */
  datatype Candidate = Candidate(
    photo: Option<string>,
    result: Option<Concept>,
    macros: Option<Nutrition>,
    grams: real,
    baseWeight: real)

  /** The meal being assembled on the screen. */
  datatype Draft = Draft(mealName: string, mealTime: string, items: seq<FoodItem>)

  datatype Screen = Screen(draft: Draft, cand: Candidate)

  /** The candidate after `resetClassification`. */
  const Cleared: Candidate := Candidate(None, None, None, 0.0, 0.0)

  /** What the image picker or the camera returned. */
  datatype PickerResult = PickerResult(canceled: bool, assetUris: seq<string>)

  /** The nutrition queries the screen issues: "1 serving {food}" and "{n} g {food}". */
  datatype Query = OneServing(food: string) | GramsOf(grams: int, food: string)

  /** The nutrition lookup service, as a function of the query. */
  type Lookup = Query -> Result<Nutrition>

  /** The error alert a failed step shows. */
  datatype CaptureAlert =
    | ClassifierError(message: string)
    | NoConcept
    | LookupError(message: string)

  /** A candidate transition that may raise an alert. */
  datatype CandidateStep = CandidateStep(cand: Candidate, alert: Option<CaptureAlert>)

  /** What the screen asks of the meal store. */
  datatype StoreRequest = NoRequest | AddMealRequest(meal: Meal) | UpdateMealRequest(meal: Meal)

  /** A screen transition together with the meal-store call it makes. */
  datatype ScreenStep = ScreenStep(screen: Screen, request: StoreRequest)

  /**
   * JavaScript truthiness of an optional string, as `if (photoUri)` and
   * `if (mealId)` test it: both `null` and the empty string are falsy.
   */
  function Truthy(s: Option<string>): (b: bool)
    ensures s.None? ==> !b
    ensures s == Some([]) ==> !b
    ensures s.Some? && s.value != [] ==> b
  {
    s.Some? && s.value != []
  }

  /** The focus effect: an empty draft stamped with the current time, and a cleared candidate. */
  function Open(timeLabel: string): (sc: Screen)
    ensures sc.draft.items == [] && sc.draft.mealName == [] && sc.draft.mealTime == timeLabel
    ensures sc.cand == Cleared
    ensures sc.cand.photo.None? && sc.cand.result.None? && sc.cand.macros.None?
  {
    Screen(Draft([], timeLabel, []), Cleared)
  }

  /** `resetClassification`, also used by "Add Food Item" and by cancel. */
  function Reset(sc: Screen): (r: Screen)
    ensures r.draft == sc.draft
    ensures r.cand.photo.None? && r.cand.result.None? && r.cand.macros.None?
    ensures r.cand.grams == 0.0 && r.cand.baseWeight == 0.0
  {
    sc.(cand := Cleared)
  }

  /**
   * `pickImage` / `snapPhoto`: clear the candidate, then keep the first
   * asset unless the picker was cancelled or returned nothing.
   */
  function ChoosePhoto(sc: Screen, picked: PickerResult): (r: Screen)
    ensures r.draft == sc.draft
    ensures r.cand.result.None? && r.cand.macros.None?
    ensures r.cand.grams == 0.0 && r.cand.baseWeight == 0.0
    ensures r.cand.photo.Some? <==> !picked.canceled && picked.assetUris != []
    ensures r.cand.photo.Some? ==> r.cand.photo.value == picked.assetUris[0]
  {
    var cleared := Reset(sc);
    if !picked.canceled && |picked.assetUris| > 0 then
      cleared.(cand := cleared.cand.(photo := Some(picked.assetUris[0])))
    else cleared
  }

  /**
   * `classify`: take the top concept, look up one serving of it, and
   * start the portion at the serving weight. An empty concept list sets
   * the result to `undefined` and then fails on `top.name`; a failed
   * lookup leaves the concept in place with the previous snapshot, which
   * is none right after a pick.
   */
  function Classify(c: Candidate, preds: Result<seq<Concept>>, lookup: Lookup): (r: CandidateStep)
    ensures !Truthy(c.photo) ==> r == CandidateStep(c, None)
    ensures r.cand.photo == c.photo
    ensures Truthy(c.photo) && preds.Err? ==>
              r == CandidateStep(c, Some(ClassifierError(preds.message)))
    ensures Truthy(c.photo) && preds.Ok? && preds.value == [] ==>
              r == CandidateStep(c.(result := None), Some(NoConcept))
    ensures Truthy(c.photo) && preds.Ok? && preds.value != [] ==>
              && r.cand.result.Some?
              && r.cand.result.value == preds.value[TopIndex(preds.value)]
              && (forall j :: 0 <= j < |preds.value| ==> preds.value[j].value <= r.cand.result.value.value)
    ensures Truthy(c.photo) && preds.Ok? && preds.value != [] ==>
              (r.alert.None? <==> lookup(OneServing(preds.value[TopIndex(preds.value)].name)).Ok?)
    ensures Truthy(c.photo) && preds.Ok? && preds.value != []
            && lookup(OneServing(preds.value[TopIndex(preds.value)].name)).Err? ==>
              r.alert == Some(LookupError(lookup(OneServing(preds.value[TopIndex(preds.value)].name)).message))
    ensures r.alert.None? && Truthy(c.photo) ==>
              && r.cand.result.Some? && r.cand.macros.Some?
              && lookup(OneServing(r.cand.result.value.name)) == Ok(r.cand.macros.value)
              && r.cand.grams == r.cand.baseWeight == r.cand.macros.value.servingWeight
    ensures r.alert.Some? ==> r.cand.macros == c.macros && r.cand.grams == c.grams
                              && r.cand.baseWeight == c.baseWeight
  {
    if !Truthy(c.photo) then CandidateStep(c, None)
    else match preds
      case Err(msg) => CandidateStep(c, Some(ClassifierError(msg)))
      case Ok(ps) =>
        match Top(ps)
        case None => CandidateStep(c.(result := None), Some(NoConcept))
        case Some(top) =>
          var withTop := c.(result := Some(top));
          match lookup(OneServing(top.name))
          case Err(msg) => CandidateStep(withTop, Some(LookupError(msg)))
          case Ok(n) =>
            CandidateStep(withTop.(macros := Some(n), baseWeight := n.servingWeight, grams := n.servingWeight), None)
  }

  /** Picking a photo and classifying it: an empty concept list leaves no result and no snapshot. */
  lemma EmptyClassificationLeavesNothing(sc: Screen, picked: PickerResult, lookup: Lookup)
    requires !picked.canceled && picked.assetUris != []
    ensures Classify(ChoosePhoto(sc, picked).cand, Ok([]), lookup).cand.result.None?
    ensures Classify(ChoosePhoto(sc, picked).cand, Ok([]), lookup).cand.macros.None?
    ensures Classify(ChoosePhoto(sc, picked).cand, Ok([]), lookup).cand.photo == Some(picked.assetUris[0])
  {
  }

  /** An asset whose uri is the empty string is falsy and is never classified. */
  lemma EmptyUriIsNeverClassified(sc: Screen, preds: Result<seq<Concept>>, lookup: Lookup)
    ensures Classify(ChoosePhoto(sc, PickerResult(false, [""])).cand, preds, lookup)
            == CandidateStep(ChoosePhoto(sc, PickerResult(false, [""])).cand, None)
    ensures Classify(ChoosePhoto(sc, PickerResult(false, [""])).cand, preds, lookup).cand.result.None?
  {
  }

  /** The slider's largest step: `baseWeight * 5` rounded down to a whole gram. */
  function SliderMax(baseWeight: real): (hi: int)
    ensures hi as real <= baseWeight * 5.0 < hi as real + 1.0
  {
    (baseWeight * 5.0).Floor
  }

  /** The slider runs from 1 to `baseWeight * 5` in steps of 1. */
  predicate InSliderRange(baseWeight: real, v: int)
  {
    1 <= v <= SliderMax(baseWeight)
  }

  /** The slider permits exactly the integers of `[1, baseWeight * 5]`. */
  lemma SliderRangeIsIntegersUpToFiveServings(baseWeight: real, v: int)
    ensures InSliderRange(baseWeight, v) <==> 1 <= v && v as real <= baseWeight * 5.0
  {
  }

  /** `onValueChange`: the slider moves the portion; nothing else changes. */
  function Slide(c: Candidate, v: int): (r: Candidate)
    requires InSliderRange(c.baseWeight, v)
    ensures r.grams == v as real && 1.0 <= r.grams <= c.baseWeight * 5.0
    ensures r.photo == c.photo && r.result == c.result && r.macros == c.macros
    ensures r.baseWeight == c.baseWeight
  {
    c.(grams := v as real)
  }

  /**
   * `onSlidingComplete`: re-query "{v} g {label}" and replace the snapshot
   * wholesale; a failure alerts and keeps the previous snapshot. The slider
   * is only on screen once a concept and a snapshot exist.
   */
  function Release(c: Candidate, v: int, lookup: Lookup): (r: CandidateStep)
    requires c.result.Some? && c.macros.Some?
    ensures r.cand.grams == c.grams && r.cand.baseWeight == c.baseWeight
    ensures r.cand.photo == c.photo && r.cand.result == c.result
    ensures lookup(GramsOf(v, c.result.value.name)).Ok? ==>
              r == CandidateStep(c.(macros := Some(lookup(GramsOf(v, c.result.value.name)).value)), None)
    ensures lookup(GramsOf(v, c.result.value.name)).Err? ==>
              r == CandidateStep(c, Some(LookupError(lookup(GramsOf(v, c.result.value.name)).message)))
  {
    match lookup(GramsOf(v, c.result.value.name))
    case Ok(n) => CandidateStep(c.(macros := Some(n)), None)
    case Err(msg) => CandidateStep(c, Some(LookupError(msg)))
  }

  /** Re-querying the same portion twice yields the same snapshot and leaves the portion alone. */
  lemma ReleaseIdempotent(c: Candidate, v: int, lookup: Lookup)
    requires c.result.Some? && c.macros.Some?
    ensures Release(Release(c, v, lookup).cand, v, lookup).cand == Release(c, v, lookup).cand
  {
  }

  /**
   * After a failed re-query the portion already holds the new value while
   * the snapshot still describes the previous one.
   */
  lemma FailedRequeryKeepsStaleSnapshot(c: Candidate, v: int, lookup: Lookup)
    requires c.result.Some? && c.macros.Some? && InSliderRange(c.baseWeight, v)
    requires lookup(GramsOf(v, c.result.value.name)).Err?
    ensures Release(Slide(c, v), v, lookup).cand.grams == v as real
    ensures Release(Slide(c, v), v, lookup).cand.macros == c.macros
  {
  }

  /** The food item the candidate stands for: each missing macro reads as 0. */
  function ItemOf(c: Candidate): (item: FoodItem)
    requires c.result.Some? && c.macros.Some?
    ensures item.name == c.result.value.name && item.grams == c.grams
    ensures item.calories == c.macros.value.calories.GetOr(0.0)
    ensures item.protein == c.macros.value.protein.GetOr(0.0)
    ensures item.carbs == c.macros.value.carbs.GetOr(0.0)
    ensures item.fat == c.macros.value.fat.GetOr(0.0)
  {
    var n := c.macros.value;
    FoodItem(c.result.value.name, c.grams, n.calories.GetOr(0.0), n.protein.GetOr(0.0),
             n.carbs.GetOr(0.0), n.fat.GetOr(0.0))
  }

  /**
   * `addToMeal`: with a target meal, ask the store to append the item to
   * that meal (if it exists) and leave the screen; otherwise append it to
   * the draft and clear the candidate.
   */
  function AddToMeal(sc: Screen, meals: seq<Meal>, mealId: Option<string>): (r: ScreenStep)
    ensures sc.cand.result.None? || sc.cand.macros.None? ==> r == ScreenStep(sc, NoRequest)
    ensures Truthy(mealId) ==> r.screen == sc
    ensures Truthy(mealId) && !HasId(meals, mealId.value) ==> r.request == NoRequest
    ensures Truthy(mealId) && sc.cand.result.Some? && sc.cand.macros.Some? && HasId(meals, mealId.value) ==>
              && r.request.UpdateMealRequest?
              && r.request.meal.id == mealId.value
              && r.request.meal == WithMoreItems(FindById(meals, mealId.value).value, [ItemOf(sc.cand)])
    ensures !Truthy(mealId) && sc.cand.result.Some? && sc.cand.macros.Some? ==>
              && r.request == NoRequest
              && r.screen.draft.items == sc.draft.items + [ItemOf(sc.cand)]
              && r.screen.draft.mealName == sc.draft.mealName && r.screen.draft.mealTime == sc.draft.mealTime
              && r.screen.cand == Cleared
  {
    if sc.cand.result.None? || sc.cand.macros.None? then ScreenStep(sc, NoRequest)
    else
      var item := ItemOf(sc.cand);
      if Truthy(mealId) then
        match FindById(meals, mealId.value)
        case Some(existing) =>
          ScreenStep(sc, UpdateMealRequest(WithMoreItems(existing, [item])))
        case None => ScreenStep(sc, NoRequest)
      else
        ScreenStep(Screen(sc.draft.(items := sc.draft.items + [item]), Cleared), NoRequest)
  }

  /**
   * `commitMeal`: without a target, add a new meal named after the draft
   * (or "Meal"), dated today; with a target, append every draft item to
   * the existing meal. The draft's name and items are cleared either way.
   * The new meal's id is `mealId ?? now`.
   */
  function CommitMeal(sc: Screen, meals: seq<Meal>, mealId: Option<string>, today: string, nowId: string): (r: ScreenStep)
    ensures r.screen.draft.mealName == [] && r.screen.draft.items == []
    ensures r.screen.draft.mealTime == sc.draft.mealTime && r.screen.cand == sc.cand
    ensures !Truthy(mealId) ==>
              && r.request.AddMealRequest?
              && r.request.meal.id == mealId.GetOr(nowId)
              && r.request.meal.name == (if sc.draft.mealName == [] then "Meal" else sc.draft.mealName)
              && r.request.meal.date == today
              && r.request.meal.time == sc.draft.mealTime
              && r.request.meal.items == sc.draft.items
    ensures Truthy(mealId) && !HasId(meals, mealId.value) ==> r.request == NoRequest
    ensures Truthy(mealId) && HasId(meals, mealId.value) ==>
              && r.request.UpdateMealRequest?
              && r.request.meal == WithMoreItems(FindById(meals, mealId.value).value, sc.draft.items)
  {
    var cleared := Screen(Draft([], sc.draft.mealTime, []), sc.cand);
    if Truthy(mealId) then
      match FindById(meals, mealId.value)
      case Some(existing) => ScreenStep(cleared, UpdateMealRequest(WithMoreItems(existing, sc.draft.items)))
      case None => ScreenStep(cleared, NoRequest)
    else
      var name := if sc.draft.mealName == [] then "Meal" else sc.draft.mealName;
      var newMeal := Meal(mealId.GetOr(nowId), name, today, sc.draft.mealTime, sc.draft.items);
      ScreenStep(cleared, AddMealRequest(newMeal))
  }

  /** Hands a screen's request to the meal store. */
  function Dispatch(s: MealStore.Store, req: StoreRequest, remoteOk: bool, cacheOk: bool): (r: MealStore.Store)
    ensures req.NoRequest? ==> r == s
    ensures req.AddMealRequest? ==> r.meals == [req.meal] + s.meals
    ensures req.UpdateMealRequest? ==> r.meals == ReplaceById(s.meals, req.meal)
    ensures r.goals == s.goals && r.cache.goals == s.cache.goals
    ensures !req.NoRequest? && cacheOk ==> MealStore.Synced(r)
    ensures !cacheOk ==> r.cache == s.cache
  {
    match req
    case NoRequest => s
    case AddMealRequest(m) => MealStore.AddMeal(s, m, remoteOk, cacheOk).store
    case UpdateMealRequest(m) => MealStore.UpdateMeal(s, m, remoteOk, cacheOk).store
  }

  /** Meal identifiers are pairwise distinct. */
  predicate UniqueIds(ms: seq<Meal>)
  {
    forall i, j :: 0 <= i < j < |ms| ==> ms[i].id != ms[j].id
  }

  /**
   * Adding an item to an existing meal: that meal's items grow by exactly
   * the item at the end, its other fields stay, and no other meal changes.
   */
  lemma AddToExistingMeal(s: MealStore.Store, sc: Screen, k: nat, remoteOk: bool, cacheOk: bool)
    requires UniqueIds(s.meals) && k < |s.meals| && s.meals[k].id != []
    requires sc.cand.result.Some? && sc.cand.macros.Some?
    ensures var after := Dispatch(s, AddToMeal(sc, s.meals, Some(s.meals[k].id)).request, remoteOk, cacheOk);
            && |after.meals| == |s.meals|
            && after.meals[k] == WithMoreItems(s.meals[k], [ItemOf(sc.cand)])
            && forall i :: 0 <= i < |s.meals| && i != k ==> after.meals[i] == s.meals[i]
  {
  }

  /** Adding an item to a meal that is not in the list changes no meal. */
  lemma AddToMissingMeal(s: MealStore.Store, sc: Screen, id: string, remoteOk: bool, cacheOk: bool)
    requires id != [] && !HasId(s.meals, id)
    ensures Dispatch(s, AddToMeal(sc, s.meals, Some(id)).request, remoteOk, cacheOk) == s
  {
  }

  /** Committing a new meal puts it at the front of the store's list, with the draft's items in order. */
  lemma CommitNewMealLandsFirst(s: MealStore.Store, sc: Screen, today: string, nowId: string, remoteOk: bool, cacheOk: bool)
    ensures var after := Dispatch(s, CommitMeal(sc, s.meals, None, today, nowId).request, remoteOk, cacheOk);
            && after.meals[0] == Meal(nowId, if sc.draft.mealName == [] then "Meal" else sc.draft.mealName,
                                      today, sc.draft.mealTime, sc.draft.items)
            && after.meals[1..] == s.meals
  {
  }

  /**
   * Committing to an existing meal appends all draft items in order to
   * that meal only.
   */
  lemma CommitToExistingMeal(s: MealStore.Store, sc: Screen, k: nat, today: string, nowId: string, remoteOk: bool, cacheOk: bool)
    requires UniqueIds(s.meals) && k < |s.meals| && s.meals[k].id != []
    ensures var after := Dispatch(s, CommitMeal(sc, s.meals, Some(s.meals[k].id), today, nowId).request, remoteOk, cacheOk);
            && |after.meals| == |s.meals|
            && after.meals[k].items == s.meals[k].items + sc.draft.items
            && after.meals[k].name == s.meals[k].name && after.meals[k].date == s.meals[k].date
            && forall i :: 0 <= i < |s.meals| && i != k ==> after.meals[i] == s.meals[i]
  {
  }

  /**
   * An empty-string `mealId` is falsy, so it counts as "no target", yet
   * `mealId ?? now` keeps it: the new meal gets the empty id.
   */
  lemma EmptyTargetGivesEmptyId(sc: Screen, meals: seq<Meal>, today: string, nowId: string)
    ensures CommitMeal(sc, meals, Some([]), today, nowId).request == AddMealRequest(
              Meal([], if sc.draft.mealName == [] then "Meal" else sc.draft.mealName,
                   today, sc.draft.mealTime, sc.draft.items))
  {
  }
}
