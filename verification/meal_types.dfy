/**
 * The records shared by the meal store and the capture screen
 * (FoodItem, Meal, Goals in app/context/MealsContext.tsx, and the
 * provider response shapes the capture screen consumes).
 */
module MealTypes {

  import opened Common

  /** One food entry of a meal; every quantity is a plain JavaScript number. */
  datatype FoodItem = FoodItem(
    name: string,
    grams: real,
    calories: real,
    protein: real,
    carbs: real,
    fat: real)

  /** A logged meal; `date` is an ISO calendar date, `time` a display label. */
  datatype Meal = Meal(
    id: string,
    name: string,
    date: string,
    time: string,
    items: seq<FoodItem>)

  /** Daily nutrition targets. */
  datatype Goals = Goals(calories: real, protein: real, carbs: real, fat: real)

  /** The targets used until goals are found in the cache. */
  const DefaultGoals: Goals := Goals(2000.0, 100.0, 250.0, 70.0)

  /** One label returned by the image classifier, with its confidence. */
  datatype Concept = Concept(id: string, name: string, value: real)

  /**
   * The first food record of a nutrition lookup. The macro fields are
   * optional because the screen reads them with `?? 0`.
   */
  datatype Nutrition = Nutrition(
    name: string,
    calories: Option<real>,
    protein: Option<real>,
    carbs: Option<real>,
    fat: Option<real>,
    servingQty: real,
    servingUnit: string,
    servingWeight: real)

  /** The same meal with `extra` appended to its items; the `{ ...meal, items: [...] }` spread. */
  function WithMoreItems(m: Meal, extra: seq<FoodItem>): (r: Meal)
    ensures r.items == m.items + extra
    ensures r.id == m.id && r.name == m.name && r.date == m.date && r.time == m.time
  {
    m.(items := m.items + extra)
  }
}
