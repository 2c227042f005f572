/**
 * The meal store of app/context/MealsContext.tsx (`MealsProvider`): the
 * in-memory meal list and goals, mirrored into a key-value cache, with a
 * best-effort remote document store.
 *
 * Every operation is a pure step from one `Store` to the next. The outcome
 * of each remote call and of each cache write is an input (`true` when it
 * succeeded); cache reads see the cache contents. Each step also returns
 * the trace of effects it performed, in order, so that statements such as
 * "memory is set before the cache write is attempted" can be made.
 */
module MealStore {

  import opened Common
  import opened MealTypes
  import opened MealLists

  /** The two cache entries, under the keys 'meals' and 'goals'. */
  datatype Cache = Cache(meals: Option<seq<Meal>>, goals: Option<Goals>)

  /** The provider's state plus the durable cache it mirrors into. */
  datatype Store = Store(meals: seq<Meal>, goals: Goals, cache: Cache)

  datatype CacheKey = MealsKey | GoalsKey

  /** The calls made to the remote meal store. */
  datatype RemoteCall =
    | FetchAll
    | SaveMeal(meal: Meal)
    | UpdateRemote(id: string, meal: Meal)
    | DeleteRemote(id: string)

  /** One observable effect of a step, with the outcome it had. */
  datatype Effect =
    | Remote(call: RemoteCall, ok: bool)
    | SetMeals(meals: seq<Meal>)
    | SetGoals(goals: Goals)
    | CacheWrite(key: CacheKey, ok: bool)
    | CacheRead(key: CacheKey)

  datatype Step = Step(store: Store, trace: seq<Effect>)

  /** The state before the mount-time load has run. */
  function Initial(cache: Cache): (s: Store)
    ensures s.meals == [] && s.goals == DefaultGoals && s.cache == cache
  {
    Store([], DefaultGoals, cache)
  }

  /** The in-memory list and its cached mirror agree. */
  predicate Synced(s: Store)
  {
    s.cache.meals == Some(s.meals)
  }

  /**
   * `persistLocal`: set the in-memory list, then try to write it to the
   * cache; a failed write is swallowed and leaves the previous entry.
   */
  function PersistLocal(s: Store, newMeals: seq<Meal>, cacheOk: bool): (r: Step)
    ensures r.store.meals == newMeals
    ensures r.store.goals == s.goals && r.store.cache.goals == s.cache.goals
    ensures cacheOk ==> Synced(r.store)
    ensures !cacheOk ==> r.store.cache == s.cache
    ensures r.trace == [SetMeals(newMeals), CacheWrite(MealsKey, cacheOk)]
  {
    var cache := if cacheOk then s.cache.(meals := Some(newMeals)) else s.cache;
    Step(Store(newMeals, s.goals, cache), [SetMeals(newMeals), CacheWrite(MealsKey, cacheOk)])
  }

  /** `addMeal`: remote save first (failure swallowed), then prepend locally. */
  function AddMeal(s: Store, m: Meal, remoteOk: bool, cacheOk: bool): (r: Step)
    ensures |r.store.meals| == |s.meals| + 1
    ensures r.store.meals[0] == m && r.store.meals[1..] == s.meals
    ensures r.store.goals == s.goals && r.store.cache.goals == s.cache.goals
    ensures cacheOk ==> Synced(r.store)
    ensures !cacheOk ==> r.store.cache == s.cache
    ensures |r.trace| == 3 && r.trace[0] == Remote(SaveMeal(m), remoteOk)
    ensures r.trace[1] == SetMeals(r.store.meals) && r.trace[2] == CacheWrite(MealsKey, cacheOk)
  {
    var local := PersistLocal(s, [m] + s.meals, cacheOk);
    Step(local.store, [Remote(SaveMeal(m), remoteOk)] + local.trace)
  }

  /** `updateMeal`: remote merge first (failure swallowed), then replace by id locally. */
  function UpdateMeal(s: Store, m: Meal, remoteOk: bool, cacheOk: bool): (r: Step)
    ensures |r.store.meals| == |s.meals|
    ensures forall i :: 0 <= i < |s.meals| ==>
              r.store.meals[i] == (if s.meals[i].id == m.id then m else s.meals[i])
    ensures !HasId(s.meals, m.id) ==> r.store.meals == s.meals
    ensures r.store.goals == s.goals && r.store.cache.goals == s.cache.goals
    ensures cacheOk ==> Synced(r.store)
    ensures !cacheOk ==> r.store.cache == s.cache
    ensures |r.trace| == 3 && r.trace[0] == Remote(UpdateRemote(m.id, m), remoteOk)
    ensures r.trace[1] == SetMeals(r.store.meals) && r.trace[2] == CacheWrite(MealsKey, cacheOk)
  {
    assert !HasId(s.meals, m.id) ==> ReplaceById(s.meals, m) == s.meals by {
      if !HasId(s.meals, m.id) {
        ReplaceAbsentIsIdentity(s.meals, m);
      }
    }
    var local := PersistLocal(s, ReplaceById(s.meals, m), cacheOk);
    Step(local.store, [Remote(UpdateRemote(m.id, m), remoteOk)] + local.trace)
  }

  /** `removeMeal`: remote delete first (failure swallowed), then filter locally. */
  function RemoveMeal(s: Store, id: string, remoteOk: bool, cacheOk: bool): (r: Step)
    ensures r.store.meals == RemoveById(s.meals, id)
    ensures !HasId(r.store.meals, id)
    ensures forall x :: x in r.store.meals <==> x in s.meals && x.id != id
    ensures !HasId(s.meals, id) ==> r.store.meals == s.meals
    ensures r.store.goals == s.goals && r.store.cache.goals == s.cache.goals
    ensures cacheOk ==> Synced(r.store)
    ensures !cacheOk ==> r.store.cache == s.cache
    ensures |r.trace| == 3 && r.trace[0] == Remote(DeleteRemote(id), remoteOk)
    ensures r.trace[1] == SetMeals(r.store.meals) && r.trace[2] == CacheWrite(MealsKey, cacheOk)
  {
    assert !HasId(s.meals, id) ==> RemoveById(s.meals, id) == s.meals by {
      if !HasId(s.meals, id) {
        RemoveAbsentIsIdentity(s.meals, id);
      }
    }
    var local := PersistLocal(s, RemoveById(s.meals, id), cacheOk);
    Step(local.store, [Remote(DeleteRemote(id), remoteOk)] + local.trace)
  }

  /** `updateGoals`: local only; the meal list and the meal cache entry are untouched. */
  function UpdateGoals(s: Store, g: Goals, cacheOk: bool): (r: Step)
    ensures r.store.goals == g
    ensures r.store.meals == s.meals && r.store.cache.meals == s.cache.meals
    ensures r.store.cache.goals == (if cacheOk then Some(g) else s.cache.goals)
    ensures r.trace == [SetGoals(g), CacheWrite(GoalsKey, cacheOk)]
  {
    var cache := if cacheOk then s.cache.(goals := Some(g)) else s.cache;
    Step(Store(s.meals, g, cache), [SetGoals(g), CacheWrite(GoalsKey, cacheOk)])
  }

  /**
   * The meal half of the mount-time load. On a remote success the list is
   * adopted and written to the cache; if that write throws, control reaches
   * the same fallback as a remote failure, which re-reads the (unchanged)
   * cache entry and adopts it when present.
   */
  function LoadMeals(s: Store, remote: Result<seq<Meal>>, cacheWriteOk: bool): (r: Step)
    ensures r.store.goals == s.goals && r.store.cache.goals == s.cache.goals
    ensures remote.Ok? && cacheWriteOk ==> r.store.meals == remote.value && Synced(r.store)
    ensures remote.Ok? && !cacheWriteOk ==>
              r.store.cache == s.cache
              && r.store.meals == (if s.cache.meals.Some? then s.cache.meals.value else remote.value)
    ensures remote.Err? ==>
              r.store.cache == s.cache
              && r.store.meals == (if s.cache.meals.Some? then s.cache.meals.value else s.meals)
    ensures |r.trace| > 0 && r.trace[0] == Remote(FetchAll, remote.Ok?)
  {
    var fetched := Remote(FetchAll, remote.Ok?);
    var afterFetch :=
      if remote.Ok? then PersistLocal(s, remote.value, cacheWriteOk)
      else Step(s, []);
    if remote.Ok? && cacheWriteOk then
      Step(afterFetch.store, [fetched] + afterFetch.trace)
    else
      var fallback := match s.cache.meals
        case Some(stored) => Step(afterFetch.store.(meals := stored), [CacheRead(MealsKey), SetMeals(stored)])
        case None => Step(afterFetch.store, [CacheRead(MealsKey)]);
      Step(fallback.store, [fetched] + afterFetch.trace + fallback.trace)
  }

  /** The goal half of the mount-time load: cached goals when present. */
  function LoadGoals(s: Store): (r: Step)
    ensures r.store.meals == s.meals && r.store.cache == s.cache
    ensures r.store.goals == s.cache.goals.GetOr(s.goals)
  {
    match s.cache.goals
    case Some(g) => Step(s.(goals := g), [CacheRead(GoalsKey), SetGoals(g)])
    case None => Step(s, [CacheRead(GoalsKey)])
  }

  /** The mount-time effect of `MealsProvider`: meals remote-first, then goals from the cache. */
  function Mount(cache: Cache, remote: Result<seq<Meal>>, cacheWriteOk: bool): (r: Step)
    ensures r.store.goals == cache.goals.GetOr(DefaultGoals)
    ensures r.store.cache.goals == cache.goals
    ensures remote.Ok? && cacheWriteOk ==> r.store.meals == remote.value && Synced(r.store)
    ensures remote.Err? ==> r.store.meals == cache.meals.GetOr([]) && r.store.cache == cache
    ensures remote.Ok? && !cacheWriteOk ==>
              r.store.meals == cache.meals.GetOr(remote.value) && r.store.cache == cache
  {
    var meals := LoadMeals(Initial(cache), remote, cacheWriteOk);
    var goals := LoadGoals(meals.store);
    Step(goals.store, meals.trace + goals.trace)
  }

  /** The goals chosen at mount do not depend on the meal outcome. */
  lemma MountGoalsIndependent(cache: Cache, r1: Result<seq<Meal>>, w1: bool, r2: Result<seq<Meal>>, w2: bool)
    ensures Mount(cache, r1, w1).store.goals == Mount(cache, r2, w2).store.goals
  {
  }

  /** After a successful goal update, a restart loads exactly those goals, whatever the remote does. */
  lemma GoalsSurviveRestart(s: Store, g: Goals, remote: Result<seq<Meal>>, w: bool)
    ensures Mount(UpdateGoals(s, g, true).store.cache, remote, w).store.goals == g
  {
  }

  /** A failed goal write leaves whatever goals a restart would have loaded before. */
  lemma FailedGoalWriteIsInvisibleAfterRestart(s: Store, g: Goals, remote: Result<seq<Meal>>, w: bool)
    ensures Mount(UpdateGoals(s, g, false).store.cache, remote, w).store.goals
         == Mount(s.cache, remote, w).store.goals
  {
  }

  /** The operations a screen can issue against the store. */
  datatype Op = AddOp(meal: Meal) | UpdateOp(meal: Meal) | RemoveOp(id: string) | GoalsOp(goals: Goals)

  /** The outcomes of an operation's remote call and cache write. */
  datatype Outcome = Outcome(remoteOk: bool, cacheOk: bool)

  /** One operation, dispatched to the mutation it names. */
  function Apply(s: Store, op: Op, o: Outcome): (r: Step)
    ensures op.AddOp? ==> r.store.meals == [op.meal] + s.meals
    ensures op.UpdateOp? ==> r.store.meals == ReplaceById(s.meals, op.meal)
    ensures op.RemoveOp? ==> r.store.meals == RemoveById(s.meals, op.id)
    ensures op.GoalsOp? ==>
              r.store.goals == op.goals && r.store.meals == s.meals && r.store.cache.meals == s.cache.meals
    ensures !op.GoalsOp? ==> r.store.goals == s.goals && r.store.cache.goals == s.cache.goals
    ensures !op.GoalsOp? && o.cacheOk ==> Synced(r.store)
    ensures !o.cacheOk ==> r.store.cache == s.cache
  {
    match op
    case AddOp(m) => AddMeal(s, m, o.remoteOk, o.cacheOk)
    case UpdateOp(m) => UpdateMeal(s, m, o.remoteOk, o.cacheOk)
    case RemoveOp(id) => RemoveMeal(s, id, o.remoteOk, o.cacheOk)
    case GoalsOp(g) => UpdateGoals(s, g, o.cacheOk)
  }

  /** Strictly sequential execution of `ops`, the i-th meeting outcome `os[i]`. */
  function Run(s: Store, ops: seq<Op>, os: seq<Outcome>): (r: Store)
    requires |ops| == |os|
    ensures (forall i :: 0 <= i < |os| ==> !os[i].cacheOk) ==> r.cache == s.cache
    ensures (forall i :: 0 <= i < |ops| ==> !ops[i].GoalsOp?) ==>
              r.goals == s.goals && r.cache.goals == s.cache.goals
    ensures (forall i :: 0 <= i < |ops| ==> ops[i].GoalsOp?) ==>
              r.meals == s.meals && r.cache.meals == s.cache.meals
    decreases |ops|
  {
    if ops == [] then s
    else
      assert forall i :: 0 <= i < |os| - 1 ==> os[1..][i] == os[i + 1] && ops[1..][i] == ops[i + 1];
      Run(Apply(s, ops[0], os[0]).store, ops[1..], os[1..])
  }

  /** A remote failure never changes what a single operation does locally. */
  lemma ApplyIgnoresRemote(s: Store, op: Op, o1: Outcome, o2: Outcome)
    requires o1.cacheOk == o2.cacheOk
    ensures Apply(s, op, o1).store == Apply(s, op, o2).store
  {
  }

  /** Over any run, remote outcomes have no influence on local state. */
  lemma {:induction false} RunIgnoresRemote(s: Store, ops: seq<Op>, os1: seq<Outcome>, os2: seq<Outcome>)
    requires |ops| == |os1| == |os2|
    requires forall i :: 0 <= i < |ops| ==> os1[i].cacheOk == os2[i].cacheOk
    ensures Run(s, ops, os1) == Run(s, ops, os2)
    decreases |ops|
  {
    if ops != [] {
      ApplyIgnoresRemote(s, ops[0], os1[0], os2[0]);
      var next := Apply(s, ops[0], os1[0]).store;
      assert forall i :: 0 <= i < |ops[1..]| ==> os1[1..][i].cacheOk == os2[1..][i].cacheOk by {
        forall i | 0 <= i < |ops[1..]|
          ensures os1[1..][i].cacheOk == os2[1..][i].cacheOk
        {
          assert os1[1..][i] == os1[i + 1] && os2[1..][i] == os2[i + 1];
        }
      }
      RunIgnoresRemote(next, ops[1..], os1[1..], os2[1..]);
    }
  }

  /** As long as every cache write succeeds, memory and cache never diverge at rest. */
  lemma {:induction false} RunKeepsSynced(s: Store, ops: seq<Op>, os: seq<Outcome>)
    requires |ops| == |os|
    requires Synced(s)
    requires forall i :: 0 <= i < |os| ==> os[i].cacheOk
    ensures Synced(Run(s, ops, os))
    decreases |ops|
  {
    if ops != [] {
      assert os[0].cacheOk;
      var next := Apply(s, ops[0], os[0]).store;
      assert Synced(next);
      assert forall i :: 0 <= i < |os[1..]| ==> os[1..][i].cacheOk by {
        forall i | 0 <= i < |os[1..]|
          ensures os[1..][i].cacheOk
        {
          assert os[1..][i] == os[i + 1];
        }
      }
      RunKeepsSynced(next, ops[1..], os[1..]);
    }
  }

  /**
   * The cache is what a restart falls back to: after a meal mutation whose
   * cache write succeeded, a restart with the remote unreachable restores
   * exactly the in-memory list.
   */
  lemma MealsSurviveOfflineRestart(s: Store, op: Op, o: Outcome, err: string, w: bool)
    requires !op.GoalsOp? && o.cacheOk
    ensures Mount(Apply(s, op, o).store.cache, Err(err), w).store.meals == Apply(s, op, o).store.meals
  {
  }
}
