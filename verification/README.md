# nutricam meal logging: a Dafny model

This project models the client-side logic of nutricam, a React Native meal
logger. It covers three parts:

- **The meal store** (`MealsProvider`). It holds the in-memory meal list and
  the daily goals and mirrors both into a key-value cache. Meals are loaded
  remote-first with a cache fallback; goals come from the cache or the
  built-in defaults. Meal mutations (add, update, remove) first try the
  remote store and then always commit locally; `updateGoals` is local only.
- **The food-capture screen.** It covers choosing a photo, picking the
  classifier's top concept, looking up one serving, moving the portion
  slider, adding the item to a meal or to the draft, and committing the draft.
- **The credential forms.** These are the ordered guard checks of signup and
  login, which decide whether the authentication call happens.

Everything is a pure function over immutable datatypes. Remote calls and cache
writes are inputs: a success flag, a `Result`, or a lookup function. Each
meal-store step returns its effect trace, so ordering claims can be stated.
Sign-up and log-in handlers return the trace of UI effects they produce.

Modules (one file each): `Common` (Option, Result), `MealTypes` (FoodItem,
Meal, Goals, Concept, Nutrition), `MealLists` (replace, filter and find by
id), `MealStore`, `Ranking` (stable descending sort by confidence), `Capture`,
`Text` (JavaScript `trim` whitespace, UTF-16 `length`) and `Credentials`.

Behaviour worth knowing:

- **Mount with a failed cache write.** If the remote fetch succeeds but
  writing the fetched list to the cache throws, the same `catch` block as a
  remote failure runs. The meals then become the previously cached list when
  one exists, otherwise they stay equal to the fetched list (`MealStore.LoadMeals`).
- **Classification failures.** An empty concept list clears the result:
  `sort(...)[0]` is `undefined` and `top.name` then throws. A failed lookup
  instead keeps the chosen concept, with no new nutrition snapshot
  (`Capture.Classify`).
- **Empty photo uri.** The photo is tested by JavaScript truthiness before
  classification, so an asset whose uri is the empty string is kept but never
  classified (`Capture.EmptyUriIsNeverClassified`).
- **Empty `mealId`.** The route parameter `mealId` is tested by JavaScript
  truthiness, so an empty string counts as "no target meal". `commitMeal` still
  builds the id as `mealId ?? now`, so the new meal gets the empty id
  (`Capture.EmptyTargetGivesEmptyId`).
- **Password length.** The signup length check uses `.length`, which counts
  UTF-16 code units. The model counts code units too (`Text.Utf16Length`).

## Model

| member | source | states |
|---|---|---|
| MealStore.Initial | app/context/MealsContext.tsx:66-68 | before loading, meals are empty and goals are the defaults |
| MealStore.PersistLocal | app/context/MealsContext.tsx:88-95 | memory takes the new list first, then the cache write is attempted; on success cache equals memory, on failure the old cache entry stays while memory is still updated; goals untouched |
| MealStore.AddMeal | app/context/MealsContext.tsx:98-105 | the list becomes `[m] ++ old` whatever the remote outcome; the trace is remote save, set memory, cache write |
| MealStore.UpdateMeal | app/context/MealsContext.tsx:108-116 | length and order kept; each meal with `m.id` becomes `m`, the others are unchanged; with no match the list is unchanged; remote call comes first |
| MealStore.RemoveMeal | app/context/MealsContext.tsx:119-127 | the list becomes the order-preserving filter `RemoveById` (so `RemoveKeepsOrder` applies); no meal with `id` remains; a meal survives iff it was present with another id; with no match the list is unchanged |
| MealStore.UpdateGoals | app/context/MealsContext.tsx:130-137 | goals become `g`; only the goals cache entry is written; meals and meal cache untouched |
| MealStore.LoadMeals | app/context/MealsContext.tsx:71-81 | remote success with a good cache write: meals and cache equal the remote list; remote failure: the cached list if present, else unchanged; a failed cache write after a remote success falls back to the cached list |
| MealStore.LoadGoals | app/context/MealsContext.tsx:82-83 | goals become the cached goals when present, else stay; meals and cache untouched |
| MealStore.Mount | app/context/MealsContext.tsx:50-85 | goals are the cached goals or the defaults 2000/100/250/70; meals follow the remote-first, cache-fallback rule, empty when neither is available |
| MealStore.MountGoalsIndependent | app/context/MealsContext.tsx:71-83 | the loaded goals do not depend on the remote or cache-write outcome of the meal load |
| MealStore.GoalsSurviveRestart | app/context/MealsContext.tsx:130-137 | after a successful goal write, a restart loads exactly those goals, never the defaults |
| MealStore.FailedGoalWriteIsInvisibleAfterRestart | app/context/MealsContext.tsx:130-137 | a failed goal write leaves the goals a restart would load unchanged |
| MealStore.Apply | app/context/MealsContext.tsx:98-137 | each operation acts as its mutation: add prepends, update replaces by id, remove filters by id, goals touch only goals; meal mutations leave goals alone; a failed cache write leaves the cache as it was |
| MealStore.Run | app/context/MealsContext.tsx:98-137 | over a sequence of operations: if every cache write fails the cache is unchanged; a run without goal updates keeps goals and cached goals; a run of goal updates only keeps meals and cached meals |
| MealStore.ApplyIgnoresRemote | app/context/MealsContext.tsx:98-126 | for each mutation, the remote outcome never changes the local result |
| MealStore.RunIgnoresRemote | app/context/MealsContext.tsx:98-126 | over any sequence of mutations, remote outcomes never change the local state |
| MealStore.RunKeepsSynced | app/context/MealsContext.tsx:88-95 | while every cache write succeeds, memory and cache never diverge at rest |
| MealStore.MealsSurviveOfflineRestart | app/context/MealsContext.tsx:77-80 | after a meal mutation with a good cache write, an offline restart restores exactly the in-memory list |
| MealLists.ReplaceById | app/context/MealsContext.tsx:114 | same length; positions with `m.id` hold `m`, all others hold the old meal |
| MealLists.ReplaceKeepsIds | app/context/MealsContext.tsx:114 | replacement keeps the sequence of ids |
| MealLists.ReplaceAbsentIsIdentity | app/context/MealsContext.tsx:114 | with no matching id nothing changes and nothing is appended |
| MealLists.ReplaceContains | app/context/MealsContext.tsx:114 | `m` is in the result iff some meal had `m.id` |
| MealLists.ReplaceIdempotent | app/context/MealsContext.tsx:114 | replacing twice equals replacing once |
| MealLists.RemoveById | app/context/MealsContext.tsx:125 | no element with `id` remains; an element is kept iff it was present with another id |
| MealLists.RemoveDistributes | app/context/MealsContext.tsx:125 | the filter distributes over concatenation |
| MealLists.RemoveAbsentIsIdentity | app/context/MealsContext.tsx:125 | with no matching id the filter keeps the whole list |
| MealLists.RemoveKeepsOrder | app/context/MealsContext.tsx:125 | two surviving meals keep their relative order |
| MealLists.RemoveIdempotent | app/context/MealsContext.tsx:125 | removing twice equals removing once |
| MealLists.FirstIndexOf | screens/UploadandClassifyScreen.tsx:125 | the index of the first meal with the id; none iff no meal has it |
| MealLists.FindById | screens/UploadandClassifyScreen.tsx:125 | `find` returns the first meal with the id, none iff absent |
| MealTypes.WithMoreItems | screens/UploadandClassifyScreen.tsx:126 | the spread `{...meal, items: [...items, ...extra]}` appends to the items and keeps every other field |
| Ranking.Insert | screens/UploadandClassifyScreen.tsx:99 | insertion keeps the multiset plus one element; a new element goes ahead of a tie at the head and behind a strictly larger head |
| Ranking.InsertKeepsDescending | screens/UploadandClassifyScreen.tsx:99 | inserting into a descending list keeps it descending |
| Ranking.SortByConfidence | screens/UploadandClassifyScreen.tsx:99 | the sort is a permutation and is descending by confidence |
| Ranking.TopIndex | screens/UploadandClassifyScreen.tsx:99 | the selected concept's confidence is at least every other one's, and strictly above every earlier one's |
| Ranking.SortHeadIsTop | screens/UploadandClassifyScreen.tsx:99 | the head of the stable sort is the earliest concept of maximal confidence |
| Ranking.Top | screens/UploadandClassifyScreen.tsx:99 | `sort(...)[0]` is undefined exactly for an empty list, otherwise the earliest maximal concept |
| Ranking.TieGoesToFirst | screens/UploadandClassifyScreen.tsx:99 | with concepts A and B tied at 0.9, in that order, A is chosen |
| Text.IsWhitespace | app/signup.tsx:27 | among ASCII characters exactly tab, line feed, vertical tab, form feed, carriage return and space count as whitespace for `trim`; every whitespace code point lies in the Basic Multilingual Plane |
| Text.Trim | app/signup.tsx:27 | `trim()` is a contiguous slice of the input with only whitespace cut off on each side; it is empty iff the string is all whitespace; a non-empty result neither starts nor ends with whitespace |
| Text.TrimOfTrimmed | app/signup.tsx:27 | a string without surrounding whitespace is its own trim |
| Text.Utf16Length | app/signup.tsx:37 | `.length` lies between the character count and twice it; a single character counts 2 above U+FFFF and 1 otherwise |
| Text.Utf16LengthAppend | app/signup.tsx:37 | `.length` of a concatenation is the sum of the lengths, which with the one-character case fixes every count |
| Text.Utf16LengthSnoc | app/signup.tsx:37 | appending an astral character adds 2 code units, any other character 1 |
| Text.Utf16LengthOfBmp | app/signup.tsx:37 | for Basic Multilingual Plane text, `.length` is the character count |
| Credentials.SignupMessage | app/signup.tsx:28-38 | the three signup alert texts, one per failed check, each text identifying its check |
| Credentials.ValidateSignup | app/signup.tsx:27-40 | the checks run in order: blank field, then mismatch, then length under 6; each error occurs exactly when its check is the first to fail; accepted iff every check passes |
| Credentials.AfterAuth | app/signup.tsx:43-50 | success navigates home; failure alerts with the service's message |
| Credentials.HandleSignup | app/signup.tsx:26-51 | a rejection shows one alert and nothing else; an accepted form sets loading, creates the account with the trimmed email and the untrimmed password, then navigates home on success or alerts "Signup Failed" with the service's message, and clears loading |
| Credentials.SignupCallsServiceIffValid | app/signup.tsx:27-44 | account creation is attempted iff every check passes |
| Credentials.SixIsTheBoundary | app/signup.tsx:37-40 | a password of exactly 6 is accepted, one of 5 is rejected as too short |
| Credentials.AstralPasswordIsLongEnough | app/signup.tsx:37 | three astral characters count as 6 units and pass |
| Credentials.SignupClearsLoading | app/signup.tsx:42-50 | a started signup ends with loading cleared, whatever the service answers |
| Credentials.PasswordIsNotTrimmed | app/signup.tsx:27-44 | six spaces pass as a password: only the email is trimmed |
| Credentials.HandleLogin | screens/Login.tsx:26-42 | rejected iff the email is blank or the password is empty; otherwise sign-in with the trimmed email and the password as typed, then home on success or a "Login Failed" alert, loading set and cleared |
| Credentials.RejectedLoginIsInert | screens/Login.tsx:27-32 | a rejected login never sets loading and never signs in |
| Credentials.LoginHasNoLengthRule | screens/Login.tsx:27-34 | a one-character password reaches the sign-in call |
| Capture.Truthy | screens/UploadandClassifyScreen.tsx:70-148 | the tests `if (photoUri)` (lines 70 and 95) and `if (mealId)` (lines 124 and 148) treat both a missing value and the empty string as false |
| Capture.Open | screens/UploadandClassifyScreen.tsx:42-59 | focusing the screen gives an empty unnamed draft with the current time and exactly the cleared candidate: no photo, result or snapshot, grams and base weight 0 |
| Capture.Reset | screens/UploadandClassifyScreen.tsx:75-81 | result, macros and photo become none; grams and base weight 0; the draft is kept |
| Capture.ChoosePhoto | screens/UploadandClassifyScreen.tsx:83-92 | the candidate is cleared first; a photo is set iff the picker was not cancelled and returned an asset, and then it is the first asset |
| Capture.Classify | screens/UploadandClassifyScreen.tsx:94-110 | nothing happens without a truthy photo; the result is the earliest maximal concept; no alert iff the "1 serving" lookup of that concept succeeds, and then the snapshot is that lookup and grams = base weight = serving weight; a failed lookup alerts with its message; on any failure snapshot, grams and base weight are unchanged; an empty list clears the result |
| Capture.EmptyClassificationLeavesNothing | screens/UploadandClassifyScreen.tsx:83-110 | after picking a photo, an empty concept list leaves no result and no snapshot while the photo stays |
| Capture.EmptyUriIsNeverClassified | screens/UploadandClassifyScreen.tsx:83-95 | a picked asset whose uri is the empty string is never classified and leaves no result |
| Capture.SliderMax | screens/UploadandClassifyScreen.tsx:266-268 | the largest slider step is `baseWeight * 5` rounded down |
| Capture.SliderRangeIsIntegersUpToFiveServings | screens/UploadandClassifyScreen.tsx:266-268 | the slider permits exactly the integers of `[1, baseWeight * 5]` |
| Capture.Slide | screens/UploadandClassifyScreen.tsx:264-270 | moving the slider sets grams to the value and changes nothing else |
| Capture.Release | screens/UploadandClassifyScreen.tsx:271-283 | a successful "{v} g" lookup replaces the snapshot wholesale; a failure alerts and keeps it; grams never change here |
| Capture.ReleaseIdempotent | screens/UploadandClassifyScreen.tsx:271-283 | re-querying the same portion twice gives the same candidate as once |
| Capture.FailedRequeryKeepsStaleSnapshot | screens/UploadandClassifyScreen.tsx:269-283 | after a failed re-query grams hold the new value while the snapshot is the previous one |
| Capture.ItemOf | screens/UploadandClassifyScreen.tsx:115-122 | the item has the concept's name and the current grams; each macro comes from the snapshot, or 0 when absent |
| Capture.AddToMeal | screens/UploadandClassifyScreen.tsx:112-135 | with no result or no snapshot it does nothing; with a target it requests the first matching meal extended by the item, or nothing if the target is missing; without one it appends the item to the draft and clears the candidate |
| Capture.Dispatch | screens/UploadandClassifyScreen.tsx:124-153 | an add request prepends the new meal, an update request replaces by id, no request leaves the store as it was; goals are never touched |
| Capture.AddToExistingMeal | screens/UploadandClassifyScreen.tsx:124-128 | with unique ids, the target meal's items become `old ++ [item]`, its other fields stay, and no other meal changes |
| Capture.AddToMissingMeal | screens/UploadandClassifyScreen.tsx:124-126 | a target id that is not in the list modifies no meal |
| Capture.CommitMeal | screens/UploadandClassifyScreen.tsx:137-159 | without a target it adds a meal named after the draft or "Meal", dated today, holding the draft in order (even when empty); with a target it extends that meal by all draft items; name and draft are cleared |
| Capture.CommitNewMealLandsFirst | screens/UploadandClassifyScreen.tsx:139-152 | the committed new meal becomes the first meal of the store and the rest is unchanged |
| Capture.CommitToExistingMeal | screens/UploadandClassifyScreen.tsx:148-151 | committing to a target extends its items by the whole draft in order and changes no other meal |
| Capture.EmptyTargetGivesEmptyId | screens/UploadandClassifyScreen.tsx:141-152 | an empty `mealId` counts as no target, and the new meal gets the empty id |

## Left out

- Remote store internals (meals.tsx): authentication, collection paths, server timestamps and merge writes. Each remote call is reduced to success or failure.
- The classifier and nutrition HTTP clients (app/utils/ClassifyFood.ts, app/utils/nutritionixService.ts). Their results are inputs, and the base64 file read is left out.
- Rendering of the nutrition query string. The lookup receives the structured query ("1 serving" or "{n} g" of a food) instead of text.
- Clock values: the `Date.now()` id, the ISO date and the time label are parameters.
- JSON serialisation of cache entries. The cache is a record of two optional entries, 'meals' and 'goals'.
- Cache reads that throw. If `getItem` throws, the mount-time load is aborted; that case is not modelled.
- Concurrency. Each mutation reads the list captured at render, and two mutations can race. A classify response can also arrive after a reset. Operations are modelled as strictly sequential.
- The `classifying` busy flag, modal visibility, navigation (`router.back`, `router.replace`), picker permissions and styles.
- Floating-point behaviour: confidences and macros are reals, and only their ordering and pass-through are modelled.
- Daily aggregation and progress rings. These live in the home and profile screens, outside this model.
- Logging. The `console.warn` and `console.error` calls of the meal store's error paths have no observable effect on state and are dropped.
