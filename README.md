# Nutrition tracker core, modelled in Dafny

This project models the logic of a nutrition and fitness tracker and proves properties about it. The tracker has a Go backend and a Next.js frontend. Five parts are modelled:

- **The in-memory repository** (`MemoryRepository`, `repository.dfy`). It holds four tables: conditions, meals, workouts and progress entries. Each table is a sequence of records (`records.dfy`) and is a field of a class whose methods change it in place. IDs are handed out as length + 1. Get and Update find the first row with an ID and fail with `ErrNoRows` when none has it. The List queries filter in store order, count the matches as `total`, and cut an offset/limit page. The class invariant `Valid()` says that row i of every table carries ID i + 1. Every mutating method preserves it. Under it, a Get succeeds exactly for IDs 1..length. The meaning of a table (lookup, filter, page) is defined once, in `tables.dfy`.
- **The two list pages** (`MealsClient`, `WorkoutsClient`). Each page checks its form inputs before Apply. Prev, Next and Load more compute a new offset. When a fetch ends, the page updates its state. The fetch result is a parameter `FetchOutcome` with three cases: `Fetched(rows, total)`, `HttpError(status)` or `SchemaError(issues)`. Both pages share the checks, the offsets and the update rule (`list_paging.dfy`). The inputs are held as the values `Number(text)` gives them. A JavaScript number is modelled as finite, +Infinity, -Infinity or NaN (`js_numbers.dfy`).
- **The response validators** (`api_validator.dfy`). They are predicates over a JSON-like value (`json_values.dfy`). Two of them run `every` over a list whose elements may be null. Reading a property of a null element throws, so those two return a `Completion`: `Returns(b)` or `Throws`.
- **The navigation rule** (`isActive`, `layout.dfy`). A nav item is active when the path equals its href or continues below it after a slash.
- **Case-insensitive search** (`containsFold`, `text.dfy`). It lower-cases both strings and then runs a substring search.

## Model

| member | source | states |
|---|---|---|
| Text.Lower | backend/internal/data/repository.go:331-332 | lower-casing keeps the length, leaves no upper-case letter, turns each upper-case letter into its lower-case partner in place and leaves every other character unchanged |
| Text.Contains | backend/internal/data/repository.go:333 | definition of `strings.Contains` as a left-to-right search; meaning stated by `Text.ContainsIffOccurs` |
| Text.ContainsFold | backend/internal/data/repository.go:330-334 | definition of `containsFold` (lower-case both, then search); meaning stated by `Text.ContainsFoldIffWindow` and `Text.ContainsFoldIgnoresCase` |
| Text.ContainsIffOccurs | backend/internal/data/repository.go:333 | the substring search succeeds exactly when `sub` occurs at some position of `s` (both directions) |
| Text.ContainsFoldIffWindow | backend/internal/data/repository.go:330-334 | `containsFold(s, q)` holds exactly when some window of `s` equals `q` up to case |
| Text.ContainsFoldIgnoresCase | backend/internal/data/repository.go:330-334 | lower-casing either argument first does not change the answer |
| Tables.FirstIndexOf | backend/internal/data/repository.go:238-241 | the scan returns the first position whose row has the ID, and none only when no row has it |
| Tables.Lookup | backend/internal/data/repository.go:238-241 | definition of the Get* scan (first row with the ID, or `ErrNoRows`) on top of `FirstIndexOf`; meaning under the ID invariant stated by `Tables.SequentialLookup` |
| Tables.SequentialFind | backend/internal/data/repository.go:232-236 | when row i has ID i + 1, the first row with ID `key` exists iff 1 <= key <= length, and it is at key - 1 |
| Tables.SequentialLookup | backend/internal/data/repository.go:276-279 | when row i has ID i + 1, a lookup succeeds iff 1 <= key <= length and then returns row key - 1 |
| Tables.Filter | backend/internal/data/repository.go:262-268 | the filtered rows are at most as many as the table's rows, and each of them is in the table and passes |
| Tables.FilterComplete | backend/internal/data/repository.go:262-268 | no row that passes is dropped |
| Tables.FilterCount | backend/internal/data/repository.go:269 | the number of filtered rows is the number of table positions whose row passes |
| Tables.FilterKeepsOrder | backend/internal/data/repository.go:262-268 | filtering a table whose row i has ID i + 1 yields strictly increasing IDs (store order) |
| Tables.Page | backend/internal/data/repository.go:270-273 | the page has min(limit, total - offset) rows (none once offset reaches total), and row k of the page is filtered row offset + k; defined exactly when Go's slice does not panic |
| Tables.PageWithinLimit | backend/internal/data/repository.go:270-273 | a page never exceeds `limit` rows and holds only filtered rows |
| Tables.PagesConcatenate | backend/internal/data/repository.go:270-273 | the page at offset o with limit a, followed by the page at o + a with limit b, is the page at o with limit a + b |
| Tables.PageKeepsOrder | backend/internal/data/repository.go:270-273 | a page cut from rows in ID order is in ID order |
| Repository.MealMatches | backend/internal/data/repository.go:264-266 | definition of the three meal filters (name contains `q` up to case when `q` is non-empty; calories within each bound that is >= 0); its use stated by `Repository.MemoryRepository.ListMeals` (every returned meal matches, `total` counts the matches) |
| Repository.WorkoutMatches | backend/internal/data/repository.go:295 | definition of the workout filter (type equals a non-empty filter); its use stated by `Repository.MemoryRepository.ListWorkouts` |
| Repository.MemoryRepository.constructor | backend/internal/data/repository.go:228 | four empty tables, invariant established |
| Repository.MemoryRepository.ListConditions | backend/internal/data/repository.go:230 | returns the conditions table as stored |
| Repository.MemoryRepository.CreateCondition | backend/internal/data/repository.go:232-236 | returns old length + 1 and appends exactly one condition carrying that ID; other tables unchanged; invariant kept |
| Repository.MemoryRepository.GetCondition | backend/internal/data/repository.go:238-241 | the result is the first condition with the ID, or ErrNoRows; under the invariant it succeeds iff 1 <= id <= length and returns row id - 1 |
| Repository.MemoryRepository.UpdateCondition | backend/internal/data/repository.go:243-246 | only the first matching row changes, taking the new name and type and keeping ID `id`; on a miss it returns ErrNoRows and nothing changes; it succeeds iff 1 <= id <= length |
| Repository.MemoryRepository.StoreMeals | backend/internal/data/repository.go:248-251 | the table grows by the n given meals, in input order, numbered old + 1 .. old + n; invariant kept |
| Repository.MemoryRepository.StoreWorkouts | backend/internal/data/repository.go:252-255 | the same for workouts |
| Repository.MemoryRepository.StoreProgress | backend/internal/data/repository.go:256-259 | the same for progress entries |
| Repository.MemoryRepository.ListMeals | backend/internal/data/repository.go:261-274 | the page is the offset/limit page of the meals passing every active filter (query, min, max) in store order; `total` is the number of passing meals whatever the offset and limit; every returned meal passes; IDs increase |
| Repository.MemoryRepository.GetMeal | backend/internal/data/repository.go:276-279 | the first meal with the ID, or ErrNoRows; under the invariant it succeeds iff 1 <= id <= length |
| Repository.MemoryRepository.CreateMeal | backend/internal/data/repository.go:281-285 | returns old length + 1, appends the meal stored under that ID, leaves earlier rows and other tables unchanged |
| Repository.MemoryRepository.UpdateMeal | backend/internal/data/repository.go:287-290 | replaces only the first matching meal, stored under ID `id`; a miss returns ErrNoRows with no change; succeeds iff 1 <= id <= length |
| Repository.MemoryRepository.ListWorkouts | backend/internal/data/repository.go:292-303 | the page of the workouts whose type equals the filter (all when it is empty); `total` counts them; every returned workout passes; IDs increase |
| Repository.MemoryRepository.GetWorkout | backend/internal/data/repository.go:305-308 | the first workout with the ID, or ErrNoRows; under the invariant it succeeds iff 1 <= id <= length |
| Repository.MemoryRepository.CreateWorkout | backend/internal/data/repository.go:310-314 | returns old length + 1 and appends the workout under that ID |
| Repository.MemoryRepository.UpdateWorkout | backend/internal/data/repository.go:316-319 | replaces only the first matching workout, stored under ID `id`; a miss returns ErrNoRows with no change |
| Repository.MemoryRepository.ListProgress | backend/internal/data/repository.go:321-328 | the date range is ignored: the page of all entries in insertion order, `total` the table length, row k carrying ID offset + k + 1 |
| Repository.CreateThenRenameCondition | frontend/e2e/pagination-cache.spec.ts:52-64 | after creating a condition and updating it by its returned ID, the condition list contains the new name |
| JsNumbers.MaxZeroNeverNegative | frontend/src/app/meals/MealsClient.tsx:65 | `Math.max(0, x)` is never below zero, is NaN only for NaN, and is x when x is not below zero |
| JsNumbers.IntegerArithmetic | frontend/src/app/meals/MealsClient.tsx:65-67 | on integers, JavaScript `+`, `-`, `Math.max(0, _)` and `<` agree with integer arithmetic |
| ListPaging.LimitRejected | frontend/src/app/meals/MealsClient.tsx:25 | definition of the limit check on `Number(limit)`; meaning stated by `ListPaging.LimitRejectedIff` |
| ListPaging.LimitRejectedIff | frontend/src/app/meals/MealsClient.tsx:25 | the limit check passes exactly for the integers 1..100 |
| ListPaging.OffsetRejected | frontend/src/app/meals/MealsClient.tsx:26 | definition of the offset check on `Number(offset)`; meaning stated by `ListPaging.OffsetRejectedIff` |
| ListPaging.OffsetRejectedIff | frontend/src/app/meals/MealsClient.tsx:26 | the offset check passes exactly for the non-negative integers |
| ListPaging.MergeRows | frontend/src/app/meals/MealsClient.tsx:51-55 | on join with rows present, the old rows come first and the fetched rows follow; otherwise the fetched rows replace them; the total is the fetched one |
| ListPaging.AfterFetch | frontend/src/app/meals/MealsClient.tsx:33-57 | definition of the page state after one fetch ends; meaning stated by `ListPaging.FailedFetchKeepsPage`, `ListPaging.LoadMoreGrows` and `ListPaging.LoadMoreShowsLongerPage` |
| ListPaging.FailedFetchKeepsPage | frontend/src/app/meals/MealsClient.tsx:42-56 | after an HTTP or schema failure the rows and offset are unchanged, and only the error or the issues are set; the offset changes only after success; for each of the three modelled outcomes loading ends false |
| ListPaging.LoadMoreGrows | frontend/src/app/meals/MealsClient.tsx:51-56 | a successful load-more leaves old rows ++ fetched rows, so the count never decreases, and moves the offset |
| ListPaging.PrevOffset | frontend/src/app/meals/MealsClient.tsx:65 | definition of Prev's offset `Math.max(0, offset - limit)`; meaning stated by `ListPaging.NavigationOffsets` and `ListPaging.PrevNeverNegative` |
| ListPaging.NextOffset | frontend/src/app/meals/MealsClient.tsx:66-67 | definition of the Next and Load more offset `offset + limit`; meaning stated by `ListPaging.NavigationOffsets` |
| ListPaging.PrevEnabled | frontend/src/app/meals/MealsClient.tsx:90 | definition of when the Prev button is enabled; used by `ListPaging.NavigationOffsets` |
| ListPaging.NavigationOffsets | frontend/src/app/meals/MealsClient.tsx:65-67 | for any integer offset and limit, Prev asks for max(0, offset - limit), strictly below the offset when the limit is positive and the Prev button is enabled; Next and Load more ask for offset + limit |
| ListPaging.PrevNeverNegative | frontend/src/app/meals/MealsClient.tsx:65 | whatever the inputs, Prev never asks for a negative offset |
| ListPaging.LoadMoreShowsLongerPage | frontend/src/app/meals/MealsClient.tsx:67 | if the list shows backend page (offset, limit) and load-more fetches page (offset + limit, limit), the list becomes page (offset, 2 * limit) |
| MealsList.BoundRejected | frontend/src/app/meals/MealsClient.tsx:27-28 | definition of the min/max calorie check on a non-blank bound; meaning stated by `MealsList.ValidationMessages` |
| MealsList.BoundsCrossed | frontend/src/app/meals/MealsClient.tsx:29 | definition of the min-above-max check; meaning stated by `MealsList.ValidationMessages` |
| MealsList.Validation | frontend/src/app/meals/MealsClient.tsx:19-31 | definition of the five-message validation list in order; meaning stated by `MealsList.ValidationMessages`, `MealsList.ValidationEmptyIff` and `MealsList.ValidationExamples` |
| MealsList.ValidationMessages | frontend/src/app/meals/MealsClient.tsx:19-31 | each of the five messages shows exactly when its check fails: limit not an integer in 1..100, offset not a non-negative integer, a given bound not finite or negative, both bounds given with min > max; an empty field is skipped |
| MealsList.ValidationEmptyIff | frontend/src/app/meals/MealsClient.tsx:19-31 | validation is empty exactly when all five checks pass |
| MealsList.ValidationExamples | frontend/e2e/pagination-cache.spec.ts:12-26 | step by step as in the test: limit 1000 gives exactly the limit message; offset -1 then adds the offset message; min 500 with max 100 then adds "Min cannot exceed max"; the default form gives no message |
| MealsList.MealsClient.constructor | frontend/src/app/meals/MealsClient.tsx:8-17 | limit defaults to 20 and offset to 0 when falsy; no fetch running, no error, no issues |
| MealsList.MealsClient.EditForm | frontend/src/app/meals/MealsClient.tsx:72-76 | typing changes the inputs and nothing else |
| MealsList.MealsClient.FetchPage | frontend/src/app/meals/MealsClient.tsx:33-57 | the page state becomes the fetch-end rule applied to the old state; filters and limit unchanged |
| MealsList.MealsClient.Apply | frontend/src/app/meals/MealsClient.tsx:59-63 | with a validation message nothing changes; otherwise the fetch-end rule for offset 0 in replace mode |
| MealsList.MealsClient.Prev | frontend/src/app/meals/MealsClient.tsx:65 | fetches max(0, offset - limit) in replace mode |
| MealsList.MealsClient.Next | frontend/src/app/meals/MealsClient.tsx:66 | fetches offset + limit in replace mode |
| MealsList.MealsClient.LoadMore | frontend/src/app/meals/MealsClient.tsx:67 | fetches offset + limit in append mode |
| WorkoutsList.Validation | frontend/src/app/workouts/WorkoutsClient.tsx:17-24 | definition of the two-message validation list; meaning stated by `WorkoutsList.ValidationMessages` |
| WorkoutsList.ValidationMessages | frontend/src/app/workouts/WorkoutsClient.tsx:17-24 | the limit and offset messages show exactly when their checks fail; validation is empty exactly when both pass; the type filter takes no part |
| WorkoutsList.WorkoutsClient.constructor | frontend/src/app/workouts/WorkoutsClient.tsx:8-15 | limit defaults to 20 and offset to 0 when falsy; no error, no issues |
| WorkoutsList.WorkoutsClient.EditForm | frontend/src/app/workouts/WorkoutsClient.tsx:59-61 | typing changes the inputs and nothing else |
| WorkoutsList.WorkoutsClient.FetchPage | frontend/src/app/workouts/WorkoutsClient.tsx:26-44 | the page state becomes the fetch-end rule applied to the old state |
| WorkoutsList.WorkoutsClient.Apply | frontend/src/app/workouts/WorkoutsClient.tsx:46-50 | blocked while validation is non-empty; otherwise offset 0 in replace mode |
| WorkoutsList.WorkoutsClient.Prev | frontend/src/app/workouts/WorkoutsClient.tsx:52 | fetches max(0, offset - limit) in replace mode |
| WorkoutsList.WorkoutsClient.Next | frontend/src/app/workouts/WorkoutsClient.tsx:53 | fetches offset + limit in replace mode |
| WorkoutsList.WorkoutsClient.LoadMore | frontend/src/app/workouts/WorkoutsClient.tsx:54 | fetches offset + limit, appending the workouts after the existing ones |
| ApiValidator.Every | frontend/src/lib/api-validator.ts:87-91 | definition of the short-circuiting `Array.prototype.every` with a check that may throw; meaning stated by `ApiValidator.EveryTrueIff`, `ApiValidator.EveryThrowsAt` and `ApiValidator.EveryNeverThrows` |
| ApiValidator.WeightEntryCheck | frontend/src/lib/api-validator.ts:87-91 | definition of the progress entry check, which throws on a null entry; meaning stated by `ApiValidator.WeightProgressAcceptsIff` and `ApiValidator.NullProgressEntryThrows` |
| ApiValidator.MeasurementEntryCheck | frontend/src/lib/api-validator.ts:100-103 | definition of the measurement entry check; meaning stated by `ApiValidator.MeasurementsAcceptsIff` |
| ApiValidator.EveryTrueIff | frontend/src/lib/api-validator.ts:87-91 | `every` returns true exactly when every element's check returns true |
| ApiValidator.EveryThrowsAt | frontend/src/lib/api-validator.ts:87-91 | `every` throws when an element throws after only passing elements |
| ApiValidator.EveryNeverThrows | frontend/src/lib/api-validator.ts:87-91 | `every` does not throw when no element's check throws |
| ApiValidator.ValidateUserResponse | frontend/src/lib/api-validator.ts:8-16 | definition of `validateUserResponse`; meaning stated by `ApiValidator.RecordValidatorsIff` |
| ApiValidator.ValidateMealResponse | frontend/src/lib/api-validator.ts:18-29 | definition of `validateMealResponse`; meaning stated by `ApiValidator.RecordValidatorsIff` and `ApiValidator.NumericMealIdRejected` |
| ApiValidator.ValidateMealsResponse | frontend/src/lib/api-validator.ts:31-38 | definition of `validateMealsResponse`; meaning stated by `ApiValidator.ListValidatorsIff` |
| ApiValidator.ValidateMealPlanResponse | frontend/src/lib/api-validator.ts:40-49 | definition of `validateMealPlanResponse`; meaning stated by `ApiValidator.RecordValidatorsIff` |
| ApiValidator.ValidateWorkoutResponse | frontend/src/lib/api-validator.ts:51-61 | definition of `validateWorkoutResponse`; meaning stated by `ApiValidator.RecordValidatorsIff` |
| ApiValidator.ValidateWorkoutsResponse | frontend/src/lib/api-validator.ts:63-69 | definition of `validateWorkoutsResponse`; meaning stated by `ApiValidator.ListValidatorsIff` |
| ApiValidator.ValidateWorkoutPlanResponse | frontend/src/lib/api-validator.ts:71-80 | definition of `validateWorkoutPlanResponse`; meaning stated by `ApiValidator.RecordValidatorsIff` |
| ApiValidator.ValidateWeightProgressResponse | frontend/src/lib/api-validator.ts:82-93 | definition of `validateWeightProgressResponse`, which returns or throws; meaning stated by `ApiValidator.WeightProgressAcceptsIff`, `ApiValidator.NullProgressEntryThrows` and `ApiValidator.NoNullEntryNeverThrows` |
| ApiValidator.ValidateMeasurementsResponse | frontend/src/lib/api-validator.ts:95-105 | definition of `validateMeasurementsResponse`, which returns or throws; meaning stated by `ApiValidator.MeasurementsAcceptsIff` |
| ApiValidator.ValidateLoginResponse | frontend/src/lib/api-validator.ts:107-114 | definition of `validateLoginResponse`; meaning stated by `ApiValidator.LoginResponseIff` and `ApiValidator.LoginAcceptsNullUser` |
| ApiValidator.RejectsNullAndNonObjects | frontend/src/lib/api-validator.ts:8-114 | every validator returns false for null and for any value whose typeof is not "object" |
| ApiValidator.RecordValidatorsIff | frontend/src/lib/api-validator.ts:8-80 | the user, meal, meal-plan, workout and workout-plan validators accept exactly the objects carrying each named field with the named type |
| ApiValidator.NumericMealIdRejected | frontend/src/lib/api-validator.ts:18-29 | a meal whose id is a number is rejected |
| ApiValidator.MealToJson | backend/internal/data/models.go:9-16 | definition of the JSON object the Go `Meal` struct tags produce; used by `ApiValidator.BackendMealRejected` |
| ApiValidator.BackendMealRejected | backend/internal/data/models.go:9-16 | a meal as the Go backend encodes it (numeric `id`) never passes `validateMealResponse` |
| ApiValidator.ListValidatorsIff | frontend/src/lib/api-validator.ts:31-69 | the meals validator needs an array `meals` and a `total` that is a number or absent; the workouts validator needs an array `workouts` |
| ApiValidator.MealsElementsUnchecked | frontend/src/lib/api-validator.ts:31-69 | swapping the list's elements never changes the meals or workouts verdict |
| ApiValidator.WeightProgressAcceptsIff | frontend/src/lib/api-validator.ts:82-93 | true exactly when `progress` is an array whose every element is an object with a string date and a numeric weight |
| ApiValidator.EmptyProgressValid | frontend/src/lib/api-validator.ts:82-105 | an empty progress or measurements list is valid |
| ApiValidator.NullProgressEntryThrows | frontend/src/lib/api-validator.ts:87-91 | a null entry after only valid entries makes the progress validator throw instead of returning false |
| ApiValidator.NoNullEntryNeverThrows | frontend/src/lib/api-validator.ts:82-93 | without null entries the progress validator never throws |
| ApiValidator.MeasurementsAcceptsIff | frontend/src/lib/api-validator.ts:95-105 | true exactly when every measurement entry is an object with a string date; nothing else is checked |
| ApiValidator.LoginResponseIff | frontend/src/lib/api-validator.ts:107-114 | needs a string token and a `user` that is null, an array or an object |
| ApiValidator.LoginAcceptsNullUser | frontend/src/lib/api-validator.ts:107-114 | a null user is accepted and a missing user is rejected |
| Layout.IsActive | frontend/src/components/Layout.tsx:28 | definition of `isActive` over an optional pathname; meaning stated by `Layout.IsActiveIff` |
| Layout.IsActiveIff | frontend/src/components/Layout.tsx:28 | active exactly when the href is a prefix of the path and the path ends there or continues with '/'; a missing pathname is never active |
| Layout.BarePrefixNotActive | frontend/src/components/Layout.tsx:28 | the exact path and any descendant path make the item active, but a bare string extension such as `/mealsx` does not, nor does the href without its last character |
| Layout.NullNeverActive | frontend/src/components/Layout.tsx:28 | a null or undefined pathname activates no item |
| Layout.BothActiveNested | frontend/src/components/Layout.tsx:28 | two hrefs active for one path are equal or one lies below the other after a slash |
| Layout.AtMostOneActive | frontend/src/components/Layout.tsx:20-28 | for any pathname at most one of the five nav items is active |
| Layout.NavHrefsNotNested | frontend/src/components/Layout.tsx:20-26 | no nav href is another one followed by a slash and more |

## Left out

- `PGRepository` (the SQL repository) is not modelled. It is I/O over `database/sql`, with transactions and row scanning.
- The request context of every repository method is left out. Nothing in the in-memory repository reads it.
- `ListConditions` and `ListProgress` return the Go slice itself (a sub-slice of it for `ListProgress`), which shares its backing array with the repository. The model returns a value, so aliasing is not modelled.
- `ListMeals`, `ListWorkouts` and `ListProgress` require `0 <= offset`, and `0 <= limit` unless the offset lies past the total. Outside that range the Go slice expression panics; the model does not cover the panic.
- Go's `int` is 64 bits wide. The model uses unbounded integers, so an `offset + limit` overflow is not modelled.
- `containsFold` lower-cases with `strings.ToLower`, which folds all of Unicode. The model folds only ASCII letters.
- `Progress.Weight` is a float64. It is modelled as a real, and no operation computes with it.
- Several inputs are given to the model already parsed:
  - the text fields' `Number(text)` values;
  - a calorie bound, as blank or a number;
  - the fetch outcome, as a parameter.
- Not modelled: the network, the URL and query string a page sends, the zod schema check (its result is the outcome), and the rendering.
- A JavaScript number is modelled as a real or one of three special values. Double rounding is not modelled.
- A page's `fetchPage` is modelled only for three outcomes: rows fetched, an HTTP error status, or a schema failure. When `fetch` rejects or `res.json()` throws, the source leaves `loading` true with no error, so Prev, Next and Load more stay disabled until a later fetch (for example one started by Apply, which is never disabled) completes; the model does not cover that path.
- A page's `fetchPage` reads `data` as captured when the page last rendered. The model runs one fetch at a time, so overlapping fetches and their interleavings are not modelled.
- `MealsList.MealsClient.constructor` and `WorkoutsList.WorkoutsClient.constructor` take the initial `data` as no list or a list of rows. Server data whose `meals` or `workouts` field is truthy but not an array is not modelled. In the source, a later Load more spreads that value into the merged list (MealsClient.tsx line 52, WorkoutsClient.tsx line 39): the spread throws when the value cannot be iterated and splices in the characters of a string.
- `isActive` reads the pathname from the router. The model takes it as a parameter.
- The other pages, the HTTP server stubs, the API client with its retry interceptor, the health polling and the auth provider are not modelled.
