# FoodieApp meal store, modelled in Dafny

This project models the in-memory meal list of the FoodieApp mobile app. `MealProvider`
(context/MealContext.tsx) keeps that list in a React state cell. The cell starts with two seed
meals. Three operations each replace it with a new list computed from the previous one:

- `addMeal` gives the new record an id taken from the clock and puts it at the front.
- `updateMeal` merges a partial record into every entry with a given id. Fields in the patch win.
- `deleteMeal` filters out every entry with a given id.

The record shape comes from types/meal.ts.

Files:

- `Wrappers.dfy`: the `Option` datatype.
- `Meals.dfy`: the `Meal` record, the `Omit<Meal, 'id'>` input (`MealInput`), the
  `Partial<Meal>` patch (`Patch`) and the object-spread merge (`Merge`).
- `MealContext.dfy`: the seed list and the list operations as pure functions (`Seed`, `Add`,
  `Update`, `Delete`), with lemmas. The id generator `Date.now().toString()` is `DecimalString` of the clock reading.
  The state cell is the class `MealProvider`. Its `meals` field is reassigned by `AddMeal`,
  `UpdateMeal` and `DeleteMeal`, and each method's `ensures` ties the new list to the matching
  pure function.

How the model handles the source's details:

- A patch key can be absent, or present with the value `undefined`. The spread copies a present
  `undefined` and so clears an optional field. An optional field of `Patch` is therefore an
  `Option<Option<T>>`: `None` means the key is absent, and `Some(None)` means it is present as
  `undefined`.
- TypeScript `number` (rating, price) is `real`.
- The clock is a parameter. It is the millisecond reading `now` for ids, and the two ISO date
  strings for the seed list.
- Ids are not assumed unique, because the code never checks that. Lemmas state uniqueness as an
  explicit precondition where they need it, and prove which operations preserve it.

What the store's code does with updates:

- The store merges the patch locally (context/MealContext.tsx:51). Nothing stops a patch from
  carrying `id`, and such a patch renames every matching entry (`UpdateCanChangeId`).
- context/MealContext.tsx has no backend, validation, loading or error state, search, sort or
  statistics. The screens' search, sort, statistics and form validation
  (app/(tabs)/history.tsx, app/(tabs)/home-content.tsx, app/(tabs)/add.tsx) and the table types
  (types/database.ts) are outside the modelled store.

## Model

| member | source | states |
|---|---|---|
| Meals.WithId | context/MealContext.tsx:42-45 | the added record has the generated id, and every other field equals the supplied input |
| Meals.IdRoundTrip | context/MealContext.tsx:41-45 | dropping a meal's id and adding it back gives the same meal |
| Meals.Merge | context/MealContext.tsx:51 | in `{ ...meal, ...patch }`, every key present in the patch takes the patch's value, and every absent key keeps the meal's value |
| Meals.MergeDetermined | context/MealContext.tsx:51 | those two properties fix the merged record uniquely |
| Meals.MergeEmpty | context/MealContext.tsx:51 | merging the empty patch `{}` changes nothing |
| Meals.MergeIdempotent | context/MealContext.tsx:51 | merging the same patch twice gives the same result as merging it once |
| MealContext.DecimalString | context/MealContext.tsx:44 | the printed id is a non-empty string of decimal digits with no leading zero |
| MealContext.DecimalRoundTrip | context/MealContext.tsx:44 | reading the printed digits back gives the clock value |
| MealContext.DecimalStringInjective | context/MealContext.tsx:44 | two clock readings give equal ids if and only if they are equal |
| MealContext.Seed | context/MealContext.tsx:14-39 | the initial list has two meals, with ids "1" and "2" in that order, so its ids are unique; their dates are the two given date strings |
| MealContext.Add | context/MealContext.tsx:46 | the length grows by one; element 0 has the fresh id and carries the input; the rest is the previous list exactly |
| MealContext.AddKeepsUnique | context/MealContext.tsx:41-46 | on a list with unique ids, adding keeps them unique if and only if the fresh id is not already in the list |
| MealContext.AddThenDelete | context/MealContext.tsx:41-57 | deleting a just-added meal by its fresh id, when that id was new, restores the previous list |
| MealContext.Update | context/MealContext.tsx:50-52 | the length and positions are kept; entries with another id are untouched; each matching entry becomes its merge with the patch |
| MealContext.UpdateAbsent | context/MealContext.tsx:50-52 | updating an id that no entry has leaves the list unchanged |
| MealContext.UpdateEmptyPatch | context/MealContext.tsx:50-52 | updating with an empty patch leaves the list unchanged |
| MealContext.UpdateIdempotent | context/MealContext.tsx:50-52 | applying the same update twice gives the same list as applying it once, for any patch |
| MealContext.UpdateKeepsIds | context/MealContext.tsx:50-52 | a patch with no `id` key keeps the id sequence of the list |
| MealContext.UpdateKeepsUnique | context/MealContext.tsx:50-52 | a patch with no `id` key keeps unique ids unique |
| MealContext.UpdateCanChangeId | context/MealContext.tsx:51 | a patch that carries `id` renames the matching entry, so the code does not guarantee that ids stay the same |
| MealContext.UpdateThenDelete | context/MealContext.tsx:49-57 | deleting an id after an update with no `id` key removes the same entries as deleting without the update |
| MealContext.Delete | context/MealContext.tsx:56 | the result is no longer than the input and no entry has the id; a meal is in the result if and only if it was in the list and has another id |
| MealContext.DeleteAbsent | context/MealContext.tsx:56 | deleting an id that no entry has leaves the list unchanged |
| MealContext.DeleteIdempotent | context/MealContext.tsx:56 | deleting twice gives the same list as deleting once |
| MealContext.DeleteIndices | context/MealContext.tsx:56 | the result is the ordered subsequence of the list made of exactly the positions whose id differs |
| MealContext.DeleteKeepsUnique | context/MealContext.tsx:56 | deleting keeps unique ids unique |
| MealContext.DeleteCommutes | context/MealContext.tsx:56 | deleting two ids in either order gives the same list |
| MealContext.AddUpdateDelete | context/MealContext.tsx:41-57 | from an empty list: add a meal rated 4, patch its rating to 2, then delete it; the list has 1 entry rated 4, then 1 entry rated 2 with the same id, then is empty |
| MealContext.MealProvider.constructor | context/MealContext.tsx:14-39 | the state cell starts as the seed list |
| MealContext.MealProvider.AddMeal | context/MealContext.tsx:41-47 | the new list is `Add` of the old one, using the decimal clock id; its head carries the input, and its tail is the old list |
| MealContext.MealProvider.UpdateMeal | context/MealContext.tsx:49-53 | the new list is `Update` of the old one; its length is kept, and entries with other ids are untouched |
| MealContext.MealProvider.DeleteMeal | context/MealContext.tsx:55-57 | the new list is `Delete` of the old one, and no entry has the id |

## Left out

- The React plumbing is not modelled: `createContext`, the provider component, re-rendering, and the `useMeals` guard that throws outside a provider (context/MealContext.tsx:66-72). It carries no list logic.
- Functional `setMeals(prev => ...)` updates are modelled as one atomic replacement of the list per call. The batching of React state updates is not modelled.
- MealContext.DecimalString: models `Number.prototype.toString` only in plain decimal form. Clock values of 10^21 or more, which JavaScript prints in exponent form, are not modelled. Neither are negative or fractional clock values.
- MealContext.Seed: takes the two seed dates as independent strings. The source derives the second from a clock read 86400000 ms (24 hours) earlier (context/MealContext.tsx:21,33); that gap is not modelled.
- `number` is modelled as `real`, so NaN and the infinities are not modelled. The store never inspects these fields.
- Meals.Merge: does not model a patch that sets a required field (`restaurantName`, `mealName`, `rating`, `date`, `id`) to an explicit `undefined`. `Partial<Meal>` permits this, and it would leave a record that breaks the `Meal` type.
- Only the core list store is modelled. The UI components, the error boundary, the bundler configuration and the database type declarations are out of scope.
