/**
 * The meal record of types/meal.ts, the two derived shapes the store receives
 * (`Omit<Meal, 'id'>` for a new meal, `Partial<Meal>` for an update), and the
 * object-spread merge `{ ...meal, ...patch }` that applies an update.
 *
 * A TypeScript `number` is modelled as a `real`; the store never inspects one.
 */
module Meals {
  import opened Wrappers

  /** One logged restaurant visit. Optional properties are `Option`s. */
  datatype Meal = Meal(
    id: string,
    restaurantName: string,
    mealName: string,
    description: Option<string>,
    rating: real,
    date: string,
    imageUrl: Option<string>,
    price: Option<real>,
    cuisine: Option<string>,
    location: Option<string>)

  /** `Omit<Meal, 'id'>`: every property of a meal except its id. */
  datatype MealInput = MealInput(
    restaurantName: string,
    mealName: string,
    description: Option<string>,
    rating: real,
    date: string,
    imageUrl: Option<string>,
    price: Option<real>,
    cuisine: Option<string>,
    location: Option<string>)

  /**
   * `Partial<Meal>`: `None` means the key is absent from the patch object.
   * For the record's optional properties the key may also be present with
   * the value `undefined`, which the spread copies over (clearing the field):
   * that is `Some(None)`.
   */
  datatype Patch = Patch(
    id: Option<string>,
    restaurantName: Option<string>,
    mealName: Option<string>,
    description: Option<Option<string>>,
    rating: Option<real>,
    date: Option<string>,
    imageUrl: Option<Option<string>>,
    price: Option<Option<real>>,
    cuisine: Option<Option<string>>,
    location: Option<Option<string>>)

  /** The patch `{}`: no key present. */
  const EmptyPatch: Patch :=
    Patch(None, None, None, None, None, None, None, None, None, None)

  /** The input fields of a meal, that is, the meal with its id dropped. */
  function WithoutId(m: Meal): MealInput {
    MealInput(m.restaurantName, m.mealName, m.description, m.rating, m.date,
              m.imageUrl, m.price, m.cuisine, m.location)
  }

  /** `{ ...input, id }`: the meal carries the given id and every input field unchanged. */
  function WithId(input: MealInput, id: string): (m: Meal)
    ensures m.id == id
    ensures WithoutId(m) == input
  {
    Meal(id, input.restaurantName, input.mealName, input.description, input.rating,
         input.date, input.imageUrl, input.price, input.cuisine, input.location)
  }

  /** Dropping the id and putting it back gives the meal back. */
  lemma IdRoundTrip(m: Meal)
    ensures WithId(WithoutId(m), m.id) == m
  {
  }

  /** Every key present in `p` has the patch's value in `r`. */
  predicate Agrees(r: Meal, p: Patch) {
    && (p.id.Some? ==> r.id == p.id.value)
    && (p.restaurantName.Some? ==> r.restaurantName == p.restaurantName.value)
    && (p.mealName.Some? ==> r.mealName == p.mealName.value)
    && (p.description.Some? ==> r.description == p.description.value)
    && (p.rating.Some? ==> r.rating == p.rating.value)
    && (p.date.Some? ==> r.date == p.date.value)
    && (p.imageUrl.Some? ==> r.imageUrl == p.imageUrl.value)
    && (p.price.Some? ==> r.price == p.price.value)
    && (p.cuisine.Some? ==> r.cuisine == p.cuisine.value)
    && (p.location.Some? ==> r.location == p.location.value)
  }

  /** Every key absent from `p` keeps in `r` the value it has in `m`. */
  predicate KeepsAbsent(r: Meal, m: Meal, p: Patch) {
    && (p.id.None? ==> r.id == m.id)
    && (p.restaurantName.None? ==> r.restaurantName == m.restaurantName)
    && (p.mealName.None? ==> r.mealName == m.mealName)
    && (p.description.None? ==> r.description == m.description)
    && (p.rating.None? ==> r.rating == m.rating)
    && (p.date.None? ==> r.date == m.date)
    && (p.imageUrl.None? ==> r.imageUrl == m.imageUrl)
    && (p.price.None? ==> r.price == m.price)
    && (p.cuisine.None? ==> r.cuisine == m.cuisine)
    && (p.location.None? ==> r.location == m.location)
  }

  /** `{ ...m, ...p }`: the patch's present keys win, every other field is kept. */
  function Merge(m: Meal, p: Patch): (r: Meal)
    ensures Agrees(r, p)
    ensures KeepsAbsent(r, m, p)
  {
    Meal(p.id.GetOr(m.id), p.restaurantName.GetOr(m.restaurantName),
         p.mealName.GetOr(m.mealName), p.description.GetOr(m.description),
         p.rating.GetOr(m.rating), p.date.GetOr(m.date), p.imageUrl.GetOr(m.imageUrl),
         p.price.GetOr(m.price), p.cuisine.GetOr(m.cuisine), p.location.GetOr(m.location))
  }

  /** The two halves of Merge's contract determine the merged record. */
  lemma MergeDetermined(m: Meal, p: Patch, r: Meal)
    requires Agrees(r, p) && KeepsAbsent(r, m, p)
    ensures r == Merge(m, p)
  {
  }

  /** Merging the empty patch changes nothing. */
  lemma MergeEmpty(m: Meal)
    ensures Merge(m, EmptyPatch) == m
  {
  }

  /** Merging the same patch twice is merging it once. */
  lemma MergeIdempotent(m: Meal, p: Patch)
    ensures Merge(Merge(m, p), p) == Merge(m, p)
  {
  }
}
