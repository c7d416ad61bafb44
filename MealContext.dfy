/**
 * The meal list kept by `MealProvider` in context/MealContext.tsx: a seed of
 * two meals, and three operations that each replace the list by a new one
 * computed from the previous list — prepend (`addMeal`), pointwise merge
 * (`updateMeal`) and filter (`deleteMeal`).
 *
 * The new lists are pure functions over `seq<Meal>` with their lemmas; the
 * state cell that `setMeals` replaces is the `meals` field of the class
 * `MealProvider` at the end of this module.
 */
module MealContext {
  import opened Wrappers
  import opened Meals

  // ---------------------------------------------------------------------------
  // Ids
  // ---------------------------------------------------------------------------

  /** Some entry of the list carries the id. */
  predicate HasId(meals: seq<Meal>, id: string) {
    exists i :: 0 <= i < |meals| && meals[i].id == id
  }

  /** No two entries of the list share an id. The store never checks this. */
  predicate UniqueIds(meals: seq<Meal>) {
    forall i, j :: 0 <= i < j < |meals| ==> meals[i].id != meals[j].id
  }

  /** The ids of the list, in list order. */
  function Ids(meals: seq<Meal>): seq<string> {
    seq(|meals|, i requires 0 <= i < |meals| => meals[i].id)
  }

  predicate IsDigit(c: char) {
    '0' <= c <= '9'
  }

  function DigitChar(d: nat): (c: char)
    requires d < 10
    ensures IsDigit(c) && c as int - '0' as int == d
  {
    ('0' as int + d) as char
  }

  /** The decimal digits of `n`, most significant first, as `Number.prototype.toString` prints an integer. */
  function DecimalString(n: nat): (s: string)
    ensures |s| >= 1
    ensures forall i :: 0 <= i < |s| ==> IsDigit(s[i])
    ensures s[0] == '0' ==> n == 0
  {
    if n < 10 then [DigitChar(n)] else DecimalString(n / 10) + [DigitChar(n % 10)]
  }

  /** The number a string of decimal digits denotes. */
  function DecimalValue(s: string): nat
    requires forall i :: 0 <= i < |s| ==> IsDigit(s[i])
  {
    if s == [] then 0
    else
      assert IsDigit(s[|s| - 1]);
      10 * DecimalValue(s[..|s| - 1]) + (s[|s| - 1] as int - '0' as int)
  }

  /** Reading back the printed digits gives the number. */
  lemma {:induction false} DecimalRoundTrip(n: nat)
    ensures DecimalValue(DecimalString(n)) == n
  {
    var s := DecimalString(n);
    if n >= 10 {
      DecimalRoundTrip(n / 10);
      assert s[..|s| - 1] == DecimalString(n / 10);
    }
  }

  /**
   * `addMeal` uses `DecimalString(now)` for the clock reading `now` in
   * milliseconds (`Date.now().toString()`): two clock readings give the same
   * id exactly when they are the same reading.
   */
  lemma DecimalStringInjective(a: nat, b: nat)
    ensures DecimalString(a) == DecimalString(b) <==> a == b
  {
    DecimalRoundTrip(a);
    DecimalRoundTrip(b);
  }

  // ---------------------------------------------------------------------------
  // Seed list
  // ---------------------------------------------------------------------------

  /**
   * The initial list. The two dates are clock reads in the source (now, and
   * one day earlier, as ISO strings) and are parameters here.
   */
  function Seed(today: string, yesterday: string): (r: seq<Meal>)
    ensures |r| == 2 && Ids(r) == ["1", "2"]
    ensures UniqueIds(r)
    ensures r[0].date == today && r[1].date == yesterday
  {
    [ Meal("1", "The Garden Bistro", "Truffle Pasta",
           Some("Handmade pasta with black truffle and parmesan"), 5.0, today,
           Some("https://images.pexels.com/photos/1279330/pexels-photo-1279330.jpeg"),
           Some(32.0), Some("Italian"), Some("Downtown")),
      Meal("2", "Sakura Sushi", "Omakase Selection",
           Some("Chef's choice of fresh sashimi and nigiri"), 4.0, yesterday,
           Some("https://images.pexels.com/photos/248444/pexels-photo-248444.jpeg"),
           Some(65.0), Some("Japanese"), Some("Midtown")) ]
  }

  // ---------------------------------------------------------------------------
  // addMeal: `[newMeal, ...prev]`
  // ---------------------------------------------------------------------------

  /** The list after adding `input` under `freshId`: the new meal first, then the old list. */
  function Add(meals: seq<Meal>, input: MealInput, freshId: string): (r: seq<Meal>)
    ensures |r| == |meals| + 1
    ensures r[0].id == freshId && WithoutId(r[0]) == input
    ensures r[1..] == meals
  {
    [WithId(input, freshId)] + meals
  }

  /** Adding keeps ids unique exactly when the fresh id is not already in the list. */
  lemma AddKeepsUnique(meals: seq<Meal>, input: MealInput, freshId: string)
    requires UniqueIds(meals)
    ensures UniqueIds(Add(meals, input, freshId)) <==> !HasId(meals, freshId)
  {

  }

  /** Deleting a just-added meal by its fresh id gives the old list back. */
  lemma AddThenDelete(meals: seq<Meal>, input: MealInput, freshId: string)
    requires !HasId(meals, freshId)
    ensures Delete(Add(meals, input, freshId), freshId) == meals
  {
    var r := Add(meals, input, freshId);
    assert r[1..] == meals;
    DeleteAbsent(meals, freshId);
  }

  // ---------------------------------------------------------------------------
  // updateMeal: `prev.map(meal => meal.id === id ? { ...meal, ...patch } : meal)`
  // ---------------------------------------------------------------------------

  /** The list after merging `patch` into every entry whose id is `id`. */
  function Update(meals: seq<Meal>, id: string, patch: Patch): (r: seq<Meal>)
    ensures |r| == |meals|
    ensures forall i :: 0 <= i < |meals| && meals[i].id != id ==> r[i] == meals[i]
    ensures forall i :: 0 <= i < |meals| && meals[i].id == id ==> r[i] == Merge(meals[i], patch)
  {
    if meals == [] then []
    else [if meals[0].id == id then Merge(meals[0], patch) else meals[0]]
         + Update(meals[1..], id, patch)
  }

  /** Updating an id that no entry carries leaves the list as it was. */
  lemma UpdateAbsent(meals: seq<Meal>, id: string, patch: Patch)
    requires !HasId(meals, id)
    ensures Update(meals, id, patch) == meals
  {
  }

  /** Updating with the empty patch leaves the list as it was. */
  lemma UpdateEmptyPatch(meals: seq<Meal>, id: string)
    ensures Update(meals, id, EmptyPatch) == meals
  {

  }

  /** Applying the same update twice is applying it once, whatever the patch. */
  lemma UpdateIdempotent(meals: seq<Meal>, id: string, patch: Patch)
    ensures Update(Update(meals, id, patch), id, patch) == Update(meals, id, patch)
  {

  }

  /** A patch without an `id` key keeps every entry's id, so the id sequence is unchanged. */
  lemma UpdateKeepsIds(meals: seq<Meal>, id: string, patch: Patch)
    requires patch.id.None?
    ensures Ids(Update(meals, id, patch)) == Ids(meals)
  {
  }

  /** A patch without an `id` key keeps unique ids unique. */
  lemma UpdateKeepsUnique(meals: seq<Meal>, id: string, patch: Patch)
    requires patch.id.None? && UniqueIds(meals)
    ensures UniqueIds(Update(meals, id, patch))
  {

  }

  /** The store does not protect ids: a patch carrying an `id` renames every matching entry. */
  lemma UpdateCanChangeId(m: Meal, newId: string)
    requires newId != m.id
    ensures Ids(Update([m], m.id, EmptyPatch.(id := Some(newId)))) == [newId]
  {

  }

  /** Deleting after an id-preserving update removes the same entries as deleting alone. */
  lemma {:induction false} UpdateThenDelete(meals: seq<Meal>, id: string, patch: Patch)
    requires patch.id.None?
    ensures Delete(Update(meals, id, patch), id) == Delete(meals, id)
  {
    if meals != [] {
      var u := Update(meals, id, patch);
      assert u[1..] == Update(meals[1..], id, patch);
      UpdateThenDelete(meals[1..], id, patch);
    }
  }

  // ---------------------------------------------------------------------------
  // deleteMeal: `prev.filter(meal => meal.id !== id)`
  // ---------------------------------------------------------------------------

  /** The list without the entries whose id is `id`, the others in their original order. */
  function Delete(meals: seq<Meal>, id: string): (r: seq<Meal>)
    ensures |r| <= |meals|
    ensures !HasId(r, id)
    ensures forall m :: m in r <==> m in meals && m.id != id
  {
    if meals == [] then []
    else if meals[0].id == id then Delete(meals[1..], id)
    else [meals[0]] + Delete(meals[1..], id)
  }

  /** Deleting an id that no entry carries leaves the list as it was. */
  lemma {:induction false} DeleteAbsent(meals: seq<Meal>, id: string)
    requires !HasId(meals, id)
    ensures Delete(meals, id) == meals
  {
    if meals != [] {
      assert meals[0].id != id;
      assert !HasId(meals[1..], id) by {
        forall i | 0 <= i < |meals| - 1 ensures meals[1..][i].id != id {
          assert meals[1..][i] == meals[i + 1];
        }
      }
      DeleteAbsent(meals[1..], id);
      assert meals == [meals[0]] + meals[1..];
    }
  }

  /** Deleting twice is deleting once. */
  lemma DeleteIdempotent(meals: seq<Meal>, id: string)
    ensures Delete(Delete(meals, id), id) == Delete(meals, id)
  {

  }

  /** `f` lists, in increasing order, positions of `meals` whose entries make up `r`. */
  ghost predicate PicksOut(f: seq<nat>, meals: seq<Meal>, r: seq<Meal>) {
    && |f| == |r|
    && (forall k :: 0 <= k < |f| ==> f[k] < |meals| && r[k] == meals[f[k]])
    && (forall k, l :: 0 <= k < l < |f| ==> f[k] < f[l])
  }

  /** Positions picked out of a tail are picked out of the whole list once shifted by one. */
  lemma Shifted(g: seq<nat>, meals: seq<Meal>, r: seq<Meal>) returns (f: seq<nat>)
    requires meals != [] && PicksOut(g, meals[1..], r)
    ensures PicksOut(f, meals, r) && 0 !in f
    ensures forall j :: 1 <= j < |meals| ==> (j in f <==> j - 1 in g)
  {
    f := seq(|g|, k requires 0 <= k < |g| => g[k] + 1);
    forall j | 1 <= j < |meals| && j - 1 in g ensures j in f {
      var k :| 0 <= k < |g| && g[k] == j - 1;
      assert f[k] == j;
    }
  }

  /** Picking the head as well extends both the positions and the picked entries at the front. */
  lemma PickHead(f: seq<nat>, meals: seq<Meal>, r: seq<Meal>)
    requires meals != [] && PicksOut(f, meals, r) && 0 !in f
    ensures PicksOut([0] + f, meals, [meals[0]] + r)
  {

  }

  /**
   * The result is the ordered subsequence of the old list made of exactly the
   * entries with another id: `f` lists, in increasing order, the positions of
   * the old list that survive.
   */
  lemma {:induction false} DeleteIndices(meals: seq<Meal>, id: string) returns (f: seq<nat>)
    ensures PicksOut(f, meals, Delete(meals, id))
    ensures forall j :: 0 <= j < |meals| ==> (j in f <==> meals[j].id != id)
  {
    if meals == [] {
      f := [];
    } else {
      var rest := Delete(meals[1..], id);
      var g := DeleteIndices(meals[1..], id);
      var shifted := Shifted(g, meals, rest);
      forall j | 1 <= j < |meals| ensures j in shifted <==> meals[j].id != id {
        assert meals[j] == meals[1..][j - 1];
      }
      if meals[0].id == id {
        f := shifted;
      } else {
        f := [0] + shifted;
        assert Delete(meals, id) == [meals[0]] + rest;
        PickHead(shifted, meals, rest);
      }
      forall j | 0 <= j < |meals| ensures j in f <==> meals[j].id != id {
        if j > 0 {
          assert j in f <==> j in shifted;
        }
      }
    }
  }

  /** Deleting keeps unique ids unique. */
  lemma DeleteKeepsUnique(meals: seq<Meal>, id: string)
    requires UniqueIds(meals)
    ensures UniqueIds(Delete(meals, id))
  {

  }

  /** Deletions of two ids commute. */
  lemma {:induction false} DeleteCommutes(meals: seq<Meal>, a: string, b: string)
    ensures Delete(Delete(meals, a), b) == Delete(Delete(meals, b), a)
  {
    if meals != [] {
      DeleteCommutes(meals[1..], a, b);
    }
  }

  // ---------------------------------------------------------------------------
  // A session with the store
  // ---------------------------------------------------------------------------

  /**
   * Starting from an empty list: add a meal rated 4, set its rating to 2 with
   * a one-key patch, delete it; the list goes 1 entry rated 4, 1 entry rated
   * 2, empty.
   */
  lemma AddUpdateDelete(input: MealInput, freshId: string)
    requires input.rating == 4.0
    ensures var s1 := Add([], input, freshId);
            var s2 := Update(s1, freshId, EmptyPatch.(rating := Some(2.0)));
            && |s1| == 1 && s1[0].rating == 4.0
            && |s2| == 1 && s2[0].rating == 2.0 && s2[0].id == freshId
            && Delete(s2, freshId) == []
  {

  }

  // ---------------------------------------------------------------------------
  // The state cell
  // ---------------------------------------------------------------------------

  /** `MealProvider`: holds the `meals` state cell that each operation replaces. */
  class MealProvider {
    var meals: seq<Meal>

    /** `useState` with the seed list; the seed dates are the clock reads of that moment. */
    constructor (today: string, yesterday: string)
      ensures meals == Seed(today, yesterday)
    {
      meals := Seed(today, yesterday);
    }

    /** `addMeal`: the id is the clock reading `now` printed in decimal. */
    method AddMeal(input: MealInput, now: nat)
      modifies this
      ensures meals == Add(old(meals), input, DecimalString(now))
      ensures meals[0].id == DecimalString(now) && WithoutId(meals[0]) == input
      ensures meals[1..] == old(meals)
    {
      meals := Add(meals, input, DecimalString(now));
    }

    /** `updateMeal`: every entry whose id is `id` takes the patch's present keys. */
    method UpdateMeal(id: string, patch: Patch)
      modifies this
      ensures meals == Update(old(meals), id, patch)
      ensures |meals| == |old(meals)|
      ensures forall i :: 0 <= i < |meals| && old(meals)[i].id != id ==> meals[i] == old(meals)[i]
    {
      meals := Update(meals, id, patch);
    }

    /** `deleteMeal`: drops every entry whose id is `id`. */
    method DeleteMeal(id: string)
      modifies this
      ensures meals == Delete(old(meals), id)
      ensures !HasId(meals, id)
    {
      meals := Delete(meals, id);
    }
  }
}
