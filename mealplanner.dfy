/** The weekly meal planner: a map from `yyyy-MM-dd` date strings to that
    day's meal slots ('breakfast', 'lunch', ... each holding a recipe or
    null), a recipe list kept in step with the server, and the recipe search
    with its allergen filter. */
module MealPlanner {
  import opened Common

  /** A recipe; `name` and `allergens` may be missing on a server record. */
  datatype Recipe = Recipe(id: string, name: Option<string>, allergens: Option<seq<string>>,
                           tags: seq<string>, prepTime: int, calories: int)

  /** One day's meals: slot name to recipe, or `None` for null. */
  type DayMeals = map<string, Option<Recipe>>

  /** One entry of the weekly plan the server returns, its date already formatted. */
  datatype DayPlan = DayPlan(date: string, meals: DayMeals)

  // ---------------------------------------------------------------------
  // The date-keyed map
  // ---------------------------------------------------------------------

  /** `data.forEach(({ date, meals }) => mealData[date] = meals)`: a later
      entry for the same date overwrites an earlier one. */
  function PlanMap(data: seq<DayPlan>): (m: map<string, DayMeals>)
    ensures forall date :: date in m <==> exists d :: d in data && d.date == date
  {
    if data == [] then map[]
    else
      var n := |data| - 1;
      assert forall d :: d in data <==> d in data[..n] || d == data[n] by {
        assert data == data[..n] + [data[n]];
      }
      PlanMap(data[..n])[data[n].date := data[n].meals]
  }

  /** Each date holds the meals of the last entry for that date. */
  lemma {:induction false} PlanMapKeepsLastEntry(data: seq<DayPlan>, i: nat)
    requires i < |data| && forall j :: i < j < |data| ==> data[j].date != data[i].date
    ensures PlanMap(data)[data[i].date] == data[i].meals
  {
    var n := |data| - 1;
    if i < n {
      PlanMapKeepsLastEntry(data[..n], i);
    }
  }

  /** `renderMealCell`'s lookup: a slot of an unknown date, a missing slot and
      a null slot all read as no meal. */
  function SlotOf(meals: map<string, DayMeals>, date: string, mealType: string): (r: Option<Recipe>)
    ensures date !in meals ==> r.None?
    ensures date in meals && mealType !in meals[date] ==> r.None?
    ensures date in meals && mealType in meals[date] ==> r == meals[date][mealType]
    ensures r.Some? ==> date in meals && mealType in meals[date] && meals[date][mealType] == r
  {
    if date in meals && mealType in meals[date] then meals[date][mealType] else None
  }

  /** `{ ...meals, [date]: { ...meals[date], [mealType]: value } }`. */
  function WithSlot(meals: map<string, DayMeals>, date: string, mealType: string, value: Option<Recipe>)
    : (r: map<string, DayMeals>)
    ensures r.Keys == meals.Keys + {date}
    ensures r[date].Keys == (if date in meals then meals[date].Keys else {}) + {mealType}
    ensures forall d :: d in meals && d != date ==> r[d] == meals[d]
    ensures forall t :: t in r[date] && t != mealType ==> r[date][t] == meals[date][t]
  {
    var day := if date in meals then meals[date] else map[];
    meals[date := day[mealType := value]]
  }

  /** Setting a slot changes what that slot reads and no other slot of any date. */
  lemma WithSlotChangesOneSlot(meals: map<string, DayMeals>, date: string, mealType: string, value: Option<Recipe>,
                               otherDate: string, otherType: string)
    ensures SlotOf(WithSlot(meals, date, mealType, value), date, mealType) == value
    ensures otherDate != date || otherType != mealType ==>
      SlotOf(WithSlot(meals, date, mealType, value), otherDate, otherType) == SlotOf(meals, otherDate, otherType)
  {
  }

  /** Assigning a meal and then removing it leaves the slot reading as empty. */
  lemma AssignThenRemoveIsEmpty(meals: map<string, DayMeals>, date: string, mealType: string, recipe: Recipe)
    ensures SlotOf(WithSlot(WithSlot(meals, date, mealType, Some(recipe)), date, mealType, None), date, mealType).None?
  {
  }

  // ---------------------------------------------------------------------
  // Recipes
  // ---------------------------------------------------------------------

  /** One recipe of `filteredRecipes`: a name containing the lower-cased
      search term (a missing name never matches), and, when an allergen is
      chosen, no listed allergen equal to it (missing allergens never exclude). */
  predicate RecipeShown(recipe: Recipe, searchTerm: string, filterAllergen: string)
  {
    recipe.name.Some? && MatchesIgnoringCase(recipe.name.value, searchTerm) &&
    (filterAllergen == "" || recipe.allergens.None? || filterAllergen !in recipe.allergens.value)
  }

  function FilteredRecipes(recipes: seq<Recipe>, searchTerm: string, filterAllergen: string): (r: seq<Recipe>)
    ensures forall x :: x in r <==> x in recipes && RecipeShown(x, searchTerm, filterAllergen)
    ensures Subseq(r, recipes)
  {
    FilterIsSubseq(recipes, (x: Recipe) => RecipeShown(x, searchTerm, filterAllergen));
    Filter(recipes, (x: Recipe) => RecipeShown(x, searchTerm, filterAllergen))
  }

  /** With no search term and no allergen chosen, every named recipe is listed. */
  lemma NoFilterShowsNamedRecipes(recipes: seq<Recipe>)
    ensures forall x :: x in FilteredRecipes(recipes, "", "") <==> x in recipes && x.name.Some?
  {
    forall x | x in recipes && x.name.Some? ensures RecipeShown(x, "", "") {
      assert ToLower("") == "";
      EmptyTermMatches(ToLower(x.name.value));
    }
  }

  /** `recipes.map(r => r._id === saved._id ? saved : r)`. */
  function ReplacedRecipe(recipes: seq<Recipe>, saved: Recipe): (r: seq<Recipe>)
    ensures |r| == |recipes|
    ensures forall i :: 0 <= i < |recipes| ==> r[i] == if recipes[i].id == saved.id then saved else recipes[i]
  {
    MapWhere(recipes, (x: Recipe) => x.id == saved.id, (x: Recipe) => saved)
  }

  /** `recipes.filter(r => r._id !== id)`. */
  function WithoutRecipe(recipes: seq<Recipe>, id: string): (r: seq<Recipe>)
    ensures forall x :: x in r <==> x in recipes && x.id != id
    ensures Subseq(r, recipes)
  {
    FilterIsSubseq(recipes, (x: Recipe) => x.id != id);
    Filter(recipes, (x: Recipe) => x.id != id)
  }

  class Planner {
    var meals: map<string, DayMeals>
    var recipes: seq<Recipe>

    constructor ()
      ensures meals == map[] && recipes == []
    {
      meals := map[];
      recipes := [];
    }

    /** `fetchWeeklyMealPlan`: the map is rebuilt from the week's entries;
        a failed request leaves it as it was. */
    method FetchWeeklyMealPlan(data: Option<seq<DayPlan>>)
      modifies this
      ensures meals == if data.Some? then PlanMap(data.value) else old(meals)
      ensures recipes == old(recipes)
    {
      if data.None? {
        return;
      }
      var plan := data.value;
      var mealData: map<string, DayMeals> := map[];
      var i := 0;
      while i < |plan|
        invariant 0 <= i <= |plan|
        invariant mealData == PlanMap(plan[..i])
      {
        assert plan[..i + 1][..i] == plan[..i];
        mealData := mealData[plan[i].date := plan[i].meals];
        i := i + 1;
      }
      assert plan[..i] == plan;
      meals := mealData;
    }

    /** `assignMeal`: once the PUT succeeds the slot holds the recipe. */
    method AssignMeal(date: string, mealType: string, recipe: Recipe, ok: bool)
      modifies this
      ensures meals == if ok then WithSlot(old(meals), date, mealType, Some(recipe)) else old(meals)
      ensures ok ==> SlotOf(meals, date, mealType) == Some(recipe)
      ensures recipes == old(recipes)
    {
      if ok {
        WithSlotChangesOneSlot(meals, date, mealType, Some(recipe), date, mealType);
        meals := WithSlot(meals, date, mealType, Some(recipe));
      }
    }

    /** `removeMeal`: once the PUT succeeds the slot holds null. */
    method RemoveMeal(date: string, mealType: string, ok: bool)
      modifies this
      ensures meals == if ok then WithSlot(old(meals), date, mealType, None) else old(meals)
      ensures SlotOf(meals, date, mealType).None? || !ok
      ensures recipes == old(recipes)
    {
      if ok {
        WithSlotChangesOneSlot(meals, date, mealType, None, date, mealType);
        meals := WithSlot(meals, date, mealType, None);
      }
    }

    method AddRecipe(saved: Option<Recipe>)
      modifies this
      ensures recipes == if saved.Some? then old(recipes) + [saved.value] else old(recipes)
      ensures meals == old(meals)
    {
      if saved.Some? {
        recipes := recipes + [saved.value];
      }
    }

    /** `updateRecipe`: matched on the id of the record the server returns. */
    method UpdateRecipe(saved: Option<Recipe>)
      modifies this
      ensures recipes == if saved.Some? then ReplacedRecipe(old(recipes), saved.value) else old(recipes)
      ensures meals == old(meals)
    {
      if saved.Some? {
        recipes := ReplacedRecipe(recipes, saved.value);
      }
    }

    method DeleteRecipe(id: string, ok: bool)
      modifies this
      ensures recipes == if ok then WithoutRecipe(old(recipes), id) else old(recipes)
      ensures meals == old(meals)
    {
      if ok {
        recipes := WithoutRecipe(recipes, id);
      }
    }
  }
}
