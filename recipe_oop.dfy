/**
 * Exercise 1.5: a `Recipe` class whose setter for the cooking time recomputes
 * the difficulty, whose ingredients are added in bulk, and whose class-level
 * ingredient list is shared by every recipe. The difficulty is computed
 * lazily when it is first asked for; adding ingredients does not recompute it.
 */
module RecipeOop {
  import opened Wrappers
  import opened Difficulty
  import opened Catalogue

  class Recipe {
    var name: string
    var ingredients: seq<string>
    var cookingTime: int
    var difficulty: Option<Level>
    /** The class variable `Recipe.all_ingredients`, shared by all recipes. */
    const catalogue: IngredientCatalogue

    /** `__init__`: a named recipe with no ingredients, time 0 and no difficulty yet. */
    constructor (name: string, catalogue: IngredientCatalogue)
      ensures this.name == name && ingredients == [] && cookingTime == 0 && difficulty == None
      ensures this.catalogue == catalogue
    {
      this.name := name;
      ingredients := [];
      cookingTime := 0;
      difficulty := None;
      this.catalogue := catalogue;
    }

    function GetName(): string
      reads this
    {
      name
    }

    method SetName(name: string)
      modifies this
      ensures this.name == name
      ensures ingredients == old(ingredients) && cookingTime == old(cookingTime) && difficulty == old(difficulty)
    {
      this.name := name;
    }

    function GetCookingTime(): int
      reads this
    {
      cookingTime
    }

    /** `set_cooking_time`: store the time and recompute the difficulty. */
    method SetCookingTime(cookingTime: int)
      modifies this
      ensures this.cookingTime == cookingTime
      ensures difficulty == Some(Classify(cookingTime, |ingredients|))
      ensures name == old(name) && ingredients == old(ingredients)
    {
      this.cookingTime := cookingTime;
      CalculateDifficulty();
    }

    /** `add_ingredients(*ingredients)`: append them in order, then register the
        recipe's whole ingredient list with the shared catalogue. The stored
        difficulty is left as it was. */
    method AddIngredients(newIngredients: seq<string>)
      modifies this, catalogue
      ensures ingredients == old(ingredients) + newIngredients
      ensures catalogue.names == AddNew(old(catalogue.names), ingredients)
      ensures name == old(name) && cookingTime == old(cookingTime) && difficulty == old(difficulty)
    {
      var i := 0;
      while i < |newIngredients|
        invariant 0 <= i <= |newIngredients|
        invariant ingredients == old(ingredients) + newIngredients[..i]
        invariant name == old(name) && cookingTime == old(cookingTime) && difficulty == old(difficulty)
        invariant catalogue.names == old(catalogue.names)
      {
        assert newIngredients[..i + 1] == newIngredients[..i] + [newIngredients[i]];
        ingredients := ingredients + [newIngredients[i]];
        i := i + 1;
      }
      assert newIngredients[..i] == newIngredients;
      UpdateAllIngredients();
    }

    function GetIngredients(): seq<string>
      reads this
    {
      ingredients
    }

    /** `calculate_difficulty`: the `if`/`elif` chain, storing a level. */
    method CalculateDifficulty()
      modifies this`difficulty
      ensures difficulty == Some(Classify(cookingTime, |ingredients|))
      ensures name == old(name) && ingredients == old(ingredients) && cookingTime == old(cookingTime)
    {
      var numIngredients := |ingredients|;
      if cookingTime < 10 && numIngredients < 4 {
        difficulty := Some(Easy);
      } else if cookingTime < 10 && numIngredients >= 4 {
        difficulty := Some(Medium);
      } else if cookingTime >= 10 && numIngredients < 4 {
        difficulty := Some(Intermediate);
      } else {
        difficulty := Some(Hard);
      }
    }

    /** `get_difficulty`: compute the difficulty only if none is stored; a
        stored one is returned as it is, even if it is out of date. */
    method GetDifficulty() returns (d: Level)
      modifies this`difficulty
      ensures old(difficulty).Some? ==> difficulty == old(difficulty)
      ensures old(difficulty).None? ==> difficulty == Some(Classify(cookingTime, |ingredients|))
      ensures difficulty == Some(d)
      ensures name == old(name) && ingredients == old(ingredients) && cookingTime == old(cookingTime)
    {
      if difficulty.None? {
        CalculateDifficulty();
      }
      d := difficulty.value;
    }

    /** `search_ingredient`: exact membership in the ingredient list. */
    function SearchIngredient(ingredient: string): (found: bool)
      reads this`ingredients
      ensures found <==> exists i :: 0 <= i < |ingredients| && ingredients[i] == ingredient
    {
      ingredient in ingredients
    }

    /** `update_all_ingredients`: register every ingredient of this recipe. */
    method UpdateAllIngredients()
      modifies catalogue
      ensures catalogue.names == AddNew(old(catalogue.names), ingredients)
    {
      catalogue.Update(ingredients);
    }
  }

  /** The recipes of `data`, in order, for which `search_ingredient` holds. */
  function Matching(data: seq<Recipe>, term: string): seq<Recipe>
    reads (set x | x in data)`ingredients
    decreases |data|
  {
    if data == [] then []
    else
      var rest := Matching(data[1..], term);
      if data[0].SearchIngredient(term) then [data[0]] + rest else rest
  }

  /** `Matching` keeps exactly the recipes containing `term`. */
  lemma {:induction false} MatchingMembers(data: seq<Recipe>, term: string)
    ensures forall i :: 0 <= i < |Matching(data, term)| ==>
      Matching(data, term)[i] in data && term in Matching(data, term)[i].ingredients
    ensures forall i :: 0 <= i < |data| && term in data[i].ingredients ==> data[i] in Matching(data, term)
    decreases |data|
  {
    if data != [] {
      MatchingMembers(data[1..], term);
      assert forall i :: 0 < i < |data| ==> data[i] == data[1..][i - 1];
    }
  }

  lemma {:induction false} MatchingAppend(a: seq<Recipe>, b: seq<Recipe>, term: string)
    ensures Matching(a + b, term) == Matching(a, term) + Matching(b, term)
  {
    if a == [] {
      assert a + b == b;
    } else {
      assert (a + b)[0] == a[0] && (a + b)[1..] == a[1..] + b;
      MatchingAppend(a[1..], b, term);
    }
  }

  /** What printing a matching recipe does to its stored difficulty: printing
      calls `get_difficulty`, which fills in a missing one. */
  function AfterDisplay(r: Recipe, term: string, before: Option<Level>): Option<Level>
    reads r
  {
    if before.None? && term in r.ingredients then Some(Classify(r.cookingTime, |r.ingredients|)) else before
  }

  /** `recipe_search`: print every recipe containing `term`, and a notice when
      there is none. Returns the printed recipes and the `found_recipes` flag. */
  method RecipeSearch(data: seq<Recipe>, term: string) returns (shown: seq<Recipe>, foundRecipes: bool)
    modifies (set r | r in data)`difficulty
    ensures shown == old(Matching(data, term))
    ensures foundRecipes <==> shown != []
    ensures forall r :: r in data ==>
      r.name == old(r.name) && r.ingredients == old(r.ingredients) && r.cookingTime == old(r.cookingTime)
    ensures forall r :: r in data ==> r.difficulty == AfterDisplay(r, term, old(r.difficulty))
  {
    shown := [];
    foundRecipes := false;
    var i := 0;
    while i < |data|
      invariant 0 <= i <= |data|
      invariant forall j :: 0 <= j < |data| ==>
        data[j].name == old(data[j].name) && data[j].ingredients == old(data[j].ingredients) &&
        data[j].cookingTime == old(data[j].cookingTime)
      invariant forall j :: 0 <= j < i ==>
        data[j].difficulty == AfterDisplay(data[j], term, old(data[j].difficulty))
      invariant forall j :: i <= j < |data| ==>
        data[j].difficulty == old(data[j].difficulty) ||
        data[j].difficulty == AfterDisplay(data[j], term, old(data[j].difficulty))
      invariant shown == Matching(data[..i], term)
      invariant foundRecipes <==> shown != []
    {
      var recipe := data[i];
      assert data[..i + 1] == data[..i] + [recipe];
      MatchingAppend(data[..i], [recipe], term);
      var matched := ShowIfMatching(recipe, term);
      if matched {
        shown := shown + [recipe];
        foundRecipes := true;
      }
      i := i + 1;
    }
    assert data[..i] == data;
  }

  /** One step of the loop: print the recipe when it contains `term`, which
      fills in its difficulty if none is stored. */
  method ShowIfMatching(recipe: Recipe, term: string) returns (matched: bool)
    modifies recipe`difficulty
    ensures matched <==> term in recipe.ingredients
    ensures recipe.name == old(recipe.name) && recipe.ingredients == old(recipe.ingredients)
    ensures recipe.cookingTime == old(recipe.cookingTime)
    ensures recipe.difficulty == AfterDisplay(recipe, term, old(recipe.difficulty))
  {
    matched := recipe.SearchIngredient(term);
    if matched {
      var _ := recipe.GetDifficulty();
    }
  }

  /** The four recipes of the script at the bottom of the file, built through
      the class: the ingredients are added first and the time set last, so
      each stored difficulty is up to date. */
  method Demo() returns (difficulties: seq<Level>)
    ensures difficulties == [Easy, Easy, Hard, Medium]
  {
    var catalogue := new IngredientCatalogue();
    var tea := new Recipe("Tea", catalogue);
    tea.AddIngredients(["Tea Leaves", "Sugar", "Water"]);
    tea.SetCookingTime(5);
    var coffee := new Recipe("Coffee", catalogue);
    coffee.AddIngredients(["Coffee Powder", "Sugar", "Water"]);
    coffee.SetCookingTime(5);
    var cake := new Recipe("Cake", catalogue);
    cake.AddIngredients(["Sugar", "Butter", "Eggs", "Vanilla Essence", "Flour", "Baking Powder", "Milk"]);
    cake.SetCookingTime(50);
    var bananaSmoothie := new Recipe("Banana Smoothie", catalogue);
    bananaSmoothie.AddIngredients(["Bananas", "Milk", "Peanut Butter", "Sugar", "Ice Cubes"]);
    bananaSmoothie.SetCookingTime(5);
    var d1 := tea.GetDifficulty();
    var d2 := coffee.GetDifficulty();
    var d3 := cake.GetDifficulty();
    var d4 := bananaSmoothie.GetDifficulty();
    difficulties := [d1, d2, d3, d4];
  }

  /** The reverse order leaves the difficulty stale: a time set before the
      ingredients are added fixes the level for the ingredient count at that
      moment, and `get_difficulty` keeps returning it. */
  method StaleDifficulty() returns (stored: Level, current: Level)
    ensures stored == Easy && current == Medium
  {
    var catalogue := new IngredientCatalogue();
    var toast := new Recipe("Toast", catalogue);
    toast.SetCookingTime(5);
    toast.AddIngredients(["Bread", "Butter", "Jam", "Honey"]);
    stored := toast.GetDifficulty();
    current := Classify(toast.cookingTime, |toast.ingredients|);
  }
}
