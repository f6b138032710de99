/**
 * Exercise 1.3: recipes as dictionaries in two top-level lists. Recipes are
 * entered one by one, each new ingredient is added to a shared list, the
 * difficulty of every recipe is worked out for display, and the ingredient
 * list is finally sorted.
 */
module Exercise13 {
  import opened Text
  import opened StrOrder
  import opened Difficulty
  import opened Catalogue
  import opened InputRules

  /** The recipe dictionary: `name`, `cooking_time`, `ingredients`. */
  datatype Recipe = Recipe(name: string, cookingTime: int, ingredients: seq<string>)

  function RecipeOf(a: RecipeAnswers): Recipe {
    Recipe(a.name, a.cookingTime, BeforeDone(a.lines))
  }

  /** The ingredient list of each recipe dictionary, in entry order. Each
      exercise keeps its own recipe shape, so each has its own projection. */
  function IngredientLists(recipes: seq<Recipe>): (r: seq<seq<string>>)
    ensures |r| == |recipes|
    ensures forall k :: 0 <= k < |recipes| ==> r[k] == recipes[k].ingredients
  {
    seq(|recipes|, k requires 0 <= k < |recipes| => recipes[k].ingredients)
  }

  /** One more recipe adds its ingredients to the accumulated list. */
  lemma IngredientListsStep(recipes: seq<Recipe>, recipe: Recipe)
    ensures AddNewAll([], IngredientLists(recipes + [recipe])) ==
      AddNew(AddNewAll([], IngredientLists(recipes)), recipe.ingredients)
  {
    assert IngredientLists(recipes + [recipe])[..|recipes|] == IngredientLists(recipes);
  }

  /** `take_recipe`. */
  method TakeRecipe(a: RecipeAnswers) returns (recipe: Recipe)
    ensures recipe == RecipeOf(a)
    ensures forall i :: 0 <= i < |recipe.ingredients| ==> !IsDone(recipe.ingredients[i])
  {
    var ingredients := CollectUntilDone(a.lines);
    recipe := Recipe(a.name, a.cookingTime, ingredients);
  }

  /** The entry loop: `n` recipes taken in turn, each one's new ingredients
      appended to `ingredients_list`, then the recipe to `recipes_list`. */
  method CollectRecipes(answers: seq<RecipeAnswers>) returns (recipes: seq<Recipe>, ingredientsList: seq<string>)
    ensures |recipes| == |answers|
    ensures forall k :: 0 <= k < |answers| ==> recipes[k] == RecipeOf(answers[k])
    ensures ingredientsList == AddNewAll([], IngredientLists(recipes))
    ensures NoDuplicates(ingredientsList)
    ensures forall y :: y in ingredientsList <==> exists k :: 0 <= k < |recipes| && y in recipes[k].ingredients
    ensures InFirstSeenOrder(ingredientsList, Flatten(IngredientLists(recipes)))
  {
    recipes, ingredientsList := [], [];
    var i := 0;
    while i < |answers|
      invariant 0 <= i <= |answers|
      invariant |recipes| == i
      invariant forall k :: 0 <= k < i ==> recipes[k] == RecipeOf(answers[k])
      invariant ingredientsList == AddNewAll([], IngredientLists(recipes))
    {
      var recipe := TakeRecipe(answers[i]);
      ingredientsList := AppendNew(ingredientsList, recipe.ingredients);
      IngredientListsStep(recipes, recipe);
      recipes := recipes + [recipe];
      i := i + 1;
    }
    AddNewAllNoDuplicates([], IngredientLists(recipes));
    AddNewAllMembers([], IngredientLists(recipes));
    AddNewAllFirstSeenOrder([], IngredientLists(recipes));
    assert ingredientsList[0..] == ingredientsList;
  }

  /** The display loop: the difficulty shown for each recipe, computed by the
      inline `if`/`elif` chain from its time and number of ingredients. */
  method DisplayedDifficulties(recipes: seq<Recipe>) returns (shown: seq<string>)
    ensures |shown| == |recipes|
    ensures forall k :: 0 <= k < |recipes| ==>
      shown[k] == Label(Classify(recipes[k].cookingTime, |recipes[k].ingredients|))
  {
    shown := [];
    var i := 0;
    while i < |recipes|
      invariant 0 <= i <= |recipes|
      invariant |shown| == i
      invariant forall k :: 0 <= k < i ==>
        shown[k] == Label(Classify(recipes[k].cookingTime, |recipes[k].ingredients|))
    {
      var difficulty := ElifChain(recipes[i].cookingTime, |recipes[i].ingredients|);
      ChainIsTable(recipes[i].cookingTime, |recipes[i].ingredients|);
      shown := shown + [difficulty];
      i := i + 1;
    }
  }

  /** The whole script: entry, display, and `ingredients_list.sort()`, after
      which the list is strictly ascending and holds the same names. */
  method Run(answers: seq<RecipeAnswers>)
    returns (recipes: seq<Recipe>, difficulties: seq<string>, sortedIngredients: seq<string>)
    ensures |recipes| == |answers| && |difficulties| == |answers|
    ensures forall k :: 0 <= k < |answers| ==> recipes[k] == RecipeOf(answers[k])
    ensures forall k :: 0 <= k < |answers| ==>
      difficulties[k] == Label(Classify(recipes[k].cookingTime, |recipes[k].ingredients|))
    ensures sortedIngredients == Sort(AddNewAll([], IngredientLists(recipes)))
    ensures StrictlyAscending(sortedIngredients)
    ensures multiset(sortedIngredients) == multiset(AddNewAll([], IngredientLists(recipes)))
  {
    var ingredientsList;
    recipes, ingredientsList := CollectRecipes(answers);
    difficulties := DisplayedDifficulties(recipes);
    SortStrict(ingredientsList);
    sortedIngredients := Sort(ingredientsList);
  }
}
