/**
 * Exercise 1.4, search script: show the loaded ingredient list numbered from
 * 0, read a number, and list the recipes whose ingredient list contains the
 * chosen ingredient exactly.
 */
module RecipeSearch {
  import opened Wrappers
  import opened InputRules
  import opened RecipeInput

  /** The recipes, in stored order, that list `ingredient` among their ingredients. */
  function Containing(recipes: seq<RecipeRecord>, ingredient: string): (r: seq<RecipeRecord>)
    ensures |r| <= |recipes|
  {
    if recipes == [] then []
    else
      var rest := Containing(recipes[1..], ingredient);
      if ingredient in recipes[0].ingredients then [recipes[0]] + rest else rest
  }

  /** A recipe is listed exactly when it is stored and names the ingredient. */
  lemma {:induction false} ContainingMembers(recipes: seq<RecipeRecord>, ingredient: string)
    ensures forall x :: x in Containing(recipes, ingredient) <==> x in recipes && ingredient in x.ingredients
  {
    if recipes != [] {
      ContainingMembers(recipes[1..], ingredient);
      assert forall x :: x in recipes <==> x == recipes[0] || x in recipes[1..];
    }
  }

  /** One recipe is listed alone when it names the ingredient, otherwise not at all. */
  lemma ContainingOne(recipe: RecipeRecord, ingredient: string)
    ensures Containing([recipe], ingredient) == if ingredient in recipe.ingredients then [recipe] else []
  {
    assert [recipe][1..] == [];
  }

  /** Adding recipes keeps the earlier matches first, in their order. */
  lemma {:induction false} ContainingAppend(a: seq<RecipeRecord>, b: seq<RecipeRecord>, ingredient: string)
    ensures Containing(a + b, ingredient) == Containing(a, ingredient) + Containing(b, ingredient)
  {
    if a == [] {
      assert a + b == b;
    } else {
      assert (a + b)[0] == a[0] && (a + b)[1..] == a[1..] + b;
      ContainingAppend(a[1..], b, ingredient);
    }
  }

  /** What the search prints: refused input, or the chosen ingredient with the
      recipes displayed and whether "No recipes found" was shown. */
  datatype SearchOutcome =
    | IncorrectInput
    | Searched(ingredient: string, found: seq<RecipeRecord>, noneFound: bool)

  /** `search_ingredient`. `choice` is `None` when the typed text is not an
      integer (`ValueError`); an index outside the list raises `IndexError`. */
  method SearchIngredient(data: RecipeData, choice: Option<int>) returns (outcome: SearchOutcome)
    ensures outcome.IncorrectInput? <==> choice.None? || PyIndex(data.allIngredients, choice.value).None?
    ensures outcome.Searched? ==> outcome.ingredient == PyIndex(data.allIngredients, choice.value).value
    ensures outcome.Searched? ==> outcome.found == Containing(data.recipesList, outcome.ingredient)
    ensures outcome.Searched? ==> (outcome.noneFound <==> outcome.found == [])
  {
    if choice.None? {
      return IncorrectInput;
    }
    var picked := PyIndex(data.allIngredients, choice.value);
    if picked.None? {
      return IncorrectInput;
    }
    var ingredientSearched := picked.value;
    var found := [];
    var recipesFound := false;
    var i := 0;
    while i < |data.recipesList|
      invariant 0 <= i <= |data.recipesList|
      invariant found == Containing(data.recipesList[..i], ingredientSearched)
      invariant recipesFound <==> found != []
    {
      var recipe := data.recipesList[i];
      assert data.recipesList[..i + 1] == data.recipesList[..i] + [recipe];
      ContainingAppend(data.recipesList[..i], [recipe], ingredientSearched);
      ContainingOne(recipe, ingredientSearched);
      if ingredientSearched in recipe.ingredients {
        found := found + [recipe];
        recipesFound := true;
      }
      i := i + 1;
    }
    assert data.recipesList[..i] == data.recipesList;
    outcome := Searched(ingredientSearched, found, !recipesFound);
  }

  /** Entering recipes and then searching the saved list: the search lists the
      matches among the loaded recipes first, then those among the entered
      ones, and every entered recipe naming the ingredient is among them. */
  lemma EnteredRecipesAreFound(data: RecipeData, answers: seq<RecipeAnswers>, k: nat, ingredient: string)
    requires k < |answers|
    requires ingredient in BeforeDone(answers[k].lines)
    ensures Containing(data.recipesList + Records(answers), ingredient) ==
      Containing(data.recipesList, ingredient) + Containing(Records(answers), ingredient)
    ensures RecordOf(answers[k]) in Containing(data.recipesList + Records(answers), ingredient)
  {
    var entered := Records(answers);
    ContainingAppend(data.recipesList, entered, ingredient);
    assert entered[k] == RecordOf(answers[k]);
    ContainingMembers(entered, ingredient);
  }
}
