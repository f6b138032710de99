/**
 * Exercise 1.4, entry script: recipe dictionaries now carry their difficulty,
 * and the recipe list and ingredient list travel together in one dictionary
 * that is loaded from and saved to a binary file.
 */
module RecipeInput {
  import opened StrOrder
  import opened Difficulty
  import opened Catalogue
  import opened InputRules

  /** A recipe dictionary with `name`, `cooking_time`, `ingredients` and the
      `difficulty` text. */
  datatype RecipeRecord = RecipeRecord(name: string, cookingTime: int, ingredients: seq<string>, difficulty: string)

  /** The saved dictionary: `recipes_list` and `all_ingredients`. */
  datatype RecipeData = RecipeData(recipesList: seq<RecipeRecord>, allIngredients: seq<string>)

  function RecordOf(a: RecipeAnswers): RecipeRecord {
    var ingredients := BeforeDone(a.lines);
    RecipeRecord(a.name, a.cookingTime, ingredients, CalcDifficulty(a.cookingTime, ingredients))
  }

  /** `take_recipe`: collect the ingredients up to `done`, then the difficulty
      is computed from exactly those ingredients. */
  method TakeRecipe(a: RecipeAnswers) returns (recipe: RecipeRecord)
    ensures recipe == RecordOf(a)
    ensures recipe.ingredients <= a.lines
    ensures recipe.difficulty == Label(Classify(a.cookingTime, |recipe.ingredients|))
  {
    var ingredients := CollectUntilDone(a.lines);
    var difficulty := CalcDifficulty(a.cookingTime, ingredients);
    recipe := RecipeRecord(a.name, a.cookingTime, ingredients, difficulty);
  }

  /** The ingredient list of each record, in entry order: the projection
      `AddNewAll` is stated over, for this script's record shape (which also
      carries a difficulty). */
  function IngredientLists(recipes: seq<RecipeRecord>): (r: seq<seq<string>>)
    ensures |r| == |recipes|
    ensures forall k :: 0 <= k < |recipes| ==> r[k] == recipes[k].ingredients
  {
    seq(|recipes|, k requires 0 <= k < |recipes| => recipes[k].ingredients)
  }

  /** The records `take_recipe` builds from a run of answers, in order. */
  function Records(answers: seq<RecipeAnswers>): (r: seq<RecipeRecord>)
    ensures |r| == |answers|
    ensures forall k :: 0 <= k < |answers| ==> r[k] == RecordOf(answers[k])
  {
    seq(|answers|, k requires 0 <= k < |answers| => RecordOf(answers[k]))
  }

  /** One more recipe appends one more record and one more ingredient list. */
  lemma RecordsStep(answers: seq<RecipeAnswers>, i: nat)
    requires i < |answers|
    ensures Records(answers[..i + 1]) == Records(answers[..i]) + [RecordOf(answers[i])]
    ensures IngredientLists(Records(answers[..i + 1])) ==
            IngredientLists(Records(answers[..i])) + [RecordOf(answers[i]).ingredients]
  {
    var r := Records(answers[..i + 1]);
    assert r == Records(answers[..i]) + [RecordOf(answers[i])];
    assert IngredientLists(r)[..i] == IngredientLists(Records(answers[..i]));
  }

  /** The main loop of the entry script: each recipe is appended to the loaded
      list, and each of its ingredients not yet known to `all_ingredients`.
      The ingredient list keeps what it had, stays free of repeats, ends up
      holding every ingredient of every entered recipe, and takes the new ones
      in the order in which they first appear in the entered recipes. */
  method EnterRecipes(data: RecipeData, answers: seq<RecipeAnswers>) returns (saved: RecipeData)
    ensures saved.recipesList == data.recipesList + Records(answers)
    ensures saved.allIngredients == AddNewAll(data.allIngredients, IngredientLists(Records(answers)))
    ensures data.allIngredients <= saved.allIngredients
    ensures NoDuplicates(data.allIngredients) ==> NoDuplicates(saved.allIngredients)
    ensures forall y :: y in saved.allIngredients <==>
      y in data.allIngredients || exists k :: 0 <= k < |answers| && y in Records(answers)[k].ingredients
    ensures InFirstSeenOrder(saved.allIngredients[|data.allIngredients|..], Flatten(IngredientLists(Records(answers))))
  {
    var recipesList := data.recipesList;
    var allIngredients := data.allIngredients;
    var i := 0;
    while i < |answers|
      invariant 0 <= i <= |answers|
      invariant recipesList == data.recipesList + Records(answers[..i])
      invariant allIngredients == AddNewAll(data.allIngredients, IngredientLists(Records(answers[..i])))
    {
      var recipe := TakeRecipe(answers[i]);
      RecordsStep(answers, i);
      recipesList := recipesList + [recipe];
      allIngredients := AppendNew(allIngredients, recipe.ingredients);
      i := i + 1;
    }
    assert answers[..i] == answers;
    saved := RecipeData(recipesList, allIngredients);
    EnteredIngredients(data.allIngredients, Records(answers));
  }

  /** What `AddNewAll` promises, stated over the records' ingredient lists:
      the saved list grows by the new names, in the order in which they first
      appear in the records' ingredients taken one recipe after the other. */
  lemma EnteredIngredients(cat: seq<string>, records: seq<RecipeRecord>)
    ensures cat <= AddNewAll(cat, IngredientLists(records))
    ensures NoDuplicates(cat) ==> NoDuplicates(AddNewAll(cat, IngredientLists(records)))
    ensures forall y :: y in AddNewAll(cat, IngredientLists(records)) <==>
      y in cat || exists k :: 0 <= k < |records| && y in records[k].ingredients
    ensures InFirstSeenOrder(AddNewAll(cat, IngredientLists(records))[|cat|..], Flatten(IngredientLists(records)))
  {
    var lists := IngredientLists(records);
    AddNewAllMembers(cat, lists);
    AddNewAllFirstSeenOrder(cat, lists);
    if NoDuplicates(cat) {
      AddNewAllNoDuplicates(cat, lists);
    }
  }
}
