/**
 * Exercise 1.7: recipes as objects of a mapped class in the table
 * `final_recipes`, reached through one session. The session's table is
 * modelled as the sequence of its recipe objects in storage order; editing a
 * recipe changes that object's fields, deleting it removes the object.
 */
module RecipeApp {
  import opened Wrappers
  import opened Text
  import opened SplitJoin
  import opened Difficulty
  import opened Catalogue
  import opened InputRules
  import opened StrOrder

  class Recipe {
    /** The primary key; the database assigns it and nothing changes it. */
    const id: int
    var name: string
    var ingredients: string
    var cookingTime: int
    var difficulty: Option<Level>

    constructor (id: int, name: string, ingredients: string, cookingTime: int)
      ensures this.name == name && this.ingredients == ingredients && this.cookingTime == cookingTime
      ensures this.id == id && difficulty == None
    {
      this.id := id;
      this.name := name;
      this.ingredients := ingredients;
      this.cookingTime := cookingTime;
      difficulty := None;
    }

    /** `return_ingredients_as_list` on this recipe's column. */
    function ReturnIngredientsAsList(): seq<string>
      reads this`ingredients
    {
      IngredientsAsList(ingredients)
    }

    /** `calculate_difficulty`: count the listed ingredients, then the
        `if`/`elif` chain. */
    method CalculateDifficulty()
      modifies this
      ensures difficulty == Some(Classify(cookingTime, |IngredientsAsList(ingredients)|))
      ensures name == old(name) && ingredients == old(ingredients) && cookingTime == old(cookingTime)
    {
      var ingredientsList := ReturnIngredientsAsList();
      var numIngredients := |ingredientsList|;
      if cookingTime < 10 && numIngredients < 4 {
        difficulty := Some(Easy);
      } else if cookingTime < 10 && numIngredients >= 4 {
        difficulty := Some(Medium);
      } else if cookingTime >= 10 && numIngredients < 4 {
        difficulty := Some(Intermediate);
      } else {
        difficulty := Some(Hard);
      }
    }
  }

  /** The ingredient loop of `create_recipe` and `edit_recipe`: a fixed number
      of lines, each stripped, empty ones skipped. */
  method CollectCounted(lines: seq<string>) returns (ingredients: seq<string>)
    ensures ingredients == NonEmpty(StripEach(lines))
  {
    ingredients := [];
    var i := 0;
    while i < |lines|
      invariant 0 <= i <= |lines|
      invariant ingredients == NonEmpty(StripEach(lines[..i]))
    {
      var ingredient := Strip(lines[i]);
      var s := StripEach(lines[..i + 1]);
      assert s[..i] == StripEach(lines[..i]);
      assert s[i] == ingredient;
      if ingredient != "" {
        ingredients := ingredients + [ingredient];
      }
      i := i + 1;
    }
    assert lines[..i] == lines;
  }

  /** The collected ingredients are stripped, none of them empty. */
  lemma CollectedShape(lines: seq<string>)
    ensures forall y :: y in NonEmpty(StripEach(lines)) ==> y != "" && Stripped(y)
  {
    NonEmptyMembers(StripEach(lines));
  }

  /** The ids of the stored recipes, in storage order. */
  function Ids(recipes: seq<Recipe>): (r: seq<int>)
    ensures |r| == |recipes|
    ensures forall k :: 0 <= k < |recipes| ==> r[k] == recipes[k].id
  {
    if recipes == [] then [] else [recipes[0].id] + Ids(recipes[1..])
  }

  /** `session.query(Recipe).filter(Recipe.id == selected_id).first()`: the
      stored recipe at the first position holding the id. */
  function FirstWithId(recipes: seq<Recipe>, id: int): (r: Recipe)
    requires IdExists(Ids(recipes), id)
    ensures r in recipes && r.id == id
    ensures exists k :: 0 <= k < |recipes| && recipes[k] == r && forall j :: 0 <= j < k ==> recipes[j].id != id
  {
    var k := FirstIdIndex(Ids(recipes), id);
    assert forall j :: 0 <= j < k ==> recipes[j].id == Ids(recipes)[j];
    recipes[k]
  }

  /** The stored recipes other than `x`, in order. */
  function Except(recipes: seq<Recipe>, x: Recipe): (r: seq<Recipe>)
    ensures |r| <= |recipes|
    ensures forall k :: 0 <= k < |r| ==> r[k] != x && r[k] in recipes
    ensures forall k :: 0 <= k < |recipes| && recipes[k] != x ==> recipes[k] in r
  {
    if recipes == [] then []
    else
      var rest := Except(recipes[1..], x);
      assert forall k :: 1 <= k < |recipes| ==> recipes[k] == recipes[1..][k - 1];
      if recipes[0] == x then rest else [recipes[0]] + rest
  }

  // ---------------------------------------------------------------------------
  // Search

  /** The non-empty pieces of one stored column split on `", "`. */
  function ColumnPieces(column: string): (r: seq<string>)
    ensures forall y :: y in r <==> y in Split(column, ", ") && y != ""
  {
    NonEmptyMembers(Split(column, ", "));
    NonEmpty(Split(column, ", "))
  }

  /** The `ingredients` column of each stored recipe, in storage order. */
  function Columns(recipes: seq<Recipe>): (r: seq<string>)
    reads (set x | x in recipes)`ingredients
    ensures |r| == |recipes|
    ensures forall k :: 0 <= k < |recipes| ==> r[k] == recipes[k].ingredients
    decreases |recipes|
  {
    if recipes == [] then [] else [recipes[0].ingredients] + Columns(recipes[1..])
  }

  /** The menu `search_by_ingredients` shows: the pieces of every stored
      column, each listed once, first occurrence first. */
  function Menu(columns: seq<string>): (r: seq<string>)
    ensures r == AddNew([], AllPieces(columns, ColumnPieces))
    ensures NoDuplicates(r)
  {
    GatherFlat(columns, ColumnPieces);
    GatherMembers(columns, ColumnPieces);
    Gather(columns, ColumnPieces)
  }

  /** Some stored column has `y` among its non-empty pieces. */
  predicate HasPiece(columns: seq<string>, y: string) {
    PieceOfSome(columns, ColumnPieces, y)
  }

  /** The menu is free of repeats, has no empty entry, lists exactly the
      pieces of the stored columns, and lists them in the order of their
      first appearance in the columns taken in storage order. */
  lemma MenuMembers(columns: seq<string>)
    ensures NoDuplicates(Menu(columns))
    ensures "" !in Menu(columns)
    ensures forall y :: y in Menu(columns) <==> HasPiece(columns, y)
    ensures InFirstSeenOrder(Menu(columns), AllPieces(columns, ColumnPieces))
  {
    GatherMembers(columns, ColumnPieces);
    GatherFirstSeenOrder(columns, ColumnPieces);
  }

  /** The outer loop over the fetched `ingredients` column values. */
  method ExtractIngredients(columns: seq<string>) returns (allIngredients: seq<string>)
    ensures allIngredients == Menu(columns)
  {
    allIngredients := [];
    var i := 0;
    while i < |columns|
      invariant 0 <= i <= |columns|
      invariant allIngredients == Gather(columns[..i], ColumnPieces)
    {
      var ingredientsList := Split(columns[i], ", ");
      assert columns[..i + 1][..i] == columns[..i];
      allIngredients := AppendNonEmpty(allIngredients, ingredientsList);
      i := i + 1;
    }
    assert columns[..i] == columns;
  }

  /** `or_(*[Recipe.ingredients.like(f"%{t}%") for t in terms])`, each `LIKE`
      read as a substring test. An empty `or_()` renders as no condition at
      all, so the query then returns every recipe. */
  predicate OrLike(terms: seq<string>, column: string) {
    terms == [] || exists i :: 0 <= i < |terms| && Occurs(terms[i], column)
  }

  /** The recipes the filtered query returns, in storage order. */
  function OrLikeMatches(recipes: seq<Recipe>, terms: seq<string>): seq<Recipe>
    reads (set x | x in recipes)`ingredients
    decreases |recipes|
  {
    if recipes == [] then []
    else
      var rest := OrLikeMatches(recipes[1..], terms);
      if OrLike(terms, recipes[0].ingredients) then [recipes[0]] + rest else rest
  }

  /** The query returns exactly the stored recipes whose column satisfies the
      condition. */
  lemma {:induction false} OrLikeMatchesMembers(recipes: seq<Recipe>, terms: seq<string>)
    ensures |OrLikeMatches(recipes, terms)| <= |recipes|
    ensures forall k :: 0 <= k < |OrLikeMatches(recipes, terms)| ==>
      OrLikeMatches(recipes, terms)[k] in recipes && OrLike(terms, OrLikeMatches(recipes, terms)[k].ingredients)
    ensures forall k :: 0 <= k < |recipes| && OrLike(terms, recipes[k].ingredients) ==>
      recipes[k] in OrLikeMatches(recipes, terms)
    decreases |recipes|
  {
    if recipes != [] {
      OrLikeMatchesMembers(recipes[1..], terms);
      assert forall k :: 1 <= k < |recipes| ==> recipes[k] == recipes[1..][k - 1];
    }
  }

  /** Every selected menu entry is found in the column it came from, so a
      non-empty selection always returns at least one recipe. */
  lemma SelectionFound(recipes: seq<Recipe>, terms: seq<string>)
    requires |terms| > 0 && HasPiece(Columns(recipes), terms[0])
    ensures OrLikeMatches(recipes, terms) != []
  {
    var k :| 0 <= k < |recipes| && terms[0] in ColumnPieces(Columns(recipes)[k]);
    var column := recipes[k].ingredients;
    NonEmptyMembers(Split(column, ", "));
    SplitPiecesOccur(column, ", ");
    var j :| 0 <= j < |Split(column, ", ")| && Split(column, ", ")[j] == terms[0];
    assert Occurs(terms[0], column);
    assert OrLike(terms, column);
    OrLikeMatchesMembers(recipes, terms);
  }

  /** With nothing selected, `or_()` adds no condition: every recipe is
      returned, in storage order. */
  lemma {:induction false} EmptySelectionReturnsAll(recipes: seq<Recipe>)
    ensures OrLikeMatches(recipes, []) == recipes
    decreases |recipes|
  {
    if recipes != [] {
      EmptySelectionReturnsAll(recipes[1..]);
    }
  }

  /** A list of non-empty ingredients none of which contains `", "` comes back
      from its stored column as the menu pieces, in order. */
  lemma ColumnPiecesOfJoin(xs: seq<string>)
    requires forall i :: 0 <= i < |xs| ==> xs[i] != "" && !Occurs(", ", xs[i])
    ensures ColumnPieces(Join(xs, ", ")) == xs
  {
    AsListJoin(xs);
    if xs == [] {
      assert Split("", ", ") == [""];
      assert NonEmpty([""]) == NonEmpty([]) + [];
    } else {
      NonEmptyAll(xs);
    }
  }

  /** Every ingredient of a stored recipe whose column was written from such
      a list is on the menu, so it can be selected ... */
  lemma StoredIngredientOnMenu(recipes: seq<Recipe>, k: nat, xs: seq<string>, i: nat)
    requires k < |recipes| && i < |xs|
    requires forall j :: 0 <= j < |xs| ==> xs[j] != "" && !Occurs(", ", xs[j])
    requires recipes[k].ingredients == Join(xs, ", ")
    ensures xs[i] in Menu(Columns(recipes))
  {
    var columns := Columns(recipes);
    ColumnPiecesOfJoin(xs);
    assert xs[i] in ColumnPieces(columns[k]);
    MenuMembers(columns);
  }

  /** ... and searching for it returns that recipe. */
  lemma StoredIngredientFound(recipes: seq<Recipe>, k: nat, xs: seq<string>, i: nat)
    requires k < |recipes| && i < |xs|
    requires forall j :: 0 <= j < |xs| ==> xs[j] != "" && !Occurs(", ", xs[j])
    requires recipes[k].ingredients == Join(xs, ", ")
    ensures recipes[k] in OrLikeMatches(recipes, [xs[i]])
  {
    JoinedOccurs(xs, i);
    OrLikeMatchesMembers(recipes, [xs[i]]);
    assert OrLike([xs[i]], recipes[k].ingredients) by {
      assert [xs[i]][0] == xs[i];
    }
  }

  /** The table is not empty and the typed id is one of its ids. */
  predicate IdPicked(recipes: seq<Recipe>, selectedId: Option<int>) {
    recipes != [] && selectedId.Some? && IdExists(Ids(recipes), selectedId.value)
  }

  datatype SearchOutcome =
    | NoEntries
    | InvalidInput(catalogue: seq<string>)
    | InvalidSelection(catalogue: seq<string>)
    | Found(catalogue: seq<string>, terms: seq<string>, recipes: seq<Recipe>)

  datatype CreateOutcome = Created(recipe: Recipe) | NameRefused | TimeRefused | CountRefused

  datatype EditOutcome =
    | NoEntries
    | InvalidInput
    | IdNotFound
    | InvalidChoice
    | NameRefused
    | TimeRefused
    | InvalidCount
    | Edited(recipe: Recipe)

  datatype DeleteOutcome = NoEntries | InvalidInput | IdNotFound | Deleted(name: string) | Cancelled

  /** The session and its table `final_recipes`. */
  class Session {
    var recipes: seq<Recipe>

    constructor ()
      ensures recipes == []
    {
      recipes := [];
    }

    /** `create_recipe`: the name and the time must pass their checks and at
        least one ingredient line must be asked for (otherwise the program
        asks again); the lines are stripped, empty ones skipped, and joined
        with `", "`. The id is the one the database assigns. */
    method CreateRecipe(id: int, rawName: string, rawTime: string, lines: seq<string>)
      returns (outcome: CreateOutcome)
      modifies this
      ensures outcome.NameRefused? <==> CheckName(rawName).None?
      ensures outcome.TimeRefused? <==> CheckName(rawName).Some? && CheckCookingTime(rawTime).None?
      ensures outcome.CountRefused? <==>
        (CheckName(rawName).Some? && CheckCookingTime(rawTime).Some? && lines == [])
      ensures !outcome.Created? ==> recipes == old(recipes)
      ensures outcome.Created? ==>
        fresh(outcome.recipe) && recipes == old(recipes) + [outcome.recipe] &&
        outcome.recipe.id == id &&
        outcome.recipe.name == CheckName(rawName).value &&
        outcome.recipe.cookingTime == CheckCookingTime(rawTime).value &&
        outcome.recipe.ingredients == Join(NonEmpty(StripEach(lines)), ", ") &&
        outcome.recipe.difficulty ==
          Some(Classify(CheckCookingTime(rawTime).value, |IngredientsAsList(outcome.recipe.ingredients)|))
    {
      var name := CheckName(rawName);
      if name.None? {
        return CreateOutcome.NameRefused;
      }
      var cookingTime := CheckCookingTime(rawTime);
      if cookingTime.None? {
        return CreateOutcome.TimeRefused;
      }
      if |lines| == 0 {
        return CountRefused;
      }
      var ingredients := CollectCounted(lines);
      var ingredientsStr := Join(ingredients, ", ");
      var recipeEntry := new Recipe(id, name.value, ingredientsStr, cookingTime.value);
      recipeEntry.CalculateDifficulty();
      recipes := recipes + [recipeEntry];
      outcome := Created(recipeEntry);
    }

    /** `search_by_ingredients`. `selection` is `None` when a typed number is
        not an integer. */
    method SearchByIngredients(selection: Option<seq<int>>) returns (outcome: SearchOutcome)
      ensures outcome.NoEntries? <==> recipes == []
      ensures !outcome.NoEntries? ==> outcome.catalogue == Menu(Columns(recipes))
      ensures outcome.InvalidInput? <==> recipes != [] && selection.None?
      ensures outcome.InvalidSelection? <==>
        (recipes != [] && selection.Some? && SelectAllOneBased(Menu(Columns(recipes)), selection.value).None?)
      ensures outcome.Found? ==> Some(outcome.terms) == SelectAllOneBased(Menu(Columns(recipes)), selection.value)
      ensures outcome.Found? ==> outcome.recipes == OrLikeMatches(recipes, outcome.terms)
      ensures outcome.Found? && outcome.terms != [] ==> outcome.recipes != []
    {
      if |recipes| == 0 {
        return SearchOutcome.NoEntries;
      }
      var allIngredients := ExtractIngredients(Columns(recipes));
      if selection.None? {
        return SearchOutcome.InvalidInput(allIngredients);
      }
      var searchIngredients := SelectAllOneBased(allIngredients, selection.value);
      if searchIngredients.None? {
        return InvalidSelection(allIngredients);
      }
      var terms := searchIngredients.value;
      if terms != [] {
        MenuMembers(Columns(recipes));
        assert terms[0] in allIngredients;
        SelectionFound(recipes, terms);
      }
      outcome := Found(allIngredients, terms, OrLikeMatches(recipes, terms));
    }

    /** `edit_recipe`: pick a recipe by id and one attribute; a new name or
        time must pass its check (otherwise the program asks again), a new
        ingredient list is taken as typed; then the difficulty is recomputed
        from the recipe's current fields. No other recipe changes. */
    method EditRecipe(selectedId: Option<int>, choice: Option<int>, newName: string,
                      ingredientLines: Option<seq<string>>, newTime: string)
      returns (outcome: EditOutcome)
      modifies set r | r in recipes
      ensures outcome.NoEntries? <==> recipes == []
      ensures outcome.IdNotFound? <==>
        (recipes != [] && selectedId.Some? && !IdExists(Ids(recipes), selectedId.value))
      ensures outcome.InvalidInput? <==>
        (recipes != [] && (selectedId.None? || (IdExists(Ids(recipes), selectedId.value) && choice.None?)))
      ensures outcome.InvalidChoice? <==>
        (IdPicked(recipes, selectedId) && choice.Some? && choice.value !in {1, 2, 3})
      ensures outcome.NameRefused? <==>
        (IdPicked(recipes, selectedId) && choice == Some(1) && CheckName(newName).None?)
      ensures outcome.InvalidCount? <==>
        (IdPicked(recipes, selectedId) && choice == Some(2) && ingredientLines.None?)
      ensures outcome.TimeRefused? <==>
        (IdPicked(recipes, selectedId) && choice == Some(3) && CheckCookingTime(newTime).None?)
      ensures !outcome.Edited? ==> forall r :: r in recipes ==>
        r.name == old(r.name) && r.ingredients == old(r.ingredients) &&
        r.cookingTime == old(r.cookingTime) && r.difficulty == old(r.difficulty)
      ensures outcome.Edited? ==>
        selectedId.Some? && IdExists(Ids(recipes), selectedId.value) &&
        outcome.recipe == FirstWithId(recipes, selectedId.value) && choice.Some?
      ensures outcome.Edited? ==> forall r :: r in recipes && r != outcome.recipe ==>
        r.name == old(r.name) && r.ingredients == old(r.ingredients) &&
        r.cookingTime == old(r.cookingTime) && r.difficulty == old(r.difficulty)
      ensures outcome.Edited? ==>
        (outcome.recipe.difficulty ==
         Some(Classify(outcome.recipe.cookingTime, |IngredientsAsList(outcome.recipe.ingredients)|)))
      ensures outcome.Edited? && choice.value == 1 ==>
        CheckName(newName).Some? && outcome.recipe.name == CheckName(newName).value &&
        outcome.recipe.ingredients == old(outcome.recipe.ingredients) &&
        outcome.recipe.cookingTime == old(outcome.recipe.cookingTime)
      ensures outcome.Edited? && choice.value == 2 ==>
        ingredientLines.Some? &&
        outcome.recipe.ingredients == Join(NonEmpty(StripEach(ingredientLines.value)), ", ") &&
        outcome.recipe.name == old(outcome.recipe.name) &&
        outcome.recipe.cookingTime == old(outcome.recipe.cookingTime)
      ensures outcome.Edited? && choice.value == 3 ==>
        CheckCookingTime(newTime).Some? && outcome.recipe.cookingTime == CheckCookingTime(newTime).value &&
        outcome.recipe.name == old(outcome.recipe.name) &&
        outcome.recipe.ingredients == old(outcome.recipe.ingredients)
    {
      if |recipes| == 0 {
        return EditOutcome.NoEntries;
      }
      if selectedId.None? {
        return EditOutcome.InvalidInput;
      }
      if !IdExists(Ids(recipes), selectedId.value) {
        return EditOutcome.IdNotFound;
      }
      var recipeToEdit := FirstWithId(recipes, selectedId.value);
      if choice.None? {
        return EditOutcome.InvalidInput;
      }
      if choice.value !in [1, 2, 3] {
        return InvalidChoice;
      }
      if choice.value == 1 {
        var name := CheckName(newName);
        if name.None? {
          return EditOutcome.NameRefused;
        }
        recipeToEdit.name := name.value;
      } else if choice.value == 2 {
        if ingredientLines.None? {
          return InvalidCount;
        }
        var ingredients := CollectCounted(ingredientLines.value);
        recipeToEdit.ingredients := Join(ingredients, ", ");
      } else {
        var cookingTime := CheckCookingTime(newTime);
        if cookingTime.None? {
          return EditOutcome.TimeRefused;
        }
        recipeToEdit.cookingTime := cookingTime.value;
      }
      recipeToEdit.CalculateDifficulty();
      outcome := Edited(recipeToEdit);
    }

    /** `delete_recipe`: pick a recipe by id; only the answer `yes` (in any
        case, blanks around it ignored) deletes it. */
    method DeleteRecipe(selectedId: Option<int>, confirm: string) returns (outcome: DeleteOutcome)
      modifies this
      ensures outcome.NoEntries? <==> old(recipes) == []
      ensures outcome.InvalidInput? <==> old(recipes) != [] && selectedId.None?
      ensures outcome.IdNotFound? <==>
        (old(recipes) != [] && selectedId.Some? && !IdExists(Ids(old(recipes)), selectedId.value))
      ensures outcome.Deleted? <==>
        (old(recipes) != [] && selectedId.Some? && IdExists(Ids(old(recipes)), selectedId.value) &&
         Strip(Lower(confirm)) == "yes")
      ensures outcome.Deleted? ==>
        recipes == Except(old(recipes), FirstWithId(old(recipes), selectedId.value)) &&
        outcome.name == FirstWithId(old(recipes), selectedId.value).name
      ensures !outcome.Deleted? ==> recipes == old(recipes)
    {
      if |recipes| == 0 {
        return DeleteOutcome.NoEntries;
      }
      if selectedId.None? {
        return DeleteOutcome.InvalidInput;
      }
      if !IdExists(Ids(recipes), selectedId.value) {
        return DeleteOutcome.IdNotFound;
      }
      var recipeToDelete := FirstWithId(recipes, selectedId.value);
      var answer := Strip(Lower(confirm));
      if answer == "yes" {
        recipes := Except(recipes, recipeToDelete);
        outcome := Deleted(recipeToDelete.name);
      } else {
        outcome := Cancelled;
      }
    }
  }

  /** A recipe created from ingredients none of which contains `", "` gets the
      level of the count that was entered: the column reads back as the
      collected list. */
  lemma CreatedLevel(lines: seq<string>, t: int)
    requires forall i :: 0 <= i < |NonEmpty(StripEach(lines))| ==> !Occurs(", ", NonEmpty(StripEach(lines))[i])
    ensures Classify(t, |IngredientsAsList(Join(NonEmpty(StripEach(lines)), ", "))|) ==
            Classify(t, |NonEmpty(StripEach(lines))|)
  {
    var xs := NonEmpty(StripEach(lines));
    NonEmptyMembers(StripEach(lines));
    assert forall i :: 0 <= i < |xs| ==> xs[i] in xs;
    AsListJoin(xs);
  }
}
