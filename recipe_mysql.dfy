/**
 * Exercise 1.6: recipes kept in a MySQL table `Recipes(id, name, ingredients,
 * cooking_time, difficulty)`. The table is modelled as the sequence of its
 * rows in storage order; each `INSERT`, `UPDATE ... WHERE id` and
 * `DELETE ... WHERE id` statement becomes an update of that sequence.
 */
module RecipeMysql {
  import opened Text
  import opened SplitJoin
  import opened StrOrder
  import opened Difficulty
  import opened Catalogue
  import opened InputRules

  /** One row of `Recipes`. */
  datatype Row = Row(id: int, name: string, ingredients: string, cookingTime: int, difficulty: string)

  // ---------------------------------------------------------------------------
  // Ingredient entry

  /** What the entry loop of `create_recipe` and `update_recipe` collects:
      every line stripped, entry ending at the first that reads `done`, empty
      lines skipped. */
  function StrippedBeforeDone(lines: seq<string>): (r: seq<string>)
    ensures |r| <= |lines|
    ensures forall i :: 0 <= i < |r| ==> r[i] != "" && Stripped(r[i]) && !IsDone(r[i])
  {
    if lines == [] then []
    else
      var ingredient := Strip(lines[0]);
      if IsDone(ingredient) then []
      else if ingredient == "" then StrippedBeforeDone(lines[1..])
      else [ingredient] + StrippedBeforeDone(lines[1..])
  }

  /** The same collection described in three stages: strip every line, cut at
      the first sentinel, drop the empty strings. */
  lemma {:induction false} StrippedBeforeDoneStages(lines: seq<string>)
    ensures StrippedBeforeDone(lines) == NonEmpty(BeforeDone(StripEach(lines)))
  {
    if lines != [] {
      var s := StripEach(lines);
      assert s[1..] == StripEach(lines[1..]);
      StrippedBeforeDoneStages(lines[1..]);
      if !IsDone(s[0]) {
        NonEmptyCons(s[0], BeforeDone(s[1..]));
      }
    }
  }

  /** The entry loop itself. */
  method CollectIngredients(lines: seq<string>) returns (ingredients: seq<string>)
    ensures ingredients == StrippedBeforeDone(lines)
  {
    ingredients := [];
    var i := 0;
    while i < |lines|
      invariant 0 <= i <= |lines|
      invariant ingredients + StrippedBeforeDone(lines[i..]) == StrippedBeforeDone(lines)
    {
      var ingredient := Strip(lines[i]);
      assert lines[i..][1..] == lines[i + 1..];
      if IsDone(ingredient) {
        return;
      }
      if ingredient != "" {
        ingredients := ingredients + [ingredient];
      }
      i := i + 1;
    }
  }

  // ---------------------------------------------------------------------------
  // The table and its statements

  function Ids(rows: seq<Row>): (r: seq<int>)
    ensures |r| == |rows|
    ensures forall k :: 0 <= k < |rows| ==> r[k] == rows[k].id
  {
    seq(|rows|, k requires 0 <= k < |rows| => rows[k].id)
  }

  /** `next(recipe for recipe in recipes if recipe[0] == recipe_id)`: the first
      fetched row with that id. */
  function Selected(rows: seq<Row>, id: int): (r: Row)
    requires IdExists(Ids(rows), id)
    ensures r in rows && r.id == id
    ensures exists k :: 0 <= k < |rows| && rows[k] == r && forall j :: 0 <= j < k ==> rows[j].id != id
  {
    var k := FirstIdIndex(Ids(rows), id);
    assert forall j :: 0 <= j < k ==> rows[j].id == Ids(rows)[j];
    rows[k]
  }

  /** The column an `UPDATE Recipes SET <column> = %s` statement writes. */
  datatype Column =
    | NameColumn(name: string)
    | CookingTimeColumn(cookingTime: int)
    | IngredientsColumn(ingredients: string)
    | DifficultyColumn(difficulty: string)

  /** One row after the `SET`: the written column holds the value, and the id
      and every other column are as they were. */
  function Assign(row: Row, c: Column): (r: Row)
    ensures r.id == row.id
    ensures r.name == (if c.NameColumn? then c.name else row.name)
    ensures r.cookingTime == (if c.CookingTimeColumn? then c.cookingTime else row.cookingTime)
    ensures r.ingredients == (if c.IngredientsColumn? then c.ingredients else row.ingredients)
    ensures r.difficulty == (if c.DifficultyColumn? then c.difficulty else row.difficulty)
  {
    match c
    case NameColumn(v) => row.(name := v)
    case CookingTimeColumn(v) => row.(cookingTime := v)
    case IngredientsColumn(v) => row.(ingredients := v)
    case DifficultyColumn(v) => row.(difficulty := v)
  }

  /** `UPDATE Recipes SET <column> = <value> WHERE id = <id>`: every row with
      that id gets the value, no other row and no id changes. */
  function SetWhere(rows: seq<Row>, id: int, c: Column): (r: seq<Row>)
    ensures |r| == |rows| && Ids(r) == Ids(rows)
    ensures forall k :: 0 <= k < |rows| ==> r[k] == if rows[k].id == id then Assign(rows[k], c) else rows[k]
  {
    seq(|rows|, k requires 0 <= k < |rows| => if rows[k].id == id then Assign(rows[k], c) else rows[k])
  }

  /** After the update, the row the program selects by that id is the row it
      selected before, with the column written. */
  lemma SetWhereSelected(rows: seq<Row>, id: int, c: Column)
    requires IdExists(Ids(rows), id)
    ensures IdExists(Ids(SetWhere(rows, id, c)), id)
    ensures Selected(SetWhere(rows, id, c), id) == Assign(Selected(rows, id), c)
  {
  }

  /** `DELETE FROM Recipes WHERE id = <id>`: the other rows, in order. */
  function Without(rows: seq<Row>, id: int): (r: seq<Row>)
    ensures |r| <= |rows|
    ensures forall x :: x in r <==> x in rows && x.id != id
    ensures !IdExists(Ids(r), id)
  {
    if rows == [] then []
    else
      var rest := Without(rows[1..], id);
      assert forall x :: x in rows <==> x == rows[0] || x in rows[1..];
      if rows[0].id == id then rest else [rows[0]] + rest
  }

  /** The rows `WHERE ingredients LIKE '%<term>%'` selects, read as a plain
      substring test, in storage order. */
  function LikeMatches(rows: seq<Row>, term: string): (r: seq<Row>)
    ensures |r| <= |rows|
    ensures forall x :: x in r <==> x in rows && Occurs(term, x.ingredients)
  {
    if rows == [] then []
    else
      var rest := LikeMatches(rows[1..], term);
      assert forall x :: x in rows <==> x == rows[0] || x in rows[1..];
      if Occurs(term, rows[0].ingredients) then [rows[0]] + rest else rest
  }

  /** The non-empty stripped pieces of a stored ingredients column. */
  function Pieces(column: string): (r: seq<string>)
    ensures forall y :: y in r <==> y in ParseStripped(column) && y != ""
    ensures forall y :: y in r ==> Stripped(y)
  {
    NonEmptyMembers(ParseStripped(column));
    NonEmpty(ParseStripped(column))
  }

  /** The `ingredients` column of each row, in storage order. Here the column
      is one comma-joined string, not a list, so this projection is kept apart
      from the list-valued ones of the earlier exercises. */
  function Columns(rows: seq<Row>): (r: seq<string>)
    ensures |r| == |rows|
    ensures forall k :: 0 <= k < |rows| ==> r[k] == rows[k].ingredients
  {
    seq(|rows|, k requires 0 <= k < |rows| => rows[k].ingredients)
  }

  /** The menu `search_recipe` builds before sorting: the pieces of every
      column in storage order, each listed once, first occurrence first. */
  function Menu(rows: seq<Row>): (r: seq<string>)
    ensures r == AddNew([], AllPieces(Columns(rows), Pieces))
    ensures NoDuplicates(r)
  {
    GatherFlat(Columns(rows), Pieces);
    GatherMembers(Columns(rows), Pieces);
    Gather(Columns(rows), Pieces)
  }

  /** Some stored column has `y` among its non-empty stripped pieces. */
  predicate HasPiece(rows: seq<Row>, y: string) {
    PieceOfSome(Columns(rows), Pieces, y)
  }

  /** An ingredient offered by the search menu is a piece of some stored
      column, so the `LIKE` query that follows finds that row. */
  lemma PieceOccurs(column: string, y: string)
    requires y in ParseStripped(column)
    ensures Occurs(y, column)
  {
    var parts := Split(column, ",");
    var k :| 0 <= k < |parts| && StripEach(parts)[k] == y;
    SplitPiecesOccur(column, ",");
    StripOccurs(parts[k]);
    OccursTransitive(y, parts[k], column);
  }

  /** The outer loop of the menu construction, over the fetched columns. */
  method ExtractIngredients(rows: seq<Row>) returns (allIngredients: seq<string>)
    ensures allIngredients == Menu(rows)
  {
    var columns := Columns(rows);
    allIngredients := [];
    var i := 0;
    while i < |rows|
      invariant 0 <= i <= |rows|
      invariant allIngredients == Gather(columns[..i], Pieces)
    {
      var ingredientsList := ParseStripped(rows[i].ingredients);
      assert columns[..i + 1][..i] == columns[..i];
      allIngredients := AppendNonEmpty(allIngredients, ingredientsList);
      i := i + 1;
    }
    assert columns[..i] == columns;
  }

  /** The sorted menu is strictly ascending and lists exactly the non-empty
      stripped pieces of the stored columns. */
  lemma MenuFacts(rows: seq<Row>)
    ensures StrictlyAscending(Sort(Menu(rows)))
    ensures forall y :: y in Sort(Menu(rows)) <==> HasPiece(rows, y)
  {
    var all := Menu(rows);
    GatherMembers(Columns(rows), Pieces);
    SortStrict(all);
    forall y ensures y in Sort(all) <==> y in all {
      assert y in Sort(all) <==> y in multiset(Sort(all));
      assert y in all <==> y in multiset(all);
    }
  }

  /** A recipe created by typing `done` at once stores `""`. When every stored
      column is `""`, no column has a piece and the menu is empty, so no
      one-based choice is in range and the program's choice loop never ends;
      the search then refuses every choice. */
  lemma {:induction false} AllColumnsEmpty(rows: seq<Row>)
    requires forall k :: 0 <= k < |rows| ==> rows[k].ingredients == ""
    ensures forall y :: !HasPiece(rows, y)
    ensures AllPieces(Columns(rows), Pieces) == []
    ensures Menu(rows) == []
  {
    ParseStrippedEmpty();
    GatherMembers(Columns(rows), Pieces);
    if rows != [] {
      var init := rows[..|rows| - 1];
      AllColumnsEmpty(init);
      assert Columns(rows)[..|rows| - 1] == Columns(init);
      assert Pieces(Columns(rows)[|rows| - 1]) == [];
    }
  }

  /** Every ingredient the menu offers is found by the `LIKE` query, so the
      "no recipes found" branch of the search cannot be reached. */
  lemma MenuTermFound(rows: seq<Row>, y: string)
    requires HasPiece(rows, y)
    ensures LikeMatches(rows, y) != []
  {
    var k :| 0 <= k < |rows| && y in Pieces(Columns(rows)[k]);
    NonEmptyMembers(ParseStripped(rows[k].ingredients));
    PieceOccurs(rows[k].ingredients, y);
    assert rows[k] in LikeMatches(rows, y);
  }

  datatype SearchOutcome =
    | NoRecipes
    | ChoiceRefused(catalogue: seq<string>)
    | Results(catalogue: seq<string>, term: string, matches: seq<Row>)

  datatype UpdateOutcome = NoRecipes | IdNotFound | ColumnRefused | NameEmpty | NoIngredients | Updated

  datatype DeleteOutcome = NoRecipes | IdNotFound | Deleted(name: string) | Cancelled

  /** The table `Recipes`. Ids are given by the caller where the database
      would assign the next auto-increment value. */
  class RecipeTable {
    var rows: seq<Row>

    constructor ()
      ensures rows == []
    {
      rows := [];
    }

    /** `create_recipe`: collect, compute the difficulty from the collected
        list, store the list joined with `", "`. */
    method CreateRecipe(id: int, name: string, cookingTime: int, lines: seq<string>)
      modifies this
      ensures rows == old(rows) + [Row(id, name, Join(StrippedBeforeDone(lines), ", "), cookingTime,
                                       Label(Classify(cookingTime, |StrippedBeforeDone(lines)|)))]
    {
      var ingredients := CollectIngredients(lines);
      var difficulty := CalcDifficulty(cookingTime, ingredients);
      var ingredientsStr := Join(ingredients, ", ");
      rows := rows + [Row(id, name, ingredientsStr, cookingTime, difficulty)];
    }

    /** `search_recipe`: build the sorted ingredient menu from every stored
        column, take the one-based `choice`, and select the rows whose column
        contains the chosen ingredient. A choice outside the menu is refused
        (the program asks again). */
    method SearchRecipe(choice: int) returns (outcome: SearchOutcome)
      ensures outcome.NoRecipes? <==> rows == []
      ensures !outcome.NoRecipes? ==> outcome.catalogue == Sort(Menu(rows))
      ensures !outcome.NoRecipes? ==> StrictlyAscending(outcome.catalogue)
      ensures !outcome.NoRecipes? ==> forall y :: y in outcome.catalogue <==> HasPiece(rows, y)
      ensures outcome.ChoiceRefused? <==> rows != [] && !(1 <= choice <= |outcome.catalogue|)
      ensures outcome.Results? ==> outcome.term == outcome.catalogue[choice - 1]
      ensures outcome.Results? ==> outcome.matches == LikeMatches(rows, outcome.term)
      ensures outcome.Results? ==> outcome.matches != []
    {
      if rows == [] {
        return SearchOutcome.NoRecipes;
      }
      var allIngredients := ExtractIngredients(rows);
      allIngredients := Sort(allIngredients);
      var catalogue := allIngredients;
      MenuFacts(rows);
      var picked := SelectOneBased(catalogue, choice);
      if picked.None? {
        return ChoiceRefused(catalogue);
      }
      var searchIngredient := picked.value;
      MenuTermFound(rows, searchIngredient);
      var matches := LikeMatches(rows, searchIngredient);
      outcome := Results(catalogue, searchIngredient, matches);
    }

    /** `update_recipe`: pick a row by id and one column; a name is stripped
        and must be non-empty, a new ingredient list must be non-empty; a new
        time or new ingredients also rewrite the difficulty, computed from the
        selected row's other column as it was fetched. */
    method UpdateRecipe(recipeId: int, columnChoice: int, newName: string, newCookingTime: int, lines: seq<string>)
      returns (outcome: UpdateOutcome)
      modifies this
      ensures outcome.NoRecipes? <==> old(rows) == []
      ensures outcome.IdNotFound? <==> old(rows) != [] && !IdExists(Ids(old(rows)), recipeId)
      ensures outcome.ColumnRefused? <==>
        old(rows) != [] && IdExists(Ids(old(rows)), recipeId) && !(1 <= columnChoice <= 3)
      ensures outcome.NameEmpty? ==> columnChoice == 1 && Strip(newName) == ""
      ensures outcome.NoIngredients? ==> columnChoice == 3 && StrippedBeforeDone(lines) == []
      ensures !outcome.Updated? ==> rows == old(rows)
      ensures outcome.Updated? && columnChoice == 1 ==>
        Strip(newName) != "" && rows == SetWhere(old(rows), recipeId, NameColumn(Strip(newName)))
      ensures outcome.Updated? && columnChoice == 2 ==>
        rows == SetWhere(SetWhere(old(rows), recipeId, CookingTimeColumn(newCookingTime)), recipeId,
          DifficultyColumn(Label(Classify(newCookingTime, |ParseStripped(Selected(old(rows), recipeId).ingredients)|))))
      ensures outcome.Updated? && columnChoice == 3 ==>
        StrippedBeforeDone(lines) != [] &&
        rows == SetWhere(SetWhere(old(rows), recipeId, IngredientsColumn(Join(StrippedBeforeDone(lines), ", "))), recipeId,
          DifficultyColumn(Label(Classify(Selected(old(rows), recipeId).cookingTime, |StrippedBeforeDone(lines)|))))
      ensures Ids(rows) == Ids(old(rows))
    {
      var recipes := rows;
      if recipes == [] {
        return UpdateOutcome.NoRecipes;
      }
      if !IdExists(Ids(recipes), recipeId) {
        return UpdateOutcome.IdNotFound;
      }
      var selected := Selected(recipes, recipeId);
      if !(1 <= columnChoice <= 3) {
        return ColumnRefused;
      }
      if columnChoice == 1 {
        var newValue := Strip(newName);
        if newValue != "" {
          rows := SetWhere(rows, recipeId, NameColumn(newValue));
        } else {
          return NameEmpty;
        }
      } else if columnChoice == 2 {
        rows := SetWhere(rows, recipeId, CookingTimeColumn(newCookingTime));
        var ingredientsList := ParseStripped(selected.ingredients);
        var newDifficulty := CalcDifficulty(newCookingTime, ingredientsList);
        rows := SetWhere(rows, recipeId, DifficultyColumn(newDifficulty));
      } else {
        var newIngredients := CollectIngredients(lines);
        if newIngredients != [] {
          rows := SetWhere(rows, recipeId, IngredientsColumn(Join(newIngredients, ", ")));
          var newDifficulty := CalcDifficulty(selected.cookingTime, newIngredients);
          rows := SetWhere(rows, recipeId, DifficultyColumn(newDifficulty));
        } else {
          return NoIngredients;
        }
      }
      outcome := Updated;
    }

    /** `delete_recipe`: pick a row by id; the answer, lower-cased and
        stripped, must be `y` or `yes`. */
    method DeleteRecipe(recipeId: int, confirm: string) returns (outcome: DeleteOutcome)
      modifies this
      ensures outcome.NoRecipes? <==> old(rows) == []
      ensures outcome.IdNotFound? <==> old(rows) != [] && !IdExists(Ids(old(rows)), recipeId)
      ensures outcome.Deleted? <==>
        (old(rows) != [] && IdExists(Ids(old(rows)), recipeId) &&
         (Strip(Lower(confirm)) == "y" || Strip(Lower(confirm)) == "yes"))
      ensures outcome.Deleted? ==>
        outcome.name == Selected(old(rows), recipeId).name && rows == Without(old(rows), recipeId)
      ensures !outcome.Deleted? ==> rows == old(rows)
    {
      var recipes := rows;
      if recipes == [] {
        return DeleteOutcome.NoRecipes;
      }
      if !IdExists(Ids(recipes), recipeId) {
        return DeleteOutcome.IdNotFound;
      }
      var recipeName := Selected(recipes, recipeId).name;
      var answer := Strip(Lower(confirm));
      if answer == "y" || answer == "yes" {
        rows := Without(rows, recipeId);
        outcome := Deleted(recipeName);
      } else {
        outcome := Cancelled;
      }
    }
  }

  // ---------------------------------------------------------------------------
  // Recounting the stored list

  /** A time update recounts the ingredients by parsing the stored column.
      For a list the entry loop collected (stripped, non-empty) and with no
      comma inside an ingredient, the recount yields the level the list had
      at creation; for the empty list, stored as `""` and read back as one
      empty piece, the count is 1 instead of 0 but the level is the same. */
  lemma RecountAgrees(xs: seq<string>, t: int)
    requires forall i :: 0 <= i < |xs| ==> Stripped(xs[i]) && ',' !in xs[i]
    ensures Classify(t, |ParseStripped(Join(xs, ", "))|) == Classify(t, |xs|)
  {
    if xs == [] {
      ParseStrippedEmpty();
    } else {
      ParseStrippedJoin(xs);
    }
  }

  /** A comma inside one ingredient is counted as a separator by the recount:
      created with three ingredients and 20 minutes the recipe is
      Intermediate, but a time update to the same 20 minutes reads four
      ingredients back and stores Hard. */
  lemma CommaInIngredientRecount()
    ensures CalcDifficulty(20, ["salt, pepper", "flour", "eggs"]) == "Intermediate"
    ensures CalcDifficulty(20, ParseStripped(Join(["salt, pepper", "flour", "eggs"], ", "))) == "Hard"
  {
    var xs := ["salt, pepper", "flour", "eggs"];
    assert Join(xs, ", ") == "salt, pepper, flour, eggs" by {
      assert xs[1..] == ["flour", "eggs"] && xs[1..][1..] == ["eggs"];
    }
    FourPieces();
  }

  lemma FourPieces()
    ensures |Split("salt, pepper, flour, eggs", ",")| == 4
  {
    var parts := ["salt", " pepper", " flour", " eggs"];
    assert Join(parts, ",") == "salt, pepper, flour, eggs" by {
      assert parts[1..] == [" pepper", " flour", " eggs"];
      assert parts[1..][1..] == [" flour", " eggs"];
      assert parts[1..][1..][1..] == [" eggs"];
    }
    CommaSafe("salt");
    CommaSafe(" pepper");
    CommaSafe(" flour");
    CommaSafe(" eggs");
    SplitOfJoin(parts, ",");
  }
}
