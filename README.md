# Recipe programs, modelled in Dafny

The repository is a series of small Python recipe programs, one per exercise.
Each one stores recipes (a name, a cooking time in minutes and a list of
ingredients), rates each recipe's difficulty from its time and number of
ingredients, keeps a list of every ingredient it has seen, and lets the user
search recipes by ingredient. The storage changes from exercise to exercise:

- Exercise 1.3 keeps dictionaries in two top-level lists.
- Exercise 1.4 keeps them in a pickled dictionary, with a separate search script.
- Exercise 1.5 keeps `Recipe` objects with a class-wide ingredient list.
- Exercise 1.6 keeps a MySQL table `Recipes`.
- Exercise 1.7 keeps an SQLAlchemy-mapped table with create, search, edit and delete commands.

Each Python file has its own Dafny module:

| Dafny file | Models |
|---|---|
| `exercise13.dfy` | `Exercise-1.3/Exercise_1.3.py` |
| `recipe_input.dfy`, `recipe_search.dfy` | the two scripts of `Exercise-1.4` |
| `recipe_oop.dfy` | `Exercise-1.5/recipe_oop.py` |
| `recipe_mysql.dfy` | `Exercise-1.6/recipe_mysql.py` |
| `recipe_app.dfy` | `Exercise-1.7/recipe_app.py` |

Every program leans on the same logic. That logic is defined once, in shared modules:

- `Difficulty`: the quick/simple table. A time under 10 minutes is quick and fewer than 4 ingredients is simple, which gives Easy, Medium, Intermediate or Hard.
- `Catalogue`: the "append if not already present" accumulation of ingredient names.
- `Text`: Python's `strip`, `lower` and `isnumeric`, plus substring search.
- `SplitJoin`: `split` and `join`, and how a stored ingredients column is read back.
- `StrOrder`: code-point string order and `list.sort`.
- `InputRules`: the sentinel-terminated entry loop, name and time checks, numbered choices, and id lookup.

Each program is modelled in the form it has:

- Loops the programs run become Dafny methods with loop invariants.
- Objects whose fields are updated become classes: the 1.5 `Recipe`, the 1.7 mapped `Recipe` and its session, the 1.6 table. Their methods carry `modifies` frames.
- Pure computations become functions, with lemmas stating what they promise.

Keyboard answers come in as already-read parameters:

- A re-prompt loop becomes a refusal outcome that changes nothing.
- An auto-increment id is supplied by the caller.

## Model

| member | source | states |
|---|---|---|
| Difficulty.Label | Exercise-1.4/recipe_input.py:9-16 | the stored text of a level is always one of "Easy", "Medium", "Intermediate" and "Hard" |
| Difficulty.Classify | Exercise-1.4/recipe_input.py:9-16 | the quick/simple table: the level is Easy or Medium exactly when the time is under 10, and Easy or Intermediate exactly when there are fewer than 4 ingredients |
| Difficulty.ElifChain | Exercise-1.4/recipe_input.py:9-16 | the literal chain always yields one of the four labels, and its catch-all `else` gives "Hard" exactly for a time of 10 or more with 4 or more ingredients |
| Difficulty.ChainIsTable | Exercise-1.3/Exercise_1.3.py:59-66 | the literal `if`/`elif`/`else` chain yields the label of the quick/simple table for every time and count |
| Difficulty.ClassifyTable | Exercise-1.4/recipe_input.py:9-16 | each level holds exactly when its two conditions hold (time below or at least 10, count below or at least 4), in both directions |
| Difficulty.LabelInjective | Exercise-1.4/recipe_input.py:9-16 | the four labels are distinct, so a stored label determines the level |
| Difficulty.ClassifyMonotone | Exercise-1.4/recipe_input.py:9-16 | more time and more ingredients never give an easier level |
| Difficulty.ClassifyThresholds | Exercise-1.4/recipe_input.py:9-16 | only the sides of the thresholds 10 and 4 matter |
| Difficulty.CalcDifficulty | Exercise-1.4/recipe_input.py:3-18 | the label of the table, always one of the four; `calculate_difficulty` in Exercise-1.6/recipe_mysql.py:32-54 is the same function |
| Text.Strip | Exercise-1.6/recipe_mysql.py:75 | the result has no leading or trailing whitespace and is no longer than the input; `StripInfix` pins down which piece it is |
| Text.StripInfix | Exercise-1.6/recipe_mysql.py:75 | the stripped string is a contiguous part of the input with only whitespace before and after it, so it keeps every non-blank character |
| Text.StripStripped | Exercise-1.6/recipe_mysql.py:75 | stripping an already stripped string changes nothing |
| Text.StripOccurs | Exercise-1.6/recipe_mysql.py:117 | a stripped piece occurs in the string it came from |
| Text.Lower | Exercise-1.3/Exercise_1.3.py:20 | same length; each character lower-cased exactly when it is an upper-case ASCII letter |
| Text.DoneSpellings | Exercise-1.3/Exercise_1.3.py:20 | a line ends the entry exactly when it is the four letters of `done`, each in either case, with nothing before or after |
| Text.DecimalRoundTrip | Exercise-1.7/recipe_app.py:104-110 | reading back the decimal numeral of `n` gives `n` |
| Text.OccursAt | Exercise-1.6/recipe_mysql.py:147-151 | a substring occurs exactly when it is a prefix of some suffix |
| Text.OccursTransitive | Exercise-1.6/recipe_mysql.py:147-151 | a substring of a substring is a substring |
| SplitJoin.SplitOfJoin | Exercise-1.6/recipe_mysql.py:85 | splitting a joined non-empty list gives the list back when no piece makes an early separator match |
| SplitJoin.SplitPiecesOccur | Exercise-1.6/recipe_mysql.py:117 | every piece of a split occurs in the split string, the first at its start |
| SplitJoin.IngredientsAsList | Exercise-1.7/recipe_app.py:71-78 | the list is empty exactly when the column is empty |
| SplitJoin.AsListJoin | Exercise-1.7/recipe_app.py:71-78 | reading back a `", "`-joined list of non-empty pieces without `", "` gives that list, the empty list included |
| SplitJoin.JoinedOccurs | Exercise-1.7/recipe_app.py:130 | each stored ingredient occurs in the joined column |
| SplitJoin.ParseStrippedJoin | Exercise-1.6/recipe_mysql.py:255 | the `split(',')`-and-strip recount of a stored non-empty list of stripped, comma-free ingredients is that list |
| SplitJoin.ParseStrippedEmpty | Exercise-1.6/recipe_mysql.py:255 | the empty list is stored as `""` and read back as one empty ingredient |
| SplitJoin.SplitCommaOfJoin | Exercise-1.6/recipe_mysql.py:117 | splitting a `", "`-joined list on `","` leaves a blank in front of every piece after the first |
| StrOrder.LessTrichotomy | Exercise-1.3/Exercise_1.3.py:78 | the code-point order is total and asymmetric |
| StrOrder.LessTransitive | Exercise-1.3/Exercise_1.3.py:78 | the code-point order is transitive |
| StrOrder.Sort | Exercise-1.3/Exercise_1.3.py:78 | `sort()` keeps the same multiset of names |
| StrOrder.SortSorted | Exercise-1.3/Exercise_1.3.py:78 | `sort()` leaves the list in ascending order |
| StrOrder.SortStrict | Exercise-1.6/recipe_mysql.py:125 | a sorted list without duplicates is strictly ascending |
| Catalogue.AddNewExtends | Exercise-1.3/Exercise_1.3.py:42-45 | adding names never removes or reorders the known ones |
| Catalogue.AddNewMembers | Exercise-1.3/Exercise_1.3.py:42-45 | afterwards a name is listed exactly when it was known or was added |
| Catalogue.AddNewNoDuplicates | Exercise-1.3/Exercise_1.3.py:42-45 | the list never holds a name twice |
| Catalogue.AddNewKnown | Exercise-1.4/recipe_input.py:97-99 | adding only known names changes nothing |
| Catalogue.AddNewIdempotent | Exercise-1.4/recipe_input.py:97-99 | adding the same names twice is the same as adding them once |
| Catalogue.AddNewFirstSeenOrder | Exercise-1.3/Exercise_1.3.py:42-45 | new names are appended in the order of their first appearance |
| Catalogue.AddNewAllMembers | Exercise-1.4/recipe_input.py:88-99 | over many recipes, the known names stay a prefix and a name is listed exactly when it was known or belongs to some recipe |
| Catalogue.AddNewConcat | Exercise-1.3/Exercise_1.3.py:42-45 | running the loop over one list and then another gives the same list as running it once over the two joined |
| Catalogue.AddNewAllFlat | Exercise-1.4/recipe_input.py:88-99 | the loop over recipe after recipe is the first-seen accumulation of all their ingredients written one after the other |
| Catalogue.AddNewAllFirstSeenOrder | Exercise-1.4/recipe_input.py:88-99 | over many recipes, each added name is new and comes from some recipe, and the added names are ordered by their first appearance across the recipes |
| Catalogue.AppendNew | Exercise-1.3/Exercise_1.3.py:42-45 | the inner loop computes exactly the first-seen accumulation |
| Catalogue.NonEmptyMembers | Exercise-1.6/recipe_mysql.py:121-122 | filtering keeps exactly the non-empty names |
| Catalogue.AppendNonEmpty | Exercise-1.6/recipe_mysql.py:120-122 | the loop adds each non-empty, unseen piece in first-seen order |
| Catalogue.GatherMembers | Exercise-1.6/recipe_mysql.py:113-122 | the menu built over all columns has no duplicates and lists exactly the pieces of some column |
| Catalogue.GatherFlat | Exercise-1.7/recipe_app.py:176-181 | building the menu column by column is the first-seen accumulation of all the columns' pieces in storage order |
| Catalogue.GatherFirstSeenOrder | Exercise-1.7/recipe_app.py:176-181 | the menu lists the pieces ordered by their first appearance across the columns in storage order |
| Catalogue.IngredientCatalogue.Update | Exercise-1.5/recipe_oop.py:96-103 | the class-wide list becomes the first-seen accumulation of the recipe's ingredients |
| Catalogue.IngredientCatalogue.constructor | Exercise-1.5/recipe_oop.py:7 | the class-wide list starts empty |
| InputRules.BeforeDone | Exercise-1.3/Exercise_1.3.py:18-22 | the collected lines are a prefix of the input, none reads `done`, and the next line (if any) does |
| InputRules.CollectUntilDone | Exercise-1.3/Exercise_1.3.py:18-22 | the loop collects exactly the lines before the first `done` |
| InputRules.CheckName | Exercise-1.7/recipe_app.py:94-101 | a name is accepted exactly when it has 1 to 50 characters once stripped; the accepted name is the stripped input |
| InputRules.CheckNameAccepted | Exercise-1.7/recipe_app.py:94-101 | an accepted name passes the check again unchanged |
| InputRules.CheckCookingTime | Exercise-1.7/recipe_app.py:104-110 | a time is accepted exactly when the stripped text is all digits, and its value is the decimal value of those digits |
| InputRules.CheckCookingTimeNumeral | Exercise-1.7/recipe_app.py:104-110 | every non-negative numeral is accepted as its own value |
| InputRules.CheckCookingTimeRefusesSign | Exercise-1.7/recipe_app.py:104-110 | a leading minus sign is refused, so no stored time is negative |
| InputRules.SelectOneBased | Exercise-1.6/recipe_mysql.py:135-144 | a choice is accepted exactly when it lies in `1..len`, and picks the ingredient at position `choice - 1` |
| InputRules.SelectAllOneBased | Exercise-1.7/recipe_app.py:189-204 | the numbers are accepted exactly when all lie in `1..len`, and each picks the ingredient at its number |
| InputRules.PyIndex | Exercise-1.4/recipe_search.py:31-36 | Python indexing succeeds exactly for `-len <= i < len`, counting negative indices from the end |
| InputRules.OneBasedVersusPyIndex | Exercise-1.4/recipe_search.py:24-32 | the two numberings agree up to the shift by one; only Python indexing accepts `-1`, as the last item |
| InputRules.FirstIdIndex | Exercise-1.6/recipe_mysql.py:210 | the position found holds the id and no earlier position does |
| Exercise13.TakeRecipe | Exercise-1.3/Exercise_1.3.py:6-31 | the recipe holds the name, the time and the lines before `done`, none of which reads `done` |
| Exercise13.CollectRecipes | Exercise-1.3/Exercise_1.3.py:37-48 | one recipe per answer, in order; the ingredient list has no duplicates, lists exactly the ingredients of some recipe, and orders them by first appearance across the recipes |
| Exercise13.DisplayedDifficulties | Exercise-1.3/Exercise_1.3.py:54-66 | each displayed difficulty is the table's label for that recipe |
| Exercise13.Run | Exercise-1.3/Exercise_1.3.py:34-79 | recipes and difficulties as above; the final list is strictly ascending and a permutation of the collected names |
| RecipeInput.TakeRecipe | Exercise-1.4/recipe_input.py:20-52 | the record's ingredients are a prefix of the typed lines, and its difficulty matches their count |
| RecipeInput.EnterRecipes | Exercise-1.4/recipe_input.py:88-99 | the new records are appended in order; the ingredient list extends the old one, stays duplicate-free, lists exactly the old names and the new recipes' ingredients, and adds the new names in the order of their first appearance across the entered recipes |
| RecipeSearch.ContainingMembers | Exercise-1.4/recipe_search.py:44-47 | a recipe is listed exactly when it is stored and names the ingredient |
| RecipeSearch.ContainingAppend | Exercise-1.4/recipe_search.py:44-47 | matches over more recipes keep the earlier matches first |
| RecipeSearch.SearchIngredient | Exercise-1.4/recipe_search.py:14-50 | refused exactly on a non-integer or out-of-range index; otherwise the recipes containing the ingredient are shown in order, and "no recipes" exactly when none are |
| RecipeSearch.EnteredRecipesAreFound | Exercise-1.4/recipe_search.py:44-47 | searching the list saved after an entry run lists the loaded matches first, then the entered ones, and finds every entered recipe naming the ingredient |
| RecipeOop.Recipe.constructor | Exercise-1.5/recipe_oop.py:9-19 | a new recipe has the given name, no ingredients, cooking time 0 and no difficulty, and shares the class-wide list |
| RecipeOop.Recipe.GetName | Exercise-1.5/recipe_oop.py:22-24 | the stored name, read without any change (a plain field read, with no contract of its own; `SetName` states what it then returns) |
| RecipeOop.Recipe.GetCookingTime | Exercise-1.5/recipe_oop.py:31-33 | the stored cooking time, read without any change (a plain field read, with no contract of its own; `SetCookingTime` states what it then returns) |
| RecipeOop.Recipe.GetIngredients | Exercise-1.5/recipe_oop.py:51-53 | the stored ingredient list, read without any change (a plain field read, with no contract of its own; `AddIngredients` states what it then returns) |
| RecipeOop.Recipe.SetName | Exercise-1.5/recipe_oop.py:26-28 | only the name changes |
| RecipeOop.Recipe.SetCookingTime | Exercise-1.5/recipe_oop.py:35-38 | sets the time and recomputes the difficulty from the current ingredients |
| RecipeOop.Recipe.AddIngredients | Exercise-1.5/recipe_oop.py:40-49 | appends the ingredients; the class-wide list gains the unseen ones; the difficulty is left as it was |
| RecipeOop.Recipe.CalculateDifficulty | Exercise-1.5/recipe_oop.py:55-74 | the stored difficulty becomes the table's level; nothing else changes |
| RecipeOop.Recipe.GetDifficulty | Exercise-1.5/recipe_oop.py:76-82 | computes the level only when none is stored, and returns the stored level |
| RecipeOop.Recipe.SearchIngredient | Exercise-1.5/recipe_oop.py:84-94 | true exactly when the ingredient is in the list |
| RecipeOop.Recipe.UpdateAllIngredients | Exercise-1.5/recipe_oop.py:96-103 | the class-wide list gains this recipe's unseen ingredients |
| RecipeOop.MatchingMembers | Exercise-1.5/recipe_oop.py:132-137 | exactly the recipes containing the term are matched |
| RecipeOop.MatchingAppend | Exercise-1.5/recipe_oop.py:132-137 | matches over more recipes keep the earlier matches first |
| RecipeOop.RecipeSearch | Exercise-1.5/recipe_oop.py:119-141 | shows the matching recipes in order, and reports whether any matched; a shown recipe with no stored difficulty gets one computed by the display; nothing else changes |
| RecipeOop.ShowIfMatching | Exercise-1.5/recipe_oop.py:134-137 | reports a match exactly when the recipe lists the term; the `__str__` of a shown recipe stores a difficulty if none was stored; nothing else changes |
| RecipeOop.Demo | Exercise-1.5/recipe_oop.py:145-197 | the four recipes of the script are Easy, Easy, Hard and Medium |
| RecipeOop.StaleDifficulty | Exercise-1.5/recipe_oop.py:35-49 | a time set before the ingredients leaves a stored level that disagrees with the table |
| RecipeMysql.StrippedBeforeDone | Exercise-1.6/recipe_mysql.py:72-79 | the collected ingredients are non-empty, stripped, and none reads `done` |
| RecipeMysql.StrippedBeforeDoneStages | Exercise-1.6/recipe_mysql.py:72-79 | the collection is: strip every line, cut at the first `done`, drop the empty ones |
| RecipeMysql.CollectIngredients | Exercise-1.6/recipe_mysql.py:72-79 | the loop computes that collection |
| RecipeMysql.Selected | Exercise-1.6/recipe_mysql.py:210 | the first fetched row with the id |
| RecipeMysql.Assign | Exercise-1.6/recipe_mysql.py:233-234 | one row after the `SET`: the written column holds the new value; the id and the other columns are unchanged |
| RecipeMysql.SetWhere | Exercise-1.6/recipe_mysql.py:233-234 | every row with the id gets the value; no other row and no id changes |
| RecipeMysql.SetWhereSelected | Exercise-1.6/recipe_mysql.py:210-234 | after the update, the row selected by the id is the row selected before with the column written |
| RecipeMysql.Without | Exercise-1.6/recipe_mysql.py:352-353 | exactly the rows with other ids remain, and the id no longer exists |
| RecipeMysql.LikeMatches | Exercise-1.6/recipe_mysql.py:147-151 | exactly the rows whose column contains the term are selected |
| RecipeMysql.Pieces | Exercise-1.6/recipe_mysql.py:117-121 | a column's pieces are exactly its non-empty stripped comma-separated parts, each stripped |
| RecipeMysql.Menu | Exercise-1.6/recipe_mysql.py:113-122 | the menu is one first-seen pass over all pieces of all columns in storage order, and has no duplicates |
| RecipeMysql.PieceOccurs | Exercise-1.6/recipe_mysql.py:117 | a stripped piece of a column occurs in that column |
| RecipeMysql.ExtractIngredients | Exercise-1.6/recipe_mysql.py:113-122 | the loop computes the menu of all stored pieces |
| RecipeMysql.MenuFacts | Exercise-1.6/recipe_mysql.py:113-125 | the sorted menu is strictly ascending and lists exactly the stored non-empty pieces |
| RecipeMysql.MenuTermFound | Exercise-1.6/recipe_mysql.py:147-166 | every ingredient on the menu is found by the `LIKE` query |
| RecipeMysql.AllColumnsEmpty | Exercise-1.6/recipe_mysql.py:71-85 | when every stored column is `""` (a create where `done` is typed at once), no column has a piece and the menu is empty, so the choice loop at lines 135-144 can accept no answer |
| RecipeMysql.RecipeTable.constructor | Exercise-1.6/recipe_mysql.py:20-28 | the table starts with no rows |
| RecipeMysql.RecipeTable.CreateRecipe | Exercise-1.6/recipe_mysql.py:56-97 | appends one row holding the joined collected list and its difficulty |
| RecipeMysql.RecipeTable.SearchRecipe | Exercise-1.6/recipe_mysql.py:99-169 | no rows, a refused choice, or the sorted menu, the chosen term and its non-empty matches |
| RecipeMysql.RecipeTable.UpdateRecipe | Exercise-1.6/recipe_mysql.py:171-303 | each refusal exactly when its condition holds, and then nothing changes; an update sets the chosen column of the row and recomputes the difficulty; ids never change |
| RecipeMysql.RecipeTable.DeleteRecipe | Exercise-1.6/recipe_mysql.py:305-364 | deletes the row exactly when the id exists and the answer is `y` or `yes`; otherwise nothing changes |
| RecipeMysql.RecountAgrees | Exercise-1.6/recipe_mysql.py:255-256 | the recount done on a time update gives the level the list had at creation |
| RecipeMysql.CommaInIngredientRecount | Exercise-1.6/recipe_mysql.py:255-256 | an ingredient containing a comma is counted twice by the recount, turning Intermediate into Hard |
| RecipeApp.Recipe.constructor | Exercise-1.7/recipe_app.py:133-137 | a new recipe holds the given id, name, joined ingredients and time, and no difficulty yet |
| RecipeApp.Recipe.CalculateDifficulty | Exercise-1.7/recipe_app.py:54-69 | the difficulty becomes the table's level for the read-back ingredient list; nothing else changes |
| RecipeApp.CollectCounted | Exercise-1.7/recipe_app.py:124-127 | the stripped non-empty lines, in order |
| RecipeApp.CollectedShape | Exercise-1.7/recipe_app.py:124-127 | every collected ingredient is non-empty and stripped |
| RecipeApp.FirstWithId | Exercise-1.7/recipe_app.py:254 | the first recipe with the id |
| RecipeApp.Except | Exercise-1.7/recipe_app.py:347-353 | every other recipe remains and the deleted one is gone |
| RecipeApp.ColumnPieces | Exercise-1.7/recipe_app.py:178-180 | a column's pieces are exactly its non-empty `", "`-separated parts |
| RecipeApp.Menu | Exercise-1.7/recipe_app.py:176-181 | the menu is one first-seen pass over all pieces of all columns in storage order, and has no duplicates |
| RecipeApp.MenuMembers | Exercise-1.7/recipe_app.py:176-181 | the menu has no duplicates and no empty name, lists exactly the pieces of some column, and lists them in the order of their first appearance across the columns |
| RecipeApp.ExtractIngredients | Exercise-1.7/recipe_app.py:176-181 | the loop computes that menu |
| RecipeApp.OrLike | Exercise-1.7/recipe_app.py:207-214 | the query's condition: no condition for an empty selection, otherwise some selected term occurs in the column (a predicate with no contract of its own; `OrLikeMatchesMembers` and `EmptySelectionReturnsAll` state its use) |
| RecipeApp.OrLikeMatchesMembers | Exercise-1.7/recipe_app.py:207-214 | exactly the recipes whose column contains one of the terms are returned |
| RecipeApp.SelectionFound | Exercise-1.7/recipe_app.py:207-221 | a selection from the menu always finds a recipe |
| RecipeApp.EmptySelectionReturnsAll | Exercise-1.7/recipe_app.py:207-214 | an empty selection puts no restriction, so every recipe is returned |
| RecipeApp.ColumnPiecesOfJoin | Exercise-1.7/recipe_app.py:178-180 | a stored list is read back as itself |
| RecipeApp.StoredIngredientOnMenu | Exercise-1.7/recipe_app.py:176-181 | every stored ingredient is on the menu |
| RecipeApp.StoredIngredientFound | Exercise-1.7/recipe_app.py:207-214 | selecting a stored ingredient finds its recipe |
| RecipeApp.Session.constructor | Exercise-1.7/recipe_app.py:81 | the table `final_recipes` starts with no recipes |
| RecipeApp.Session.CreateRecipe | Exercise-1.7/recipe_app.py:89-146 | each refusal exactly when its check fails; otherwise one fresh recipe is appended, holding the checked name and time, the joined list and its difficulty |
| RecipeApp.Session.SearchByIngredients | Exercise-1.7/recipe_app.py:163-221 | the outcomes exactly as the checks decide, the menu of all stored pieces, the selected terms, and the `OR`-`LIKE` matches, which are non-empty for a non-empty selection |
| RecipeApp.Session.EditRecipe | Exercise-1.7/recipe_app.py:223-314 | each refusal exactly when its check fails, and then nothing changes; an edit changes only the chosen field of the first recipe with the id and recomputes its difficulty |
| RecipeApp.Session.DeleteRecipe | Exercise-1.7/recipe_app.py:316-357 | deletes the first recipe with the id exactly when the id exists and the answer is `yes`, returning its name; otherwise nothing changes |
| RecipeApp.CreatedLevel | Exercise-1.7/recipe_app.py:130-140 | the level computed on creation equals the level of the entered list |

## Left out

- Console and database I/O are not modelled: `input`, `print`, the pickle file, the MySQL connection with commit and rollback, the SQLAlchemy engine and session. Answers are parameters, and each store is a sequence of rows or objects.
- Re-prompt loops that ask again on an answer they refuse are not modelled as loops. Each is one attempt that either succeeds or returns a refusal outcome with no change:
  - 1.7: name, cooking time and ingredient count of `create_recipe`, and the name and cooking-time loops of `edit_recipe` (`recipe_app.py` lines 275-283 and 301-307), which become `EditRecipe`'s `NameRefused` and `TimeRefused`;
  - 1.6: id, column and choice.
- In 1.6, a create where `done` is typed at once stores `""` (`recipe_mysql.py` lines 71-85). When every stored column is `""`, the menu is empty and the choice loop at lines 135-144 can accept no answer, so the program asks forever. `ChoiceRefused` stands for that hang there; `RecipeMysql.AllColumnsEmpty` states the empty menu.
- The constructors of `RecipeMysql.RecipeTable` and `RecipeApp.Session` start from an empty table. The programs open a table that may already hold rows (`CREATE TABLE IF NOT EXISTS`, `create_all`); every other operation takes any table state.
- Where a program catches the `ValueError` of `int(input())` and gives up (the 1.4 search and the 1.7 search, edit and delete), the answer is `None` in an `Option` and the model refuses as the program does.
- Where a program catches the `ValueError` and asks again (every integer prompt of 1.6, `recipe_mysql.py` lines 64-68, 135-144, 197-206, 219-226, 243-247 and 331-340, and the ingredient count of the 1.7 create, `recipe_app.py` lines 114-122), a non-integer answer is not modelled: the integer parameter is the answer the loop finally accepts.
- The load of the pickle file in `recipe_input.py` (lines 57-82), with its fallback to empty lists when the file is missing or unreadable, is not modelled: `RecipeInput.EnterRecipes` takes the starting data as a parameter, so it covers both the loaded and the empty start.
- The uncaught `int(input())` calls of 1.3 (`Exercise_1.3.py` lines 11 and 34) and of the 1.4 entry script (`recipe_input.py` lines 28 and 85) are not modelled. A non-integer answer there ends the script; in 1.4 it ends it before the save, so the recipes typed in that run are lost. The model takes the times as integers and the recipe count as the number of answers.
- `RecipeApp.Session.CreateRecipe`: the counted entry loop is given its lines directly. The count is the number of lines, and `CountRefused` stands for a count below 1.
- `RecipeApp.Session.EditRecipe`: a non-integer ingredient count is `ingredientLines == None`. A zero or negative count is an empty line list.
- Auto-increment ids are supplied by the caller.
- Only ASCII case folding and ASCII whitespace are modelled in `Lower`, `Strip` and `isnumeric`; Unicode is left out.
- The SQL `LIKE '%term%'` is a plain substring test: there is no wildcard escaping and no collation or case-insensitivity.
- `list.sort()` is a pure function on the list value. Python sorts in place; aliasing of the sorted list is not modelled.
- A `None` ingredients column in 1.7 is not represented, because every write path stores a joined string.
- `RecipeOop.Demo`: states the four difficulties only, not what is printed.
- `display_recipe` of 1.4, `__str__` and `__repr__` of 1.7, and the menu loops of 1.6 and 1.7 only print or dispatch, so they are not modelled.
- The 1.5 `__str__` is modelled for its effect only: it calls `get_difficulty`, which stores a difficulty when none is stored. `RecipeOop.RecipeSearch` and `RecipeOop.ShowIfMatching` state that effect; the printed text is not modelled.
- `view_all_recipes` is not modelled either.
- `Exercise-1.3/travel_app.py` is not part of this model.
- The `VARCHAR` length limits of the table columns are not modelled.
- Input ending before `done` is typed is not modelled.
- The class-wide list `Recipe.all_ingredients` of 1.5 is an explicit `IngredientCatalogue` object shared by the recipes.
