/**
 * Rules the exercises apply to answers that have already been read: the
 * `'done'`-terminated ingredient entry, the name and cooking-time checks of the
 * ORM program, and the three ways a numbered choice picks an ingredient.
 */
module InputRules {
  import opened Wrappers
  import opened Text

  // ---------------------------------------------------------------------------
  // Sentinel-terminated ingredient entry of the list and pickle exercises

  /** What `take_recipe` reads: a name, a cooking time already converted by
      `int()`, and the ingredient lines typed up to and including `done`. */
  datatype RecipeAnswers = RecipeAnswers(name: string, cookingTime: int, lines: seq<string>)

  /** The lines before the first one that reads `done` in any case; lines are
      kept as typed, blanks and empty lines included. */
  function BeforeDone(lines: seq<string>): (r: seq<string>)
    ensures r <= lines
    ensures forall i :: 0 <= i < |r| ==> !IsDone(r[i])
    ensures |r| < |lines| ==> IsDone(lines[|r|])
  {
    if lines == [] || IsDone(lines[0]) then []
    else [lines[0]] + BeforeDone(lines[1..])
  }

  /** The `while True` loop of `take_recipe`: append each line until `done`. */
  method CollectUntilDone(lines: seq<string>) returns (ingredients: seq<string>)
    ensures ingredients == BeforeDone(lines)
  {
    ingredients := [];
    var i := 0;
    while i < |lines| && !IsDone(lines[i])
      invariant 0 <= i <= |lines|
      invariant ingredients == lines[..i]
      invariant forall k :: 0 <= k < i ==> !IsDone(lines[k])
    {
      ingredients := ingredients + [lines[i]];
      i := i + 1;
    }
    BeforeDoneIsPrefix(lines, i);
  }

  /** `BeforeDone` is the prefix that ends at the first sentinel. */
  lemma {:induction false} BeforeDoneIsPrefix(lines: seq<string>, n: nat)
    requires n <= |lines|
    requires forall k :: 0 <= k < n ==> !IsDone(lines[k])
    requires n == |lines| || IsDone(lines[n])
    ensures BeforeDone(lines) == lines[..n]
  {
    if n > 0 {
      BeforeDoneIsPrefix(lines[1..], n - 1);
      assert lines[..n] == [lines[0]] + lines[1..][..n - 1];
    }
  }

  // ---------------------------------------------------------------------------
  // Name and cooking time of the ORM program

  /** The name check of `create_recipe` and `edit_recipe`: strip, then accept
      one to fifty characters. */
  function CheckName(raw: string): (r: Option<string>)
    ensures r.Some? <==> 1 <= |Strip(raw)| <= 50
    ensures r.Some? ==> r.value == Strip(raw)
    ensures r.Some? ==> Stripped(r.value) && 0 < |r.value| <= |raw|
  {
    var name := Strip(raw);
    if |name| > 50 then None
    else if |name| == 0 then None
    else Some(name)
  }

  /** A stripped name of one to fifty characters is accepted as it is. */
  lemma CheckNameStripped(name: string)
    requires Stripped(name) && 1 <= |name| <= 50
    ensures CheckName(name) == Some(name)
  {
    StripStripped(name);
  }

  /** So an accepted name passes the check again unchanged. */
  lemma CheckNameAccepted(raw: string)
    requires CheckName(raw).Some?
    ensures CheckName(CheckName(raw).value) == CheckName(raw)
  {
    CheckNameStripped(CheckName(raw).value);
  }

  /** The cooking-time check of the ORM program: strip, accept only digits. */
  function CheckCookingTime(raw: string): (r: Option<nat>)
    ensures r.Some? <==> IsNumeric(Strip(raw))
    ensures r.Some? ==> r.value == DigitsValue(Strip(raw))
  {
    var s := Strip(raw);
    if IsNumeric(s) then Some(DigitsValue(s)) else None
  }

  /** Every non-negative time, typed as a plain numeral, is accepted as itself;
      a sign or any other character is refused, so no time is negative. */
  lemma CheckCookingTimeNumeral(n: nat)
    ensures CheckCookingTime(Decimal(n)) == Some(n)
  {
    var s := Decimal(n);
    assert Stripped(s) by { assert IsDigit(s[0]) && IsDigit(s[|s| - 1]); }
    StripStripped(s);
    DecimalRoundTrip(n);
  }

  lemma CheckCookingTimeRefusesSign(rest: string)
    ensures CheckCookingTime("-" + rest).None?
  {
    var s := "-" + rest;
    assert TrimLeft(s) == s;
    assert Strip(s)[0] == '-' by {
      TrimRightShape(s);
      assert TrimRight(s) <= s;
      assert |TrimRight(s)| > 0;
    }
  }

  // ---------------------------------------------------------------------------
  // Numbered choices

  /** The SQL program's choice `1 <= choice <= len(all_ingredients)`, picking
      `all_ingredients[choice - 1]`. */
  function SelectOneBased(items: seq<string>, choice: int): (r: Option<string>)
    ensures r.Some? <==> 1 <= choice <= |items|
    ensures r.Some? ==> r.value == items[choice - 1]
  {
    if 1 <= choice <= |items| then Some(items[choice - 1]) else None
  }

  /** The ORM program's list of numbers: refused as a whole if any is outside
      `1..len(all_ingredients)`, otherwise the named ingredients in the order
      the numbers were typed. */
  function SelectAllOneBased(items: seq<string>, choices: seq<int>): (r: Option<seq<string>>)
    ensures r.Some? <==> forall k :: 0 <= k < |choices| ==> 1 <= choices[k] <= |items|
    ensures r.Some? ==> |r.value| == |choices|
    ensures r.Some? ==> forall k :: 0 <= k < |choices| ==> r.value[k] == items[choices[k] - 1]
  {
    if exists k :: 0 <= k < |choices| && !(1 <= choices[k] <= |items|) then None
    else Some(seq(|choices|, k requires 0 <= k < |choices| => items[choices[k] - 1]))
  }

  /** The search script's `all_ingredients[choice]`: Python indexing, where a
      negative index counts from the end and anything else raises. */
  function PyIndex(items: seq<string>, choice: int): (r: Option<string>)
    ensures r.Some? <==> -|items| <= choice < |items|
    ensures r.Some? && choice >= 0 ==> r.value == items[choice]
    ensures r.Some? && choice < 0 ==> r.value == items[|items| + choice]
  {
    if 0 <= choice < |items| then Some(items[choice])
    else if -|items| <= choice < 0 then Some(items[|items| + choice])
    else None
  }

  /** The two numbering schemes agree on the displayed numbers, shifted by one;
      but where the one-based menu refuses 0, Python indexing reads `-1` as the
      last ingredient. */
  lemma OneBasedVersusPyIndex(items: seq<string>, choice: int)
    ensures 1 <= choice <= |items| ==> SelectOneBased(items, choice) == PyIndex(items, choice - 1)
    ensures |items| > 0 ==> SelectOneBased(items, 0).None? && PyIndex(items, -1) == Some(items[|items| - 1])
  {
  }

  /** `any(recipe[0] == recipe_id for recipe in recipes)`. */
  predicate IdExists(ids: seq<int>, id: int) {
    id in ids
  }

  /** Where `filter(id == selected_id).first()` finds its row: the first
      position holding the id. */
  function FirstIdIndex(ids: seq<int>, id: int): (k: nat)
    requires IdExists(ids, id)
    ensures k < |ids| && ids[k] == id
    ensures forall j :: 0 <= j < k ==> ids[j] != id
  {
    if ids[0] == id then 0
    else
      assert IdExists(ids[1..], id) by {
        var k :| 0 <= k < |ids| && ids[k] == id;
        assert ids[1..][k - 1] == id;
      }
      1 + FirstIdIndex(ids[1..], id)
  }
}
