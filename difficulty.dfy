/**
 * The difficulty rule that every exercise repeats: a recipe is quick when it
 * cooks in under 10 minutes and simple when it has fewer than 4 ingredients.
 * No copy rejects a negative cooking time; it is simply "under 10".
 */
module Difficulty {

  datatype Level = Easy | Medium | Intermediate | Hard

  /** The text stored in the `difficulty` field or column. */
  function Label(d: Level): (s: string)
    ensures s in {"Easy", "Medium", "Intermediate", "Hard"}
  {
    match d
    case Easy => "Easy"
    case Medium => "Medium"
    case Intermediate => "Intermediate"
    case Hard => "Hard"
  }

  /** Quickness decides the first half of the table, simplicity the second. */
  function Classify(t: int, n: nat): (d: Level)
    ensures (d == Easy || d == Medium) <==> t < 10
    ensures (d == Easy || d == Intermediate) <==> n < 4
  {
    var quick := t < 10;
    var simple := n < 4;
    if quick then (if simple then Easy else Medium)
    else (if simple then Intermediate else Hard)
  }

  /** The `if`/`elif`/`else` chain exactly as each exercise writes it, with its
      redundant second tests and its catch-all `else`. */
  function ElifChain(cookingTime: int, numIngredients: int): (difficulty: string)
    ensures difficulty in {"Easy", "Medium", "Intermediate", "Hard"}
    ensures difficulty == "Hard" <==> cookingTime >= 10 && numIngredients >= 4
  {
    if cookingTime < 10 && numIngredients < 4 then "Easy"
    else if cookingTime < 10 && numIngredients >= 4 then "Medium"
    else if cookingTime >= 10 && numIngredients < 4 then "Intermediate"
    else "Hard"
  }

  /** `calc_difficulty` of the pickle exercise and `calculate_difficulty` of
      the SQL exercise, the same function in both: the chain applied to the
      time and the number of ingredients, which is the table's label. */
  function CalcDifficulty(cookingTime: int, ingredients: seq<string>): (difficulty: string)
    ensures difficulty == Label(Classify(cookingTime, |ingredients|))
    ensures difficulty in {"Easy", "Medium", "Intermediate", "Hard"}
  {
    var numIngredients := |ingredients|;
    ChainIsTable(cookingTime, numIngredients);
    ElifChain(cookingTime, numIngredients)
  }

  /** The chain and the table agree on every cooking time, negative ones
      included, and every ingredient count. */
  lemma ChainIsTable(t: int, n: nat)
    ensures ElifChain(t, n) == Label(Classify(t, n))
  {
  }

  /** The four labels are distinct, so a stored label names exactly one level. */
  lemma LabelInjective(a: Level, b: Level)
    ensures Label(a) == Label(b) <==> a == b
  {
    if a != b {
      assert Label(a)[0] != Label(b)[0] || |Label(a)| != |Label(b)|;
    }
  }

  /** Each row of the table, read in both directions. */
  lemma ClassifyTable(t: int, n: nat)
    ensures Classify(t, n) == Easy <==> t < 10 && n < 4
    ensures Classify(t, n) == Medium <==> t < 10 && n >= 4
    ensures Classify(t, n) == Intermediate <==> t >= 10 && n < 4
    ensures Classify(t, n) == Hard <==> t >= 10 && n >= 4
  {
  }

  /** `a` is at least as hard as `b`: Easy is below everything, Hard above
      everything, and Medium and Intermediate are unrelated. */
  predicate AtLeastAsHard(a: Level, b: Level) {
    a == b || b == Easy || a == Hard
  }

  /** A longer cooking time or more ingredients never makes a recipe easier. */
  lemma ClassifyMonotone(t: int, n: nat, t': int, n': nat)
    requires t <= t' && n <= n'
    ensures AtLeastAsHard(Classify(t', n'), Classify(t, n))
  {
  }

  /** Only the two thresholds matter: every negative time is classified like 0,
      and every count of 4 or more like 4. */
  lemma ClassifyThresholds(t: int, n: nat)
    ensures t < 10 ==> Classify(t, n) == Classify(0, n)
    ensures t >= 10 ==> Classify(t, n) == Classify(10, n)
    ensures n >= 4 ==> Classify(t, n) == Classify(t, 4)
    ensures n < 4 ==> Classify(t, n) == Classify(t, 0)
  {
  }
}
