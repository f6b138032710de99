/**
 * The ingredient catalogue every exercise keeps: a list that grows by
 * appending each ingredient not already in it, so it stays free of repeats
 * and lists names in the order they were first seen.
 */
module Catalogue {
  import opened StrOrder

  /** One step of `if ingredient not in catalogue: catalogue.append(ingredient)`. */
  function AddOne(cat: seq<string>, x: string): seq<string> {
    if x in cat then cat else cat + [x]
  }

  /** The whole loop over `xs`, one step per ingredient in order. */
  function AddNew(cat: seq<string>, xs: seq<string>): seq<string> {
    if xs == [] then cat else AddOne(AddNew(cat, xs[..|xs| - 1]), xs[|xs| - 1])
  }

  /** The same loop run over several ingredient lists, one after the other. */
  function AddNewAll(cat: seq<string>, lists: seq<seq<string>>): seq<string> {
    if lists == [] then cat else AddNew(AddNewAll(cat, lists[..|lists| - 1]), lists[|lists| - 1])
  }

  /** The old catalogue is a prefix of the new one: nothing is removed or moved. */
  lemma {:induction false} AddNewExtends(cat: seq<string>, xs: seq<string>)
    ensures cat <= AddNew(cat, xs)
  {
    if xs != [] { AddNewExtends(cat, xs[..|xs| - 1]); }
  }

  /** Afterwards the catalogue holds exactly the old names and the new ones. */
  lemma {:induction false} AddNewMembers(cat: seq<string>, xs: seq<string>)
    ensures forall y :: y in AddNew(cat, xs) <==> y in cat || y in xs
  {
    if xs != [] {
      var init := xs[..|xs| - 1];
      AddNewMembers(cat, init);
      assert xs == init + [xs[|xs| - 1]];
    }
  }

  /** A catalogue free of repeats stays free of repeats. */
  lemma {:induction false} AddNewNoDuplicates(cat: seq<string>, xs: seq<string>)
    requires NoDuplicates(cat)
    ensures NoDuplicates(AddNew(cat, xs))
  {
    if xs != [] { AddNewNoDuplicates(cat, xs[..|xs| - 1]); }
  }

  /** Registering names that are all known already leaves the catalogue as it was. */
  lemma {:induction false} AddNewKnown(cat: seq<string>, xs: seq<string>)
    requires forall i :: 0 <= i < |xs| ==> xs[i] in cat
    ensures AddNew(cat, xs) == cat
  {
    if xs != [] { AddNewKnown(cat, xs[..|xs| - 1]); }
  }

  /** Registering the same names twice is the same as registering them once. */
  lemma AddNewIdempotent(cat: seq<string>, xs: seq<string>)
    ensures AddNew(AddNew(cat, xs), xs) == AddNew(cat, xs)
  {
    AddNewMembers(cat, xs);
    AddNewKnown(AddNew(cat, xs), xs);
  }

  /** The position of the first occurrence of `y` in `xs`. */
  function FirstIndex(xs: seq<string>, y: string): (k: nat)
    requires y in xs
    ensures k < |xs| && xs[k] == y && y !in xs[..k]
  {
    if xs[0] == y then 0
    else
      var k := FirstIndex(xs[1..], y);
      assert xs[..k + 1] == [xs[0]] + xs[1..][..k];
      k + 1
  }

  lemma FirstIndexAppend(xs: seq<string>, x: string, y: string)
    requires y in xs
    ensures FirstIndex(xs + [x], y) == FirstIndex(xs, y)
  {
    var k := FirstIndex(xs, y);
    var k' := FirstIndex(xs + [x], y);
    assert (xs + [x])[..k'] == xs[..k'] || k' == |xs|;
  }

  /** The names added by the loop are those of `xs` that were missing, listed in
      the order of their first occurrence in `xs`. */
  lemma {:induction false} AddNewFirstSeenOrder(cat: seq<string>, xs: seq<string>)
    ensures forall i :: |cat| <= i < |AddNew(cat, xs)| ==> AddNew(cat, xs)[i] !in cat && AddNew(cat, xs)[i] in xs
    ensures forall i, j :: |cat| <= i < j < |AddNew(cat, xs)| ==>
      AddNew(cat, xs)[i] in xs && AddNew(cat, xs)[j] in xs &&
      FirstIndex(xs, AddNew(cat, xs)[i]) < FirstIndex(xs, AddNew(cat, xs)[j])
  {
    if xs != [] {
      var init := xs[..|xs| - 1];
      var x := xs[|xs| - 1];
      assert xs == init + [x];
      AddNewFirstSeenOrder(cat, init);
      AddNewExtends(cat, init);
      AddNewMembers(cat, init);
      var r := AddNew(cat, init);
      forall y | y in init ensures FirstIndex(xs, y) == FirstIndex(init, y) {
        FirstIndexAppend(init, x, y);
      }
      if x !in r {
        assert x !in init;
        assert FirstIndex(xs, x) == |init|;
        var r' := r + [x];
        forall i, j | |cat| <= i < j < |r'|
          ensures r'[i] in xs && r'[j] in xs && FirstIndex(xs, r'[i]) < FirstIndex(xs, r'[j])
        {
          if j < |r| {
            assert r'[i] == r[i] && r'[j] == r[j];
          } else {
            assert r'[i] == r[i];
            assert FirstIndex(init, r[i]) < |init|;
          }
        }
      }
    }
  }

  /** The catalogue every exercise builds: free of repeats when started empty. */
  lemma AddNewAllNoDuplicates(cat: seq<string>, lists: seq<seq<string>>)
    requires NoDuplicates(cat)
    ensures NoDuplicates(AddNewAll(cat, lists))
  {
    if lists != [] {
      AddNewAllNoDuplicates(cat, lists[..|lists| - 1]);
      AddNewNoDuplicates(AddNewAll(cat, lists[..|lists| - 1]), lists[|lists| - 1]);
    }
  }

  /** ... it extends the starting catalogue and holds every ingredient of every list. */
  lemma {:induction false} AddNewAllMembers(cat: seq<string>, lists: seq<seq<string>>)
    ensures cat <= AddNewAll(cat, lists)
    ensures forall y :: y in AddNewAll(cat, lists) <==>
      y in cat || exists k :: 0 <= k < |lists| && y in lists[k]
  {
    if lists != [] {
      var init := lists[..|lists| - 1];
      var last := lists[|lists| - 1];
      AddNewAllMembers(cat, init);
      AddNewExtends(AddNewAll(cat, init), last);
      AddNewMembers(AddNewAll(cat, init), last);
      forall y ensures y in AddNewAll(cat, lists) <==>
        y in cat || exists k :: 0 <= k < |lists| && y in lists[k]
      {
        if exists k :: 0 <= k < |lists| && y in lists[k] {
          var k :| 0 <= k < |lists| && y in lists[k];
          if k < |init| { assert init[k] == lists[k]; }
        }
        if exists k :: 0 <= k < |init| && y in init[k] {
          var k :| 0 <= k < |init| && y in init[k];
          assert lists[k] == init[k];
        }
      }
    }
  }

  /** Adding `a` and then `b` is adding `a + b` in one pass. */
  lemma {:induction false} AddNewConcat(cat: seq<string>, a: seq<string>, b: seq<string>)
    ensures AddNew(AddNew(cat, a), b) == AddNew(cat, a + b)
    decreases |b|
  {
    if b == [] {
      assert a + b == a;
    } else {
      var init := b[..|b| - 1];
      AddNewConcat(cat, a, init);
      assert (a + b)[..|a + b| - 1] == a + init;
      assert (a + b)[|a + b| - 1] == b[|b| - 1];
    }
  }

  /** The lists written one after the other. */
  function Flatten(lists: seq<seq<string>>): seq<string> {
    if lists == [] then []
    else Flatten(lists[..|lists| - 1]) + lists[|lists| - 1]
  }

  /** Adding list after list is one pass over all their names in order. */
  lemma {:induction false} AddNewAllFlat(cat: seq<string>, lists: seq<seq<string>>)
    ensures AddNewAll(cat, lists) == AddNew(cat, Flatten(lists))
  {
    if lists != [] {
      var init := lists[..|lists| - 1];
      AddNewAllFlat(cat, init);
      AddNewConcat(cat, Flatten(init), lists[|lists| - 1]);
    }
  }

  /** `added` holds names of `xs`, ordered by their first appearance in `xs`. */
  predicate InFirstSeenOrder(added: seq<string>, xs: seq<string>) {
    forall i, j :: 0 <= i < j < |added| ==>
      added[i] in xs && added[j] in xs && FirstIndex(xs, added[i]) < FirstIndex(xs, added[j])
  }

  /** Over many recipes, the names added are new, and come in the order in
      which they first appear anywhere in the recipes, taken one after the
      other. */
  lemma AddNewAllFirstSeenOrder(cat: seq<string>, lists: seq<seq<string>>)
    ensures cat <= AddNewAll(cat, lists)
    ensures forall y :: y in AddNewAll(cat, lists)[|cat|..] ==> y !in cat
    ensures InFirstSeenOrder(AddNewAll(cat, lists)[|cat|..], Flatten(lists))
  {
    var xs := Flatten(lists);
    AddNewAllFlat(cat, lists);
    AddNewExtends(cat, xs);
    AddNewFirstSeenOrder(cat, xs);
    var r := AddNewAll(cat, lists);
    var added := r[|cat|..];
    forall i, j | 0 <= i < j < |added|
      ensures added[i] in xs && added[j] in xs && FirstIndex(xs, added[i]) < FirstIndex(xs, added[j])
    {
      assert added[i] == r[|cat| + i] && added[j] == r[|cat| + j];
    }
    forall y | y in added ensures y !in cat {
      var i :| 0 <= i < |added| && added[i] == y;
      assert y == r[|cat| + i];
    }
  }

  /** The loop `for ingredient in xs: if ingredient not in cat: cat.append(ingredient)`
      run on a list value. */
  method AppendNew(cat: seq<string>, xs: seq<string>) returns (r: seq<string>)
    ensures r == AddNew(cat, xs)
  {
    r := cat;
    var i := 0;
    while i < |xs|
      invariant 0 <= i <= |xs|
      invariant r == AddNew(cat, xs[..i])
    {
      assert xs[..i + 1][..i] == xs[..i];
      if xs[i] !in r {
        r := r + [xs[i]];
      }
      i := i + 1;
    }
    assert xs[..i] == xs;
  }

  /** The strings of `xs` that are not empty, in order. */
  function NonEmpty(xs: seq<string>): (r: seq<string>)
    ensures |r| <= |xs|
  {
    if xs == [] then []
    else
      var init := xs[..|xs| - 1];
      NonEmpty(init) + (if xs[|xs| - 1] == "" then [] else [xs[|xs| - 1]])
  }

  /** `NonEmpty` keeps exactly the strings that are not empty. */
  lemma {:induction false} NonEmptyMembers(xs: seq<string>)
    ensures forall y :: y in NonEmpty(xs) <==> y in xs && y != ""
  {
    if xs != [] {
      var init := xs[..|xs| - 1];
      assert xs == init + [xs[|xs| - 1]];
      NonEmptyMembers(init);
    }
  }

  lemma {:induction false} NonEmptyCons(x: string, xs: seq<string>)
    ensures NonEmpty([x] + xs) == (if x == "" then [] else [x]) + NonEmpty(xs)
    decreases |xs|
  {
    if xs != [] {
      var init := xs[..|xs| - 1];
      assert ([x] + xs)[..|xs|] == [x] + init;
      NonEmptyCons(x, init);
    } else {
      assert NonEmpty([x] + xs) == NonEmpty([] + [x]);
    }
  }

  /** A list without empty strings is kept whole. */
  lemma {:induction false} NonEmptyAll(xs: seq<string>)
    requires forall i :: 0 <= i < |xs| ==> xs[i] != ""
    ensures NonEmpty(xs) == xs
  {
    if xs != [] {
      NonEmptyAll(xs[..|xs| - 1]);
      assert xs == xs[..|xs| - 1] + [xs[|xs| - 1]];
    }
  }

  /** `for ingredient in xs: if ingredient and ingredient not in cat:
      cat.append(ingredient)`, the loop of both database programs. */
  method AppendNonEmpty(cat: seq<string>, xs: seq<string>) returns (r: seq<string>)
    ensures r == AddNew(cat, NonEmpty(xs))
  {
    r := cat;
    var j := 0;
    while j < |xs|
      invariant 0 <= j <= |xs|
      invariant r == AddNew(cat, NonEmpty(xs[..j]))
    {
      var ingredient := xs[j];
      assert xs[..j + 1][..j] == xs[..j];
      if ingredient != "" {
        assert NonEmpty(xs[..j + 1]) == NonEmpty(xs[..j]) + [ingredient];
        if ingredient !in r {
          r := r + [ingredient];
        }
      } else {
        assert NonEmpty(xs[..j + 1]) == NonEmpty(xs[..j]);
      }
      j := j + 1;
    }
    assert xs[..j] == xs;
  }

  /** The catalogue the database programs build from their stored columns:
      each column is cut into its pieces by `pieces`, and the pieces are
      added column by column, in storage order. */
  function Gather(columns: seq<string>, pieces: string -> seq<string>): seq<string> {
    if columns == [] then []
    else AddNew(Gather(columns[..|columns| - 1], pieces), pieces(columns[|columns| - 1]))
  }

  /** Some column has `y` among its pieces. */
  predicate PieceOfSome(columns: seq<string>, pieces: string -> seq<string>, y: string) {
    exists k :: 0 <= k < |columns| && y in pieces(columns[k])
  }

  /** The gathered catalogue is free of repeats and lists exactly the pieces
      of the columns. */
  lemma {:induction false} GatherMembers(columns: seq<string>, pieces: string -> seq<string>)
    ensures NoDuplicates(Gather(columns, pieces))
    ensures forall y :: y in Gather(columns, pieces) <==> PieceOfSome(columns, pieces, y)
  {
    if columns != [] {
      var init := columns[..|columns| - 1];
      var last := columns[|columns| - 1];
      GatherMembers(init, pieces);
      AddNewNoDuplicates(Gather(init, pieces), pieces(last));
      AddNewMembers(Gather(init, pieces), pieces(last));
      forall y ensures y in Gather(columns, pieces) <==> PieceOfSome(columns, pieces, y) {
        if PieceOfSome(columns, pieces, y) {
          var k :| 0 <= k < |columns| && y in pieces(columns[k]);
          if k < |init| {
            assert init[k] == columns[k];
          }
        }
        if PieceOfSome(init, pieces, y) {
          var k :| 0 <= k < |init| && y in pieces(init[k]);
          assert columns[k] == init[k];
        }
      }
    }
  }

  /** The pieces of every column, column after column. */
  function AllPieces(columns: seq<string>, pieces: string -> seq<string>): seq<string> {
    if columns == [] then []
    else AllPieces(columns[..|columns| - 1], pieces) + pieces(columns[|columns| - 1])
  }

  /** Gathering column by column is one pass over all the pieces in order. */
  lemma {:induction false} GatherFlat(columns: seq<string>, pieces: string -> seq<string>)
    ensures Gather(columns, pieces) == AddNew([], AllPieces(columns, pieces))
  {
    if columns != [] {
      var init := columns[..|columns| - 1];
      GatherFlat(init, pieces);
      AddNewConcat([], AllPieces(init, pieces), pieces(columns[|columns| - 1]));
    }
  }

  /** The menu lists the pieces in the order in which they first appear in the
      stored columns, taken in storage order. */
  lemma GatherFirstSeenOrder(columns: seq<string>, pieces: string -> seq<string>)
    ensures InFirstSeenOrder(Gather(columns, pieces), AllPieces(columns, pieces))
  {
    GatherFlat(columns, pieces);
    AddNewFirstSeenOrder([], AllPieces(columns, pieces));
  }

  /**
   * The ingredient list that the object-oriented exercise keeps in a class
   * variable shared by every recipe; here it is one object that the recipes
   * are given.
   */
  class IngredientCatalogue {
    var names: seq<string>

    constructor ()
      ensures names == []
    {
      names := [];
    }

    /** `update_all_ingredients`: append every ingredient not yet listed. */
    method Update(ingredients: seq<string>)
      modifies this
      ensures names == AddNew(old(names), ingredients)
    {
      names := AppendNew(names, ingredients);
    }
  }
}
