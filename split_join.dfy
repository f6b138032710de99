/**
 * Python's `sep.join(xs)` and `s.split(sep)` for a non-empty separator, and the
 * two ways the recipe programs read an ingredients column back: the ORM
 * program splits on `", "`, the SQL program splits on `","` and strips every
 * piece.
 */
module SplitJoin {
  import opened Text

  /** `sep.join(xs)`. */
  function Join(xs: seq<string>, sep: string): (r: string)
    ensures |xs| == 1 ==> r == xs[0]
    ensures |xs| > 0 ==> xs[0] <= r
  {
    if |xs| == 0 then ""
    else if |xs| == 1 then xs[0]
    else xs[0] + sep + Join(xs[1..], sep)
  }

  /** `s.split(sep)`: cut at every occurrence of `sep`, scanning from the left
      and resuming after each cut; always at least one piece. */
  function Split(s: string, sep: string): (r: seq<string>)
    requires |sep| > 0
    ensures |r| >= 1
    decreases |s|
  {
    if |s| < |sep| then [s]
    else if sep <= s then [""] + Split(s[|sep|..], sep)
    else
      var rest := Split(s[1..], sep);
      [[s[0]] + rest[0]] + rest[1..]
  }

  /** No occurrence of `sep` starts inside `e` when `e` is followed by `sep`:
      neither one wholly inside `e` nor one that straddles into the separator. */
  predicate NoEarlyMatch(e: string, sep: string) {
    forall i :: 0 <= i < |e| ==> !(sep <= (e + sep)[i..])
  }

  /** Splitting a piece with no separator in it yields that piece alone. */
  lemma {:induction false} SplitWithoutSeparator(e: string, sep: string)
    requires |sep| > 0 && !Occurs(sep, e)
    ensures Split(e, sep) == [e]
    decreases |e|
  {
    if |e| >= |sep| {
      assert !(sep <= e);
      SplitWithoutSeparator(e[1..], sep);
      assert [e[0]] + e[1..] == e;
    }
  }

  /** The first cut falls exactly after `e` when `e` is followed by the separator. */
  lemma {:induction false} SplitAfterPiece(e: string, sep: string, rest: string)
    requires |sep| > 0 && NoEarlyMatch(e, sep)
    ensures Split(e + sep + rest, sep) == [e] + Split(rest, sep)
    decreases |e|
  {
    var s := e + sep + rest;
    if e == [] {
      assert s == sep + rest && sep <= s;
      assert s[|sep|..] == rest;
    } else {
      assert (e + sep)[0..] == e + sep;
      assert !(sep <= s) by {
        assert s[..|sep|] == (e + sep)[..|sep|];
      }
      var e' := e[1..];
      assert NoEarlyMatch(e', sep) by {
        forall i | 0 <= i < |e'| ensures !(sep <= (e' + sep)[i..]) {
          assert (e' + sep)[i..] == (e + sep)[i + 1..];
        }
      }
      assert s[1..] == e' + sep + rest;
      SplitAfterPiece(e', sep, rest);
      assert [e[0]] + e' == e;
    }
  }

  /** Every piece `split` returns occurs in the string split, the first one at
      its very start. */
  lemma {:induction false} SplitPiecesOccur(s: string, sep: string)
    requires |sep| > 0
    ensures Split(s, sep)[0] <= s
    ensures forall k :: 0 <= k < |Split(s, sep)| ==> Occurs(Split(s, sep)[k], s)
    decreases |s|
  {
    var r := Split(s, sep);
    if |s| < |sep| {
      assert Occurs(s, s);
    } else if sep <= s {
      var rest := s[|sep|..];
      SplitPiecesOccur(rest, sep);
      OccursAt("", s);
      assert "" <= s[0..];
      forall k | 1 <= k < |r| ensures Occurs(r[k], s) {
        assert r[k] == Split(rest, sep)[k - 1];
        assert Occurs(rest, s) by {
          OccursAt(rest, s);
          assert rest <= s[|sep|..];
        }
        OccursTransitive(r[k], rest, s);
      }
    } else {
      var rest := Split(s[1..], sep);
      SplitPiecesOccur(s[1..], sep);
      assert r[0] <= s by {
        assert r[0] == [s[0]] + rest[0];
        assert s == [s[0]] + s[1..];
      }
      assert Occurs(r[0], s);
      forall k | 1 <= k < |r| ensures Occurs(r[k], s) {
        assert r[k] == rest[k];
        assert Occurs(s[1..], s) by {
          assert !(s[1..] <= s) ==> Occurs(s[1..], s[1..]);
        }
        OccursTransitive(r[k], s[1..], s);
      }
    }
  }

  /** No piece is followed by a premature match, so each occurrence found is a
      separator that `Join` put there. */
  lemma NoEarlyMatchNoOccurrence(e: string, sep: string)
    requires |sep| > 0 && NoEarlyMatch(e, sep)
    ensures !Occurs(sep, e)
  {
    forall i | 0 <= i <= |e| ensures !(sep <= e[i..]) {
      if i < |e| { assert (e + sep)[i..] == e[i..] + sep; }
    }
    OccursAt(sep, e);
  }

  /** Round trip: splitting what `Join` wrote gives the list back, for any
      non-empty list whose elements produce no premature match. */
  lemma {:induction false} SplitOfJoin(xs: seq<string>, sep: string)
    requires |sep| > 0 && |xs| > 0
    requires forall i :: 0 <= i < |xs| ==> NoEarlyMatch(xs[i], sep)
    ensures Split(Join(xs, sep), sep) == xs
  {
    if |xs| == 1 {
      NoEarlyMatchNoOccurrence(xs[0], sep);
      SplitWithoutSeparator(xs[0], sep);
    } else {
      SplitAfterPiece(xs[0], sep, Join(xs[1..], sep));
      SplitOfJoin(xs[1..], sep);
      assert [xs[0]] + xs[1..] == xs;
    }
  }

  /** With the separator `", "`, a piece is safe exactly when `", "` does not
      occur in it: a trailing comma cannot pair with the separator's comma. */
  lemma CommaBlankSafe(e: string)
    requires !Occurs(", ", e)
    ensures NoEarlyMatch(e, ", ")
  {
    OccursAt(", ", e);
    forall i | 0 <= i < |e| ensures !(", " <= (e + ", ")[i..]) {
      if i + 2 <= |e| {
        assert (e + ", ")[i..][..2] == e[i..][..2];
      } else {
        assert (e + ", ")[i..][1] == ',';
      }
    }
  }

  /** With the separator `","`, a piece is safe exactly when it has no comma. */
  lemma CommaSafe(e: string)
    requires ',' !in e
    ensures NoEarlyMatch(e, ",")
  {
    forall i | 0 <= i < |e| ensures !("," <= (e + ",")[i..]) {
      assert (e + ",")[i..][0] == e[i];
    }
  }

  // ---------------------------------------------------------------------------
  // The ORM program: `return_ingredients_as_list`

  /** `[]` for an empty column, otherwise the column split on `", "`. */
  function IngredientsAsList(column: string): (r: seq<string>)
    ensures column == "" <==> r == []
  {
    if column == "" then [] else Split(column, ", ")
  }

  /** Round trip of the ORM program: every list of non-empty ingredients none
      of which contains `", "` is read back exactly, the empty list included. */
  lemma {:induction false} AsListJoin(xs: seq<string>)
    requires forall i :: 0 <= i < |xs| ==> xs[i] != "" && !Occurs(", ", xs[i])
    ensures IngredientsAsList(Join(xs, ", ")) == xs
  {
    if |xs| > 0 {
      assert Join(xs, ", ") != "" by { assert xs[0] <= Join(xs, ", "); }
      forall i | 0 <= i < |xs| ensures NoEarlyMatch(xs[i], ", ") {
        CommaBlankSafe(xs[i]);
      }
      SplitOfJoin(xs, ", ");
    }
  }

  /** Each piece of a list read back by `IngredientsAsList` occurs in the joined column. */
  lemma JoinedOccurs(xs: seq<string>, i: nat)
    requires i < |xs|
    requires forall j :: 0 <= j < |xs| ==> xs[j] != "" && !Occurs(", ", xs[j])
    ensures Occurs(xs[i], Join(xs, ", "))
  {
    AsListJoin(xs);
    SplitPiecesOccur(Join(xs, ", "), ", ");
    assert Split(Join(xs, ", "), ", ")[i] == xs[i];
  }

  // ---------------------------------------------------------------------------
  // The SQL program: `[i.strip() for i in s.split(',')]`

  function StripEach(xs: seq<string>): (r: seq<string>)
    ensures |r| == |xs|
    ensures forall i :: 0 <= i < |xs| ==> r[i] == Strip(xs[i])
  {
    seq(|xs|, i requires 0 <= i < |xs| => Strip(xs[i]))
  }

  /** The pieces of a column split on `","`, each stripped. */
  function ParseStripped(column: string): (r: seq<string>)
    ensures |r| >= 1
    ensures forall i :: 0 <= i < |r| ==> Stripped(r[i])
  {
    StripEach(Split(column, ","))
  }

  /** Splitting a `", "`-joined list on `","` leaves a blank in front of every
      piece but the first. */
  lemma {:induction false} SplitCommaOfJoin(xs: seq<string>)
    requires |xs| > 0
    requires forall i :: 0 <= i < |xs| ==> ',' !in xs[i]
    ensures |Split(Join(xs, ", "), ",")| == |xs|
    ensures Split(Join(xs, ", "), ",")[0] == xs[0]
    ensures forall i :: 1 <= i < |xs| ==> Split(Join(xs, ", "), ",")[i] == " " + xs[i]
  {
    if |xs| == 1 {
      CommaSafe(xs[0]);
      NoEarlyMatchNoOccurrence(xs[0], ",");
      SplitWithoutSeparator(xs[0], ",");
    } else {
      var tail := Join(xs[1..], ", ");
      assert Join(xs, ", ") == xs[0] + "," + (" " + tail);
      CommaSafe(xs[0]);
      SplitAfterPiece(xs[0], ",", " " + tail);
      SplitCommaOfJoin(xs[1..]);
      var inner := Split(tail, ",");
      assert (" " + tail)[1..] == tail;
      assert Split(" " + tail, ",") == [" " + inner[0]] + inner[1..];
    }
  }

  /** Round trip of the SQL program: a non-empty list of stripped, comma-free
      ingredients is read back exactly. */
  lemma ParseStrippedJoin(xs: seq<string>)
    requires |xs| > 0
    requires forall i :: 0 <= i < |xs| ==> Stripped(xs[i]) && ',' !in xs[i]
    ensures ParseStripped(Join(xs, ", ")) == xs
  {
    SplitCommaOfJoin(xs);
    var r := ParseStripped(Join(xs, ", "));
    forall i | 0 <= i < |xs| ensures r[i] == xs[i] {
      StripStripped(xs[i]);
      if i > 0 { StripLeadingBlank(xs[i]); }
    }
  }

  /** The exception to that round trip: the empty list is written as `""` and
      read back as one empty ingredient. */
  lemma ParseStrippedEmpty()
    ensures Join([], ", ") == ""
    ensures ParseStripped(Join([], ", ")) == [""]
  {
    assert Join([], ", ") == "";
    var parts := Split("", ",");
    assert parts == [""];
    StripStripped("");
    var r := StripEach(parts);
    assert |r| == 1 && r[0] == "";
    assert r == [""];
  }
}
