/**
 * The few Python `str` operations the recipe programs rely on, restricted to
 * ASCII: `strip()`, `lower()`, `isnumeric()` followed by `int()`, and the
 * substring test that the database `LIKE '%term%'` queries perform.
 */
module Text {

  /** Python's `str.isspace` on the ASCII range: tab, line feed, vertical tab,
      form feed, carriage return, the four separators 0x1C-0x1F and space. */
  predicate IsSpace(c: char) {
    9 <= c as int <= 13 || 28 <= c as int <= 32
  }

  /** A string with no whitespace at either end, the shape `strip()` returns. */
  predicate Stripped(s: string) {
    s == [] || (!IsSpace(s[0]) && !IsSpace(s[|s| - 1]))
  }

  /** `lstrip()`: drops the leading whitespace and nothing else. */
  function TrimLeft(s: string): string {
    if s != [] && IsSpace(s[0]) then TrimLeft(s[1..]) else s
  }

  lemma {:induction false} TrimLeftShape(s: string)
    ensures |TrimLeft(s)| <= |s| && TrimLeft(s) == s[|s| - |TrimLeft(s)|..]
    ensures TrimLeft(s) == [] || !IsSpace(TrimLeft(s)[0])
    ensures forall k :: 0 <= k < |s| - |TrimLeft(s)| ==> IsSpace(s[k])
  {
    if s != [] && IsSpace(s[0]) {
      TrimLeftShape(s[1..]);
      assert s[1..][|s| - 1 - |TrimLeft(s)|..] == s[|s| - |TrimLeft(s)|..];
      forall k | 1 <= k < |s| - |TrimLeft(s)| ensures IsSpace(s[k]) {
        assert s[1..][k - 1] == s[k];
      }
    } else {
      assert s[0..] == s;
    }
  }

  /** `rstrip()`: drops the trailing whitespace and nothing else. */
  function TrimRight(s: string): string {
    if s != [] && IsSpace(s[|s| - 1]) then TrimRight(s[..|s| - 1]) else s
  }

  lemma {:induction false} TrimRightShape(s: string)
    ensures |TrimRight(s)| <= |s| && TrimRight(s) == s[..|TrimRight(s)|]
    ensures TrimRight(s) == [] || !IsSpace(TrimRight(s)[|TrimRight(s)| - 1])
    ensures forall k :: |TrimRight(s)| <= k < |s| ==> IsSpace(s[k])
  {
    if s != [] && IsSpace(s[|s| - 1]) {
      TrimRightShape(s[..|s| - 1]);
      assert s[..|s| - 1][..|TrimRight(s)|] == s[..|TrimRight(s)|];
    } else {
      assert s[..|s|] == s;
    }
  }

  /** `strip()`: `lstrip()` followed by `rstrip()`. */
  function Strip(s: string): (r: string)
    ensures Stripped(r) && |r| <= |s|
  {
    var l := TrimLeft(s);
    var r := TrimRight(l);
    assert Stripped(r) && |r| <= |s| by {
      TrimLeftShape(s);
      TrimRightShape(l);
      if r != [] { assert r[0] == l[0]; }
    }
    r
  }

  /** `strip()` keeps a contiguous piece of its input and cuts away nothing but
      whitespace: everything before and after the piece is blank, so every
      other character of `s` survives. With `Stripped(Strip(s))` this pins the
      result down: the piece between the leading and the trailing blanks. */
  lemma StripInfix(s: string)
    ensures exists i {:trigger s[i..]} ::
      (0 <= i <= |s| - |Strip(s)| && Strip(s) <= s[i..] &&
       (forall k :: 0 <= k < i ==> IsSpace(s[k])) &&
       (forall k :: i + |Strip(s)| <= k < |s| ==> IsSpace(s[k])))
    ensures forall c :: c in s && !IsSpace(c) ==> c in Strip(s)
  {
    var l := TrimLeft(s);
    var r := TrimRight(l);
    TrimLeftShape(s);
    TrimRightShape(l);
    var p := |s| - |l|;
    assert r <= s[p..] by { assert s[p..] == l; }
    forall k | p + |r| <= k < |s| ensures IsSpace(s[k]) {
      assert s[k] == l[k - p];
    }
    forall c | c in s && !IsSpace(c) ensures c in r {
      var k :| 0 <= k < |s| && s[k] == c;
      assert p <= k;
      assert l[k - p] == c;
      assert k - p < |r|;
      assert r[k - p] == c;
    }
  }

  /** Stripping a string that is already stripped changes nothing. */
  lemma {:induction false} StripStripped(s: string)
    requires Stripped(s)
    ensures Strip(s) == s
  {
    assert TrimLeft(s) == s;
    assert TrimRight(s) == s;
  }

  /** One leading blank makes no difference to `strip()`: this is what lets the
      comma parser of the SQL program undo the blank that `", ".join` inserts. */
  lemma {:induction false} StripLeadingBlank(s: string)
    ensures Strip(" " + s) == Strip(s)
  {
    assert (" " + s)[1..] == s;
    assert TrimLeft(" " + s) == TrimLeft(s);
  }

  /** Python's `lower()` on one ASCII character. */
  function LowerChar(c: char): (d: char)
    ensures 'A' <= c <= 'Z' ==> 'a' <= d <= 'z' && d as int == c as int + 32
    ensures !('A' <= c <= 'Z') ==> d == c
  {
    if 'A' <= c <= 'Z' then (c as int + 32) as char else c
  }

  /** Python's `lower()` on an ASCII string. */
  function Lower(s: string): (r: string)
    ensures |r| == |s|
    ensures forall i :: 0 <= i < |s| ==> r[i] == LowerChar(s[i])
  {
    seq(|s|, i requires 0 <= i < |s| => LowerChar(s[i]))
  }

  /** The sentinel test `line.lower() == 'done'` that ends ingredient entry. */
  predicate IsDone(line: string) {
    Lower(line) == "done"
  }

  /** The sentinel is exactly the four letters d, o, n, e, each in either case,
      and nothing around them: a line with a blank before or after is kept. */
  lemma DoneSpellings(line: string)
    ensures IsDone(line) <==>
      |line| == 4 && line[0] in "dD" && line[1] in "oO" && line[2] in "nN" && line[3] in "eE"
  {
    if |line| == 4 && line[0] in "dD" && line[1] in "oO" && line[2] in "nN" && line[3] in "eE" {
      assert Lower(line) == "done";
    }
    if IsDone(line) {
      assert |line| == 4;
      assert LowerChar(line[0]) == 'd' && LowerChar(line[1]) == 'o';
      assert LowerChar(line[2]) == 'n' && LowerChar(line[3]) == 'e';
    }
  }

  predicate IsDigit(c: char) {
    '0' <= c <= '9'
  }

  /** `isnumeric()` restricted to ASCII: at least one character, all digits. */
  predicate IsNumeric(s: string) {
    |s| > 0 && forall i :: 0 <= i < |s| ==> IsDigit(s[i])
  }

  /** `int(s)` for a string of decimal digits (leading zeros allowed). */
  function DigitsValue(s: string): nat
    requires forall i :: 0 <= i < |s| ==> IsDigit(s[i])
  {
    if s == [] then 0
    else assert IsDigit(s[|s| - 1]); DigitsValue(s[..|s| - 1]) * 10 + (s[|s| - 1] as int - '0' as int)
  }

  /** The decimal numeral of `n`, as `str(n)` prints it. */
  function Decimal(n: nat): (s: string)
    ensures IsNumeric(s)
  {
    var d := ((n % 10) + '0' as int) as char;
    if n < 10 then [d] else Decimal(n / 10) + [d]
  }

  /** Every non-negative cooking time can be typed in and is read back as itself. */
  lemma {:induction false} DecimalRoundTrip(n: nat)
    ensures DigitsValue(Decimal(n)) == n
  {
    var s := Decimal(n);
    var d := ((n % 10) + '0' as int) as char;
    if n < 10 {
      assert s[..0] == [];
    } else {
      DecimalRoundTrip(n / 10);
      assert s[..|s| - 1] == Decimal(n / 10);
      assert s[|s| - 1] == d;
    }
  }

  /** `t` occurs in `s` as a contiguous piece (Python's `t in s` on strings). */
  predicate Occurs(t: string, s: string)
    decreases |s|
  {
    t <= s || (s != [] && Occurs(t, s[1..]))
  }

  /** `Occurs` is the textbook "there is a position where `t` starts". */
  lemma {:induction false} OccursAt(t: string, s: string)
    ensures Occurs(t, s) <==> exists i :: 0 <= i <= |s| && t <= s[i..]
    decreases |s|
  {
    if s != [] {
      OccursAt(t, s[1..]);
      if t <= s {
        assert t <= s[0..] by { assert s[0..] == s; }
      } else if Occurs(t, s[1..]) {
        var i :| 0 <= i <= |s| - 1 && t <= s[1..][i..];
        assert s[1..][i..] == s[i + 1..];
        assert t <= s[i + 1..];
      }
      if exists i :: 0 <= i <= |s| && t <= s[i..] {
        var i :| 0 <= i <= |s| && t <= s[i..];
        if i == 0 {
          assert s[0..] == s;
        } else {
          assert s[1..][i - 1..] == s[i..];
          assert Occurs(t, s[1..]);
        }
      }
    } else {
      assert s[0..] == s;
    }
  }

  /** A piece of a piece of `s` is a piece of `s`. */
  lemma OccursTransitive(t: string, p: string, s: string)
    requires Occurs(t, p) && Occurs(p, s)
    ensures Occurs(t, s)
  {
    OccursAt(t, p);
    OccursAt(p, s);
    var i :| 0 <= i <= |p| && t <= p[i..];
    var j :| 0 <= j <= |s| && p <= s[j..];
    PrefixShift(t, p, s, i, j);
    OccursAt(t, s);
  }

  /** Where `p` starts at `j` in `s`, what starts at `i` in `p` starts at
      `j + i` in `s`. */
  lemma PrefixShift(t: string, p: string, s: string, i: nat, j: nat)
    requires i <= |p| && j <= |s| && t <= p[i..] && p <= s[j..]
    ensures j + i <= |s| && t <= s[j + i..]
  {
    forall k | 0 <= k < |t| ensures t[k] == s[j + i..][k] {
      assert t[k] == p[i + k];
      assert p[i + k] == s[j..][i + k];
    }
  }

  /** What `strip()` returns occurs in its input. */
  lemma StripOccurs(s: string)
    ensures Occurs(Strip(s), s)
  {
    StripInfix(s);
    OccursAt(Strip(s), s);
  }
}
