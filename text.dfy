/**
 * The few pieces of .NET string behaviour the core relies on: case mapping, StartsWith,
 * Contains, Trim, Split on a single separator and decimal rendering of integers.
 * Case mapping is modelled for ASCII letters only.
 */
module Text {

  /** Char.ToLower for ASCII letters; every other character maps to itself. */
  function LowerChar(c: char): char {
    if 'A' <= c <= 'Z' then (c as int + 32) as char else c
  }

  /** Char.ToUpper for ASCII letters; every other character maps to itself. */
  function UpperChar(c: char): char {
    if 'a' <= c <= 'z' then (c as int - 32) as char else c
  }

  /** String.ToLower: maps every character, keeps the length, leaves no upper-case ASCII letter. */
  function Lower(s: string): (r: string)
    ensures |r| == |s|
    ensures forall i :: 0 <= i < |r| ==> !('A' <= r[i] <= 'Z')
  {
    if s == [] then [] else [LowerChar(s[0])] + Lower(s[1..])
  }

  /** String.ToUpper: maps every character, keeps the length, leaves no lower-case ASCII letter. */
  function Upper(s: string): (r: string)
    ensures |r| == |s|
    ensures forall i :: 0 <= i < |r| ==> !('a' <= r[i] <= 'z')
  {
    if s == [] then [] else [UpperChar(s[0])] + Upper(s[1..])
  }

  lemma {:induction false} LowerAt(s: string, i: nat)
    requires i < |s|
    ensures Lower(s)[i] == LowerChar(s[i])
  {
    if i > 0 { LowerAt(s[1..], i - 1); }
  }

  lemma {:induction false} UpperAt(s: string, i: nat)
    requires i < |s|
    ensures Upper(s)[i] == UpperChar(s[i])
  {
    if i > 0 { UpperAt(s[1..], i - 1); }
  }

  predicate StartsWith(s: string, prefix: string) {
    |prefix| <= |s| && s[..|prefix|] == prefix
  }

  /**
   * The parser recognises a week line by its lower-cased first field starting with "week";
   * the recalculator recognises a week row by its upper-cased Visitor starting with "WEEK".
   * For the case mapping modelled here the two tests agree on every string.
   */
  lemma WeekPrefixTestsAgree(s: string)
    ensures StartsWith(Lower(s), "week") <==> StartsWith(Upper(s), "WEEK")
  {
    if |s| >= 4 {
      LowerAt(s, 0); LowerAt(s, 1); LowerAt(s, 2); LowerAt(s, 3);
      UpperAt(s, 0); UpperAt(s, 1); UpperAt(s, 2); UpperAt(s, 3);
      assert Lower(s)[..4] == [Lower(s)[0], Lower(s)[1], Lower(s)[2], Lower(s)[3]];
      assert Upper(s)[..4] == [Upper(s)[0], Upper(s)[1], Upper(s)[2], Upper(s)[3]];
    }
  }

  /** `part` occurs in `s` starting at index i. */
  predicate OccursAt(s: string, part: string, i: int) {
    0 <= i <= |s| - |part| && s[i..i + |part|] == part
  }

  /** String.Contains: true exactly when `part` occurs somewhere in `s`. */
  function Contains(s: string, part: string): (r: bool)
    ensures r <==> exists i :: OccursAt(s, part, i)
    decreases |s|
  {
    if |part| > |s| then false
    else if s[..|part|] == part then assert OccursAt(s, part, 0); true
    else
      var rest := Contains(s[1..], part);
      assert forall i :: OccursAt(s, part, i) <==> (i >= 1 && OccursAt(s[1..], part, i - 1)) by {
        forall i ensures OccursAt(s, part, i) <==> (i >= 1 && OccursAt(s[1..], part, i - 1)) {
          if 1 <= i <= |s| - |part| {
            assert s[1..][i - 1..i - 1 + |part|] == s[i..i + |part|];
          }
        }
      }
      if rest then
        var j :| OccursAt(s[1..], part, j);
        assert OccursAt(s, part, j + 1);
        true
      else false
  }

  /** Char.IsWhiteSpace: the Unicode separators and the control characters 9-13, 0x85. */
  predicate IsWhiteSpace(c: char) {
    ('\t' <= c <= '\r') || c == ' ' || c == '\U{85}' || c == '\U{A0}' || c == '\U{1680}'
    || ('\U{2000}' <= c <= '\U{200A}') || c == '\U{2028}' || c == '\U{2029}' || c == '\U{202F}'
    || c == '\U{205F}' || c == '\U{3000}'
  }

  /** String.TrimStart(): drops the whitespace prefix. */
  function TrimStart(s: string): string {
    if s != [] && IsWhiteSpace(s[0]) then TrimStart(s[1..]) else s
  }

  /** String.TrimEnd(): drops the whitespace suffix. */
  function TrimEnd(s: string): string {
    if s != [] && IsWhiteSpace(s[|s| - 1]) then TrimEnd(s[..|s| - 1]) else s
  }

  /** String.Trim(): the string without its leading and trailing whitespace. */
  function Trim(s: string): string {
    TrimEnd(TrimStart(s))
  }

  /** TrimStart drops exactly the maximal whitespace prefix. */
  lemma {:induction false} TrimStartDropsPrefix(s: string)
    ensures |TrimStart(s)| <= |s| && TrimStart(s) == s[|s| - |TrimStart(s)|..]
    ensures TrimStart(s) == [] || !IsWhiteSpace(TrimStart(s)[0])
    ensures forall k :: 0 <= k < |s| - |TrimStart(s)| ==> IsWhiteSpace(s[k])
  {
    if s != [] && IsWhiteSpace(s[0]) {
      TrimStartDropsPrefix(s[1..]);
      assert forall k :: 1 <= k < |s| ==> s[1..][k - 1] == s[k];
    }
  }

  /** TrimEnd drops exactly the maximal whitespace suffix. */
  lemma {:induction false} TrimEndDropsSuffix(s: string)
    ensures |TrimEnd(s)| <= |s| && TrimEnd(s) == s[..|TrimEnd(s)|]
    ensures TrimEnd(s) == [] || !IsWhiteSpace(TrimEnd(s)[|TrimEnd(s)| - 1])
    ensures forall k :: |TrimEnd(s)| <= k < |s| ==> IsWhiteSpace(s[k])
  {
    if s != [] && IsWhiteSpace(s[|s| - 1]) {
      TrimEndDropsSuffix(s[..|s| - 1]);
    }
  }

  /** `r` is the piece of `s` starting at index i, with only whitespace before and after it. */
  predicate CutFrom(s: string, r: string, i: int) {
    && 0 <= i <= |s| - |r| && s[i..i + |r|] == r
    && (forall k :: 0 <= k < i ==> IsWhiteSpace(s[k]))
    && (forall k :: i + |r| <= k < |s| ==> IsWhiteSpace(s[k]))
  }

  /**
   * Trim leaves a piece of the string that neither starts nor ends with whitespace, with
   * nothing but whitespace cut away on either side.
   */
  lemma Trimmed(s: string)
    ensures |Trim(s)| <= |s|
    ensures Trim(s) == [] || (!IsWhiteSpace(Trim(s)[0]) && !IsWhiteSpace(Trim(s)[|Trim(s)| - 1]))
    ensures exists i :: CutFrom(s, Trim(s), i)
  {
    var t := TrimStart(s);
    TrimStartDropsPrefix(s);
    TrimEndDropsSuffix(t);
    var i := |s| - |t|;
    var r := Trim(s);
    assert r == t[..|r|];
    assert s[i..i + |r|] == r;
    assert forall k :: i + |r| <= k < |s| ==> s[k] == t[k - i];
    if r != [] {
      assert r[0] == t[0];
    }
    assert CutFrom(s, r, i);
  }

  /**
   * String.Split(sep) with one separator character and default options: the pieces between
   * separators, empty pieces kept, so there is always at least one piece.
   */
  function Split(s: string, sep: char): (r: seq<string>)
    ensures |r| >= 1
    ensures forall i :: 0 <= i < |r| ==> sep !in r[i]
  {
    if s == [] then [""]
    else
      var rest := Split(s[1..], sep);
      if s[0] == sep then [""] + rest else [[s[0]] + rest[0]] + rest[1..]
  }

  /** String.Join(sep, parts). */
  function Join(parts: seq<string>, sep: char): string
    requires |parts| >= 1
  {
    if |parts| == 1 then parts[0] else parts[0] + [sep] + Join(parts[1..], sep)
  }

  /** Splitting and re-joining gives back the original line. */
  lemma {:induction false} JoinSplit(s: string, sep: char)
    ensures Join(Split(s, sep), sep) == s
  {
    if s != [] {
      var rest := Split(s[1..], sep);
      JoinSplit(s[1..], sep);
      if s[0] != sep {
        if |rest| == 1 {
          assert Split(s, sep) == [[s[0]] + rest[0]];
        } else {
          assert Split(s, sep)[1..] == rest[1..];
        }
      }
    }
  }

  /** Joining pieces that contain no separator and splitting again gives back the pieces. */
  lemma {:induction false} SplitJoin(parts: seq<string>, sep: char)
    requires |parts| >= 1
    requires forall i :: 0 <= i < |parts| ==> sep !in parts[i]
    ensures Split(Join(parts, sep), sep) == parts
  {
    if |parts| == 1 {
      SplitPiece(parts[0], "", sep);
    } else {
      SplitJoin(parts[1..], sep);
      SplitPiece(parts[0], Join(parts[1..], sep), sep);
      assert [parts[0]] + parts[1..] == parts;
    }
  }

  /** A separator-free piece is a single field, also when a separator and more text follow. */
  lemma {:induction false} SplitPiece(piece: string, rest: string, sep: char)
    requires sep !in piece
    ensures Split(piece, sep) == [piece]
    ensures Split(piece + [sep] + rest, sep) == [piece] + Split(rest, sep)
  {
    if piece == [] {
      assert ([] + [sep] + rest)[1..] == rest;
    } else {
      SplitPiece(piece[1..], rest, sep);
      assert [piece[0]] + piece[1..] == piece;
      assert (piece + [sep] + rest)[1..] == piece[1..] + [sep] + rest;
    }
  }

  function DigitChar(d: nat): char
    requires d < 10
  {
    ('0' as int + d) as char
  }

  /** Int32.ToString() of a non-negative value: its decimal digits, no leading zero. */
  function Decimal(n: nat): (r: string)
    ensures |r| >= 1
    ensures forall i :: 0 <= i < |r| ==> '0' <= r[i] <= '9'
    ensures |r| > 1 ==> r[0] != '0'
  {
    if n < 10 then [DigitChar(n)] else Decimal(n / 10) + [DigitChar(n % 10)]
  }

  /** The value of a string of decimal digits. */
  function DecimalValue(s: string): nat
    requires forall i :: 0 <= i < |s| ==> '0' <= s[i] <= '9'
  {
    if s == [] then 0 else 10 * DecimalValue(s[..|s| - 1]) + (s[|s| - 1] as int - '0' as int)
  }

  /** Rendering a number in decimal loses nothing: reading the digits back gives the number. */
  lemma {:induction false} DecimalRoundTrip(n: nat)
    ensures DecimalValue(Decimal(n)) == n
  {
    if n >= 10 {
      DecimalRoundTrip(n / 10);
      var r := Decimal(n);
      assert r[..|r| - 1] == Decimal(n / 10);
    }
  }
}
