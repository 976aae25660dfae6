/**
 * The handful of Python string operations the bot's parsing rests on:
 * `str.split(sep)` with an explicit separator, `str.join`, `str.strip()`
 * and `int()` on a string of decimal digits.
 */
module Text {
  import opened Errors

  /** `sep` occurs in `s` starting at position `i`. */
  predicate OccursAt(s: string, sep: string, i: nat) {
    i + |sep| <= |s| && s[i..i + |sep|] == sep
  }

  /** Python's `sep in s`. */
  predicate Contains(s: string, sep: string) {
    exists i: nat :: i <= |s| && OccursAt(s, sep, i)
  }

  /** Python's `s.find(sep, start)`: the first position at or after `start` where `sep` occurs. */
  function FindFrom(s: string, sep: string, start: nat): (r: Option<nat>)
    requires |sep| > 0
    ensures r.Some? ==> start <= r.value && OccursAt(s, sep, r.value)
    ensures forall j: nat :: start <= j && (r.None? || j < r.value) ==> !OccursAt(s, sep, j)
    decreases |s| - start
  {
    if start + |sep| > |s| then None
    else if s[start..start + |sep|] == sep then Some(start)
    else FindFrom(s, sep, start + 1)
  }

  /**
   * Python's `s.split(sep)`: cut at every occurrence of `sep`, scanning left to
   * right without overlaps. There is always at least one piece.
   */
  function Split(s: string, sep: string): (parts: seq<string>)
    requires |sep| > 0
    ensures |parts| >= 1
    decreases |s|
  {
    match FindFrom(s, sep, 0)
    case None => [s]
    case Some(i) => [s[..i]] + Split(s[i + |sep|..], sep)
  }

  /** Python's `sep.join(parts)`. */
  function Join(parts: seq<string>, sep: string): string {
    if parts == [] then ""
    else if |parts| == 1 then parts[0]
    else parts[0] + sep + Join(parts[1..], sep)
  }

  /** One step of a split: the piece before the first separator, then the split of what follows it. */
  lemma SplitStep(s: string, sep: string, i: nat)
    requires |sep| > 0 && FindFrom(s, sep, 0) == Some(i)
    ensures Split(s, sep) == [s[..i]] + Split(s[i + |sep|..], sep)
    ensures s == s[..i] + sep + s[i + |sep|..]
  {
    assert s[i..i + |sep|] == sep;
    assert s == s[..i] + s[i..i + |sep|] + s[i + |sep|..] by {
      assert s == s[..i] + s[i..];
      assert s[i..] == s[i..i + |sep|] + s[i + |sep|..];
    }
  }

  /** Gluing the pieces back together with the separator gives the original string. */
  lemma {:induction false} JoinSplit(s: string, sep: string)
    requires |sep| > 0
    ensures Join(Split(s, sep), sep) == s
    decreases |s|
  {
    match FindFrom(s, sep, 0)
    case None =>
    case Some(i) =>
      var rest := s[i + |sep|..];
      SplitStep(s, sep, i);
      JoinSplit(rest, sep);
      var parts := Split(s, sep);
      assert parts[1..] == Split(rest, sep);
  }

  /** No piece of a split contains the separator. */
  lemma {:induction false} SplitPiecesFree(s: string, sep: string, k: nat)
    requires |sep| > 0 && k < |Split(s, sep)|
    ensures !Contains(Split(s, sep)[k], sep)
    decreases |s|
  {
    match FindFrom(s, sep, 0)
    case None =>
    case Some(i) =>
      if k == 0 {
        SplitStep(s, sep, i);
        forall j: nat | j <= i ensures !OccursAt(s[..i], sep, j) {
          if OccursAt(s[..i], sep, j) {
            assert s[..i][j..j + |sep|] == s[j..j + |sep|];
            assert OccursAt(s, sep, j);
          }
        }
      } else {
        SplitStep(s, sep, i);
        SplitPiecesFree(s[i + |sep|..], sep, k - 1);
      }
  }

  /** No piece of a split contains the separator, for every piece at once. */
  lemma SplitPiecesAllFree(s: string, sep: string)
    requires |sep| > 0
    ensures forall k :: 0 <= k < |Split(s, sep)| ==> !Contains(Split(s, sep)[k], sep)
  {
    forall k | 0 <= k < |Split(s, sep)| ensures !Contains(Split(s, sep)[k], sep) {
      SplitPiecesFree(s, sep, k);
    }
  }

  /** The first piece is the whole string exactly when the separator does not occur. */
  lemma SplitFirstPiece(s: string, sep: string)
    requires |sep| > 0
    ensures Split(s, sep)[0] == s <==> !Contains(s, sep)
    ensures !Contains(s, sep) ==> Split(s, sep) == [s]
  {
    match FindFrom(s, sep, 0)
    case None =>
    case Some(i) =>
      assert OccursAt(s, sep, i);
      assert |s[..i]| < |s|;
  }

  /** A string that starts with the separator splits into an empty first piece and the rest's pieces. */
  lemma SplitLeadingSeparator(sep: string, rest: string)
    requires |sep| > 0
    ensures Split(sep + rest, sep) == [""] + Split(rest, sep)
  {
    var s := sep + rest;
    assert OccursAt(s, sep, 0);
    assert FindFrom(s, sep, 0) == Some(0);
    assert s[|sep|..] == rest;
  }

  /** Python's `str.isspace()` on one character: the characters `str.strip()` removes. */
  predicate IsSpace(c: char) {
    || c == ' '
    || '\t' <= c <= '\r'
    || '\U{1C}' <= c <= '\U{1F}'
    || c == '\U{85}' || c == '\U{A0}' || c == '\U{1680}'
    || '\U{2000}' <= c <= '\U{200A}'
    || c == '\U{2028}' || c == '\U{2029}' || c == '\U{202F}' || c == '\U{205F}' || c == '\U{3000}'
  }

  predicate AllSpace(s: string) {
    forall i :: 0 <= i < |s| ==> IsSpace(s[i])
  }

  /** The length of the run of whitespace that `s` starts with. */
  function LeadingSpaces(s: string): (k: nat)
    ensures k <= |s| && AllSpace(s[..k])
    ensures k == |s| || !IsSpace(s[k])
  {
    if |s| > 0 && IsSpace(s[0]) then 1 + LeadingSpaces(s[1..]) else 0
  }

  /** The length of the run of whitespace that `s` ends with. */
  function TrailingSpaces(s: string): (k: nat)
    ensures k <= |s| && AllSpace(s[|s| - k..])
    ensures k == |s| || !IsSpace(s[|s| - k - 1])
  {
    if |s| > 0 && IsSpace(s[|s| - 1]) then 1 + TrailingSpaces(s[..|s| - 1]) else 0
  }

  /**
   * Python's `s.strip()`: the middle part of `s` between its leading and its
   * trailing whitespace, itself neither starting nor ending with whitespace.
   */
  function Strip(s: string): (r: string)
    ensures var k := LeadingSpaces(s);
      && k + |r| <= |s|
      && r == s[k..k + |r|]
      && AllSpace(s[..k]) && AllSpace(s[k + |r|..])
    ensures r == [] || (!IsSpace(r[0]) && !IsSpace(r[|r| - 1]))
  {
    var rest := s[LeadingSpaces(s)..];
    rest[..|rest| - TrailingSpaces(rest)]
  }

  predicate IsDigit(c: char) {
    '0' <= c <= '9'
  }

  predicate AllDigits(s: string) {
    forall i :: 0 <= i < |s| ==> IsDigit(s[i])
  }

  function DigitValue(c: char): (d: nat)
    requires IsDigit(c)
    ensures d < 10
  {
    c as int - '0' as int
  }

  function DigitChar(d: nat): (c: char)
    requires d < 10
    ensures IsDigit(c) && DigitValue(c) == d
  {
    ('0' as int + d) as char
  }

  /** Python's `int(ds)` on a non-empty string of ASCII digits (leading zeros allowed). */
  function ParseDecimal(ds: string): nat
    requires |ds| > 0 && AllDigits(ds)
  {
    if |ds| == 1 then DigitValue(ds[0])
    else ParseDecimal(ds[..|ds| - 1]) * 10 + DigitValue(ds[|ds| - 1])
  }

  /** Python's `str(n)` for a natural number. */
  function DecimalString(n: nat): (s: string)
    ensures |s| > 0 && AllDigits(s)
  {
    if n < 10 then [DigitChar(n)]
    else DecimalString(n / 10) + [DigitChar(n % 10)]
  }

  /** `int(str(n)) == n`. */
  lemma {:induction false} ParseDecimalString(n: nat)
    ensures ParseDecimal(DecimalString(n)) == n
  {
    if n >= 10 {
      var s := DecimalString(n);
      assert s[..|s| - 1] == DecimalString(n / 10);
      ParseDecimalString(n / 10);
    }
  }
}
