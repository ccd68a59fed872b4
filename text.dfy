/** Text matching as the transaction queries use it: ASCII case folding,
    literal unanchored substring search, and the decimal text of a number. */
module Text {

  predicate IsUpper(c: char) { 'A' <= c <= 'Z' }

  predicate IsLetter(c: char) { 'a' <= c <= 'z' || IsUpper(c) }

  predicate IsDigit(c: char) { '0' <= c <= '9' }

  /** Case folding of one character, as the 'i' flag of a pattern applies it to ASCII. */
  function LowerChar(c: char): char
  {
    if IsUpper(c) then (c as int - 'A' as int + 'a' as int) as char else c
  }

  function Lower(s: string): string
  {
    seq(|s|, i requires 0 <= i < |s| => LowerChar(s[i]))
  }

  /** `pattern` occurs in `text` at index `i`. */
  ghost predicate OccursAt(text: string, pattern: string, i: int)
  {
    0 <= i && i + |pattern| <= |text| && text[i..i + |pattern|] == pattern
  }

  ghost predicate Occurs(text: string, pattern: string)
  {
    exists i :: OccursAt(text, pattern, i)
  }

  /** Literal, unanchored search for `pattern` in `text`, trying each start
      position from the left. */
  function Contains(text: string, pattern: string): (found: bool)
    ensures found <==> Occurs(text, pattern)
    decreases |text|
  {
    if |text| < |pattern| then
      false
    else if text[..|pattern|] == pattern then
      assert OccursAt(text, pattern, 0);
      true
    else
      OccursShift(text, pattern);
      Contains(text[1..], pattern)
  }

  /** With no occurrence at the first position, the occurrences in `text` are
      those in `text[1..]`, one position further on. */
  lemma OccursShift(text: string, pattern: string)
    requires |text| >= 1 && !OccursAt(text, pattern, 0)
    ensures Occurs(text, pattern) <==> Occurs(text[1..], pattern)
  {
    if Occurs(text, pattern) {
      var i :| OccursAt(text, pattern, i);
      assert text[1..][i - 1..i - 1 + |pattern|] == text[i..i + |pattern|];
      assert OccursAt(text[1..], pattern, i - 1);
    }
    if Occurs(text[1..], pattern) {
      var i :| OccursAt(text[1..], pattern, i);
      assert text[1..][i..i + |pattern|] == text[i + 1..i + 1 + |pattern|];
      assert OccursAt(text, pattern, i + 1);
    }
  }

  /** Case-insensitive literal search: both sides are case-folded first. */
  predicate ContainsIgnoringCase(text: string, pattern: string)
  {
    Contains(Lower(text), Lower(pattern))
  }

  /** The empty pattern occurs in every text, whatever its case. */
  lemma EmptyPatternMatches(text: string)
    ensures ContainsIgnoringCase(text, "")
  {
  }

  /** For a pattern without letters (a month such as "05" between dashes),
      ignoring case changes nothing. */
  lemma LetterFreeIgnoresCase(text: string, pattern: string)
    requires forall k :: 0 <= k < |pattern| ==> !IsLetter(pattern[k])
    ensures ContainsIgnoringCase(text, pattern) == Contains(text, pattern)
  {
    assert Lower(pattern) == pattern;
    if Occurs(text, pattern) {
      var i :| OccursAt(text, pattern, i);
      LetterFreeOccursAt(text, pattern, i);
    }
    if Occurs(Lower(text), pattern) {
      var i :| OccursAt(Lower(text), pattern, i);
      LetterFreeOccursAt(text, pattern, i);
    }
  }

  /** A letter-free pattern occurs at `i` in a text exactly when it occurs
      at `i` in the case-folded text: folding changes letters only. */
  lemma LetterFreeOccursAt(text: string, pattern: string, i: int)
    requires forall k :: 0 <= k < |pattern| ==> !IsLetter(pattern[k])
    requires 0 <= i && i + |pattern| <= |text|
    ensures OccursAt(Lower(text), pattern, i) <==> OccursAt(text, pattern, i)
  {
    var low := Lower(text)[i..i + |pattern|];
    var original := text[i..i + |pattern|];
    forall k | 0 <= k < |pattern|
      ensures low[k] == pattern[k] <==> original[k] == pattern[k]
    {
      assert low[k] == LowerChar(original[k]);
    }
    if low == pattern {
      assert forall k :: 0 <= k < |pattern| ==> original[k] == pattern[k];
    }
    if original == pattern {
      assert forall k :: 0 <= k < |pattern| ==> low[k] == pattern[k];
    }
  }

  function DigitChar(d: nat): (c: char)
    requires d < 10
    ensures IsDigit(c) && DigitValue(c) == d
  {
    ('0' as int + d) as char
  }

  function DigitValue(c: char): nat
    requires IsDigit(c)
  {
    c as int - '0' as int
  }

  /** The number a string of decimal digits denotes, most significant first. */
  function DigitsValue(s: string): nat
    requires forall k :: 0 <= k < |s| ==> IsDigit(s[k])
  {
    if s == [] then 0 else 10 * DigitsValue(s[..|s| - 1]) + DigitValue(s[|s| - 1])
  }

  /** Decimal digits of a natural number, most significant first, with a
      leading zero only for zero itself. */
  function NatText(n: nat): (s: string)
    ensures |s| >= 1
    ensures forall k :: 0 <= k < |s| ==> IsDigit(s[k])
    ensures s[0] == '0' <==> n == 0
    decreases n
  {
    if n < 10 then [DigitChar(n)] else NatText(n / 10) + [DigitChar(n % 10)]
  }

  /** The digits `NatText` writes denote the number written. */
  lemma {:induction false} NatTextValue(n: nat)
    ensures DigitsValue(NatText(n)) == n
    decreases n
  {
    if n >= 10 {
      NatTextValue(n / 10);
      var s := NatText(n);
      assert s[..|s| - 1] == NatText(n / 10);
    }
  }
}
