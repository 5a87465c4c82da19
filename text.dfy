/**
 * String helpers shared by the backend and the frontend code: JavaScript's
 * `trim`, `toLowerCase`/`toUpperCase`, `includes`, `startsWith`, decimal and
 * hexadecimal rendering, and the two regular expressions the project uses
 * (`/^[0-9]{10}$/` and the account e-mail pattern).
 */
module Text {

  // ---------------------------------------------------------------------------
  // Characters

  /** The ASCII white-space characters `String.prototype.trim` removes. */
  predicate IsWhitespace(c: char) {
    c == ' ' || c == '\t' || c == '\n' || c == '\r' || c == '\U{B}' || c == '\U{C}'
  }

  predicate IsDigit(c: char) { '0' <= c <= '9' }

  predicate IsLowerLetter(c: char) { 'a' <= c <= 'z' }

  predicate IsUpperLetter(c: char) { 'A' <= c <= 'Z' }

  /** The regular-expression class `\w`: `[A-Za-z0-9_]`. */
  predicate IsWordChar(c: char) { IsLowerLetter(c) || IsUpperLetter(c) || IsDigit(c) || c == '_' }

  function LowerChar(c: char): (r: char)
    ensures !IsUpperLetter(r)
    ensures !IsUpperLetter(c) ==> r == c
  {
    if IsUpperLetter(c) then (c as int + 32) as char else c
  }

  function UpperChar(c: char): (r: char)
    ensures !IsLowerLetter(r)
    ensures !IsLowerLetter(c) ==> r == c
  {
    if IsLowerLetter(c) then (c as int - 32) as char else c
  }

  // ---------------------------------------------------------------------------
  // Case mapping (ASCII letters only)

  function ToLower(s: string): (r: string)
    ensures |r| == |s|
    ensures forall i :: 0 <= i < |s| ==> r[i] == LowerChar(s[i])
  {
    if s == [] then [] else [LowerChar(s[0])] + ToLower(s[1..])
  }

  function ToUpper(s: string): (r: string)
    ensures |r| == |s|
    ensures forall i :: 0 <= i < |s| ==> r[i] == UpperChar(s[i])
  {
    if s == [] then [] else [UpperChar(s[0])] + ToUpper(s[1..])
  }

  /** Upper-casing leaves a string without lower-case letters unchanged. */
  lemma ToUpperFixesUpper(s: string)
    requires forall i :: 0 <= i < |s| ==> !IsLowerLetter(s[i])
    ensures ToUpper(s) == s
  {
  }

  /** Upper-casing undoes lower-casing on a string without lower-case letters. */
  lemma UpperOfLower(s: string)
    requires forall i :: 0 <= i < |s| ==> !IsLowerLetter(s[i])
    ensures ToUpper(ToLower(s)) == s
  {
    forall i | 0 <= i < |s| ensures ToUpper(ToLower(s))[i] == s[i] {
      UpperOfLowerChar(s[i]);
    }
  }

  lemma UpperOfLowerChar(c: char)
    requires !IsLowerLetter(c)
    ensures UpperChar(LowerChar(c)) == c
  {
  }

  lemma ToLowerFixesLower(s: string)
    requires forall i :: 0 <= i < |s| ==> !IsUpperLetter(s[i])
    ensures ToLower(s) == s
  {
  }

  /** Lower-casing works character by character, so it distributes over concatenation. */
  lemma ToLowerAppend(a: string, b: string)
    ensures ToLower(a + b) == ToLower(a) + ToLower(b)
  {
    assert forall i :: 0 <= i < |a + b| ==> ToLower(a + b)[i] == (ToLower(a) + ToLower(b))[i];
  }

  // ---------------------------------------------------------------------------
  // Trimming

  function TrimStart(s: string): (r: string)
    ensures |r| <= |s| && forall i :: 0 <= i < |r| ==> r[i] == s[|s| - |r| + i]
    ensures r == [] || !IsWhitespace(r[0])
    ensures forall i :: 0 <= i < |s| - |r| ==> IsWhitespace(s[i])
  {
    if s != [] && IsWhitespace(s[0]) then TrimStart(s[1..]) else s
  }

  function TrimEnd(s: string): (r: string)
    ensures |r| <= |s| && r == s[..|r|]
    ensures r == [] || !IsWhitespace(r[|r| - 1])
    ensures forall i :: |r| <= i < |s| ==> IsWhitespace(s[i])
  {
    if s != [] && IsWhitespace(s[|s| - 1]) then TrimEnd(s[..|s| - 1]) else s
  }

  /** `String.prototype.trim`. */
  function Trim(s: string): (r: string)
    ensures |r| <= |s|
    ensures r == [] || (!IsWhitespace(r[0]) && !IsWhitespace(r[|r| - 1]))
  {
    TrimEnd(TrimStart(s))
  }

  /** Trimming a trimmed string changes nothing. */
  lemma TrimIdempotent(s: string)
    ensures Trim(Trim(s)) == Trim(s)
  {
    var t := Trim(s);
    if t != [] {
      assert TrimStart(t) == t;
      assert TrimEnd(t) == t;
    }
  }

  // ---------------------------------------------------------------------------
  // Searching

  predicate StartsWith(s: string, prefix: string) {
    |prefix| <= |s| && s[..|prefix|] == prefix
  }

  /** `String.prototype.includes`: `needle` occurs in `hay` at some offset. */
  predicate Contains(hay: string, needle: string) {
    exists i :: 0 <= i <= |hay| - |needle| && OccursAt(hay, needle, i)
  }

  predicate OccursAt(hay: string, needle: string, i: int) {
    0 <= i <= |hay| - |needle| && hay[i..i + |needle|] == needle
  }

  lemma ContainsEmpty(hay: string)
    ensures Contains(hay, "")
  {
    assert OccursAt(hay, "", 0);
  }

  lemma ContainsAt(hay: string, needle: string, i: nat)
    requires i + |needle| <= |hay| && hay[i..i + |needle|] == needle
    ensures Contains(hay, needle)
  {
    assert OccursAt(hay, needle, i);
  }

  /** A string contains every piece of a concatenation it is made of. */
  lemma ContainsInConcat(a: string, needle: string, b: string)
    ensures Contains(a + needle + b, needle)
  {
    ContainsAt(a + needle + b, needle, |a|);
  }

  // ---------------------------------------------------------------------------
  // Decimal numbers

  function DigitChar(d: nat): (c: char)
    requires d < 10
    ensures IsDigit(c)
  {
    "0123456789"[d]
  }

  /** The decimal rendering of a natural number, as JavaScript's template strings print it. */
  function Decimal(n: nat): (r: string)
    ensures |r| >= 1
    ensures forall i :: 0 <= i < |r| ==> IsDigit(r[i])
    ensures n >= 10 ==> r[0] != '0'
  {
    if n < 10 then [DigitChar(n)] else Decimal(n / 10) + [DigitChar(n % 10)]
  }

  function DigitValue(c: char): (d: nat)
    requires IsDigit(c)
    ensures d < 10
  {
    c as int - '0' as int
  }

  function DecimalValue(s: string): nat
    requires forall i :: 0 <= i < |s| ==> IsDigit(s[i])
  {
    if s == [] then 0 else 10 * DecimalValue(s[..|s| - 1]) + DigitValue(s[|s| - 1])
  }

  /** Reading back the decimal rendering gives the number. */
  lemma {:induction false} DecimalRoundTrip(n: nat)
    ensures DecimalValue(Decimal(n)) == n
  {
    if n >= 10 {
      var s := Decimal(n);
      assert s[..|s| - 1] == Decimal(n / 10);
      DecimalRoundTrip(n / 10);
    }
  }

  /** Five-digit numbers render as exactly five digits. */
  lemma DecimalFiveDigits(n: nat)
    requires 10000 <= n <= 99999
    ensures |Decimal(n)| == 5
  {
    var n1 := n / 10;
    var n2 := n1 / 10;
    var n3 := n2 / 10;
    var n4 := n3 / 10;
    assert 1 <= n4 < 10 <= n3 && 10 <= n2 && 10 <= n1;
    assert |Decimal(n4)| == 1;
    assert |Decimal(n3)| == 2;
    assert |Decimal(n2)| == 3;
    assert |Decimal(n1)| == 4;
  }

  /** `/^[0-9]{10}$/`. */
  predicate IsTenDigits(s: string) {
    |s| == 10 && forall i :: 0 <= i < |s| ==> IsDigit(s[i])
  }

  // ---------------------------------------------------------------------------
  // Hexadecimal

  function HexLower(d: nat): (c: char)
    requires d < 16
  {
    "0123456789abcdef"[d]
  }

  predicate IsUpperHexDigit(c: char) { IsDigit(c) || 'A' <= c <= 'F' }

  function UpperHexValue(c: char): (d: nat)
    requires IsUpperHexDigit(c)
    ensures d < 16
  {
    if IsDigit(c) then c as int - '0' as int else c as int - 'A' as int + 10
  }

  lemma UpperHexOfLower(d: nat)
    requires d < 16
    ensures IsUpperHexDigit(UpperChar(HexLower(d))) && UpperHexValue(UpperChar(HexLower(d))) == d
  {
  }

  // ---------------------------------------------------------------------------
  // The account e-mail pattern `/^\w+([\.-]?\w+)*@\w+([\.-]?\w+)*(\.\w{2,3})+$/`

  predicate IsSeparator(c: char) { c == '.' || c == '-' }

  /**
   * `\w+([\.-]?\w+)*`: runs of word characters joined by single `.` or `-`;
   * it starts and ends with a word character.
   */
  predicate IsWordChain(s: string) {
    && |s| > 0
    && IsWordChar(s[0])
    && IsWordChar(s[|s| - 1])
    && (forall i :: 0 <= i < |s| ==> IsWordChar(s[i]) || IsSeparator(s[i]))
    && (forall i :: 0 <= i < |s| - 1 ==> IsWordChar(s[i]) || IsWordChar(s[i + 1]))
  }

  /**
   * `\w+([\.-]?\w+)*(\.\w{2,3})+`: a word chain whose last separator is a dot
   * followed by two or three word characters.
   */
  predicate IsDomainChain(s: string) {
    && IsWordChain(s)
    && exists k | 0 < k < |s| :: DomainTail(s, k)
  }

  /** `s[k]` is the dot before the final two or three word characters. */
  predicate DomainTail(s: string, k: int) {
    0 < k < |s| && s[k] == '.' && 2 <= |s| - k - 1 <= 3 && (forall j :: k < j < |s| ==> IsWordChar(s[j]))
  }

  /** The whole pattern: a word chain, `@`, a domain chain. */
  predicate IsAccountEmail(s: string) {
    exists at | 0 <= at < |s| :: AccountParts(s, at)
  }

  /** `s[at]` is the `@` between a word chain and a domain chain. */
  predicate AccountParts(s: string, at: int) {
    0 <= at < |s| && s[at] == '@' && IsWordChain(s[..at]) && IsDomainChain(s[at + 1..])
  }

  /** No character of `s` is white space (`\S` throughout). */
  predicate NoWhitespace(s: string) {
    forall i :: 0 <= i < |s| ==> !IsWhitespace(s[i])
  }

  /** The reporter e-mail pattern of a complaint, `/^\S+@\S+\.\S+$/`. */
  predicate IsReporterEmail(s: string) {
    && NoWhitespace(s)
    && exists at, dot | 0 < at < dot < |s| :: ReporterParts(s, at, dot)
  }

  /** Every address the account pattern accepts also passes the reporter pattern. */
  lemma AccountEmailIsReporterEmail(s: string)
    requires IsAccountEmail(s)
    ensures IsReporterEmail(s)
  {
    var at :| 0 <= at < |s| && AccountParts(s, at);
    var d := s[at + 1..];
    var k :| 0 < k < |d| && DomainTail(d, k);
    WordChainHasNoWhitespace(s[..at]);
    WordChainHasNoWhitespace(d);
    forall i | 0 <= i < |s| ensures !IsWhitespace(s[i]) {
      if i < at {
        assert s[i] == s[..at][i];
      } else if i > at {
        assert s[i] == d[i - at - 1];
      }
    }
    assert s[at + 1 + k] == d[k];
    assert ReporterParts(s, at, at + 1 + k);
  }

  /** The `@` and `.` positions the reporter pattern asks for. */
  predicate ReporterParts(s: string, at: int, dot: int) {
    0 < at && at + 1 < dot && dot + 1 < |s| && s[at] == '@' && s[dot] == '.'
  }

  lemma WordChainHasNoWhitespace(s: string)
    requires IsWordChain(s)
    ensures forall i :: 0 <= i < |s| ==> !IsWhitespace(s[i])
  {
  }

  /** Lower-casing changes neither white space, `@` nor `.`, so the reporter pattern ignores case. */
  lemma ReporterEmailIgnoresCase(s: string)
    ensures IsReporterEmail(ToLower(s)) <==> IsReporterEmail(s)
  {
    var l := ToLower(s);
    LowerKeepsWhitespace(s);
    if IsReporterEmail(s) {
      var at, dot :| 0 < at < dot < |s| && ReporterParts(s, at, dot);
      LowerKeepsParts(s, at, dot);
    }
    if IsReporterEmail(l) {
      var at, dot :| 0 < at < dot < |l| && ReporterParts(l, at, dot);
      LowerKeepsParts(s, at, dot);
    }
  }

  lemma LowerKeepsWhitespace(s: string)
    ensures NoWhitespace(ToLower(s)) <==> NoWhitespace(s)
  {
    var l := ToLower(s);
    if NoWhitespace(l) {
      forall i | 0 <= i < |s| ensures !IsWhitespace(s[i]) {
        assert !IsWhitespace(l[i]);
        LowerCharKeepsMarks(s[i]);
      }
    }
    if NoWhitespace(s) {
      forall i | 0 <= i < |s| ensures !IsWhitespace(l[i]) {
        assert !IsWhitespace(s[i]);
        LowerCharKeepsMarks(s[i]);
      }
    }
  }

  lemma LowerKeepsParts(s: string, at: int, dot: int)
    requires 0 < at < dot < |s|
    ensures ReporterParts(ToLower(s), at, dot) <==> ReporterParts(s, at, dot)
  {
    LowerCharKeepsMarks(s[at]);
    LowerCharKeepsMarks(s[dot]);
  }

  lemma LowerCharKeepsMarks(c: char)
    ensures IsWhitespace(LowerChar(c)) <==> IsWhitespace(c)
    ensures LowerChar(c) == '@' <==> c == '@'
    ensures LowerChar(c) == '.' <==> c == '.'
  {
  }
}
