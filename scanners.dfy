/** Hand-written greedy scanners, one per regular expression of the lexer,
    and declarative descriptions of the lexemes each one accepts. */
module Scanners {

  // ---------------------------------------------------------------------------
  // Character classes
  // ---------------------------------------------------------------------------

  /** `\d`, taken as the ASCII digits. */
  predicate IsDigit(c: char) { '0' <= c <= '9' }

  predicate IsLetter(c: char) { 'A' <= c <= 'Z' || 'a' <= c <= 'z' }

  /** `[A-Za-z0-9_]` */
  predicate IsWordChar(c: char) { IsLetter(c) || IsDigit(c) || c == '_' }

  /** `[ \t]` */
  predicate IsBlank(c: char) { c == ' ' || c == '\t' }

  /** `.` without the DOTALL flag: anything but a newline. */
  predicate NotNewline(c: char) { c != '\n' }

  // ---------------------------------------------------------------------------
  // Lexeme shapes (what each pattern accepts, stated without scanning)
  // ---------------------------------------------------------------------------

  predicate IsInteger(s: string) {
    |s| > 0 && forall j :: 0 <= j < |s| ==> IsDigit(s[j])
  }

  /** `\d+\.\d+` */
  ghost predicate IsDecimal(s: string) {
    exists k :: 0 < k < |s| - 1 && s[k] == '.' &&
      (forall j :: 0 <= j < k ==> IsDigit(s[j])) &&
      (forall j :: k < j < |s| ==> IsDigit(s[j]))
  }

  /** `[A-Za-z][A-Za-z0-9_]*` */
  predicate IsWord(s: string) {
    |s| > 0 && IsLetter(s[0]) && forall j :: 0 < j < |s| ==> IsWordChar(s[j])
  }

  /** `([^"\\]|\\.)*`: plain characters other than quote and backslash, or a
      backslash followed by any character but a newline. */
  predicate EscapedBody(b: string) {
    if b == [] then true
    else if b[0] == '\\' then |b| >= 2 && b[1] != '\n' && EscapedBody(b[2..])
    else b[0] != '"' && EscapedBody(b[1..])
  }

  /** `"([^"\\]|\\.)*"` */
  predicate IsStringLexeme(s: string) {
    |s| >= 2 && s[0] == '"' && s[|s| - 1] == '"' && EscapedBody(s[1..|s| - 1])
  }

  /** `#.*` */
  predicate IsComment(s: string) {
    |s| > 0 && s[0] == '#' && forall j :: 0 <= j < |s| ==> s[j] != '\n'
  }

  /** `[ \t]+` */
  predicate IsBlankRun(s: string) {
    |s| > 0 && forall j :: 0 <= j < |s| ==> IsBlank(s[j])
  }

  // ---------------------------------------------------------------------------
  // Scanners: each returns the length of the match at offset i, 0 for none
  // ---------------------------------------------------------------------------

  /** The longest run of characters satisfying p that starts at i. */
  function RunLen(text: string, i: nat, p: char -> bool): (r: nat)
    requires i <= |text|
    ensures i + r <= |text|
    decreases |text| - i
  {
    if i < |text| && p(text[i]) then 1 + RunLen(text, i + 1, p) else 0
  }

  /** The run is maximal: every character in it satisfies p, and the one
      after it, if any, does not. */
  lemma {:induction false} RunMatch(text: string, i: nat, p: char -> bool)
    requires i <= |text|
    ensures var r := RunLen(text, i, p);
      (forall j :: i <= j < i + r ==> p(text[j])) &&
      (i + r < |text| ==> !p(text[i + r]))
    decreases |text| - i
  {
    if i < |text| && p(text[i]) {
      RunMatch(text, i + 1, p);
    }
  }

  /** RE_WHITESPACE */
  function BlankLen(text: string, i: nat): (r: nat)
    requires i <= |text|
    ensures i + r <= |text|
  {
    RunLen(text, i, IsBlank)
  }

  /** RE_COMMENT: from `#` up to, not including, the next newline. */
  function CommentLen(text: string, i: nat): (r: nat)
    requires i <= |text|
    ensures i + r <= |text|
  {
    if i < |text| && text[i] == '#' then 1 + RunLen(text, i + 1, NotNewline) else 0
  }

  /** RE_STRING: the characters from j on, up to the closing quote.  The
      result is the length of the whole lexeme counted from i, or 0 when the
      literal is not closed. */
  function StringRest(text: string, i: nat, j: nat): (r: nat)
    requires i < j <= |text|
    ensures r > 0 ==> j < i + r <= |text| && text[i + r - 1] == '"'
    ensures r > 0 ==> EscapedBody(text[j..i + r - 1])
    decreases |text| - j
  {
    if j == |text| then 0
    else if text[j] == '"' then j + 1 - i
    else if text[j] == '\\' then
      if j + 1 < |text| && text[j + 1] != '\n' then
        var r := StringRest(text, i, j + 2);
        assert r > 0 ==> text[j..i + r - 1][2..] == text[j + 2..i + r - 1];
        r
      else 0
    else
      var r := StringRest(text, i, j + 1);
      assert r > 0 ==> text[j..i + r - 1][1..] == text[j + 1..i + r - 1];
      r
  }

  function StringLen(text: string, i: nat): (r: nat)
    requires i <= |text|
    ensures i + r <= |text|
  {
    if i < |text| && text[i] == '"' then StringRest(text, i, i + 1) else 0
  }

  /** RE_DECIMAL: digits, a dot, digits, each digit run taken greedily. */
  function DecimalLen(text: string, i: nat): (r: nat)
    requires i <= |text|
    ensures i + r <= |text|
  {
    var a := RunLen(text, i, IsDigit);
    if a > 0 && i + a < |text| && text[i + a] == '.' then
      var b := RunLen(text, i + a + 1, IsDigit);
      if b > 0 then a + 1 + b else 0
    else 0
  }

  /** RE_INT */
  function IntegerLen(text: string, i: nat): (r: nat)
    requires i <= |text|
    ensures i + r <= |text|
  {
    RunLen(text, i, IsDigit)
  }

  /** RE_ID */
  function WordLen(text: string, i: nat): (r: nat)
    requires i <= |text|
    ensures i + r <= |text|
  {
    if i < |text| && IsLetter(text[i]) then 1 + RunLen(text, i + 1, IsWordChar) else 0
  }

  // ---------------------------------------------------------------------------
  // What each scanner matches
  // ---------------------------------------------------------------------------

  /** Blanks are taken greedily, and only blanks. */
  lemma BlankMatch(text: string, i: nat)
    requires i <= |text|
    ensures var r := BlankLen(text, i);
      (r > 0 ==> IsBlankRun(text[i..i + r])) &&
      (r == 0 <==> i == |text| || !IsBlank(text[i])) &&
      (i + r < |text| ==> !IsBlank(text[i + r]))
  {
    RunMatch(text, i, IsBlank);
  }

  /** A comment runs from `#` to just before the next newline or the end. */
  lemma CommentMatch(text: string, i: nat)
    requires i <= |text|
    ensures var r := CommentLen(text, i);
      (r > 0 ==> IsComment(text[i..i + r])) &&
      (r == 0 <==> i == |text| || text[i] != '#') &&
      (r > 0 && i + r < |text| ==> text[i + r] == '\n')
  {
    if i < |text| {
      RunMatch(text, i + 1, NotNewline);
    }
  }

  /** A string match is a whole, well-escaped literal that starts at a quote. */
  lemma StringMatch(text: string, i: nat)
    requires i <= |text|
    ensures var r := StringLen(text, i);
      r > 0 ==> text[i] == '"' && IsStringLexeme(text[i..i + r])
  {
    var r := StringLen(text, i);
    if r > 0 {
      assert r == StringRest(text, i, i + 1) && r >= 2;
      var lexeme := text[i..i + r];
      var body, inner := lexeme[1..r - 1], text[i + 1..i + r - 1];
      assert forall k :: 0 <= k < |body| ==> body[k] == inner[k];
      assert body == inner;
    }
  }

  /** A closed, well-escaped literal body from j up to the quote at e is
      read to its end: nothing inside it stops the scan early. */
  lemma {:induction false} StringRestFound(text: string, i: nat, j: nat, e: nat)
    requires i < j <= e < |text| && text[e] == '"' && EscapedBody(text[j..e])
    ensures StringRest(text, i, j) == e + 1 - i
    decreases e - j
  {
    if j < e {
      var b := text[j..e];
      assert b[0] == text[j];
      if text[j] == '\\' {
        assert b[1] == text[j + 1] && b[2..] == text[j + 2..e];
        StringRestFound(text, i, j + 2, e);
      } else {
        assert b[1..] == text[j + 1..e];
        StringRestFound(text, i, j + 1, e);
      }
    }
  }

  /** A literal that is there is found, with its whole length: the converse
      of StringMatch. */
  lemma StringFound(text: string, i: nat, n: nat)
    requires i + n <= |text| && IsStringLexeme(text[i..i + n])
    ensures StringLen(text, i) == n
  {
    var lexeme := text[i..i + n];
    assert lexeme[0] == text[i] && lexeme[n - 1] == text[i + n - 1];
    var body, inner := lexeme[1..n - 1], text[i + 1..i + n - 1];
    assert forall k :: 0 <= k < |body| ==> body[k] == inner[k];
    assert body == inner;
    StringRestFound(text, i, i + 1, i + n - 1);
  }

  /** The string scanner matches at i exactly when a closed, well-escaped
      literal starts there. */
  lemma StringAt(text: string, i: nat)
    requires i <= |text|
    ensures StringLen(text, i) > 0 <==>
      exists e: nat :: i <= e <= |text| && IsStringLexeme(text[i..e])
  {
    var r := StringLen(text, i);
    StringMatch(text, i);
    if r > 0 {
      assert IsStringLexeme(text[i..i + r]);
    }
    if exists e: nat :: i <= e <= |text| && IsStringLexeme(text[i..e]) {
      var e: nat :| i <= e <= |text| && IsStringLexeme(text[i..e]);
      StringFound(text, i, e - i);
    }
  }

  /** A run of m characters satisfying p, followed by the end of the text or
      by a character that does not, is exactly the run RunLen finds. */
  lemma RunExact(text: string, i: nat, p: char -> bool, m: nat)
    requires i + m <= |text| && (forall j :: i <= j < i + m ==> p(text[j]))
    ensures RunLen(text, i, p) >= m
    ensures i + m == |text| || !p(text[i + m]) ==> RunLen(text, i, p) == m
  {
    RunMatch(text, i, p);
  }

  /** A decimal lexeme that is there is matched: the match covers it, and
      is exactly it when no digit follows.  The converse of DecimalMatch. */
  lemma DecimalFound(text: string, i: nat, n: nat)
    requires i + n <= |text| && IsDecimal(text[i..i + n])
    ensures DecimalLen(text, i) >= n
    ensures i + n == |text| || !IsDigit(text[i + n]) ==> DecimalLen(text, i) == n
  {
    var s := text[i..i + n];
    var k :| 0 < k < |s| - 1 && s[k] == '.' &&
      (forall j :: 0 <= j < k ==> IsDigit(s[j])) &&
      (forall j :: k < j < |s| ==> IsDigit(s[j]));
    assert forall j :: i <= j < i + k ==> text[j] == s[j - i];
    assert text[i + k] == s[k];
    RunExact(text, i, IsDigit, k);
    assert forall j :: i + k + 1 <= j < i + n ==> text[j] == s[j - i];
    RunExact(text, i + k + 1, IsDigit, n - k - 1);
  }

  /** The decimal scanner matches at i exactly when digits, a dot and digits
      start there. */
  lemma DecimalAt(text: string, i: nat)
    requires i <= |text|
    ensures DecimalLen(text, i) > 0 <==> exists e: nat :: i <= e <= |text| && IsDecimal(text[i..e])
  {
    var r := DecimalLen(text, i);
    DecimalMatch(text, i);
    if r > 0 {
      assert IsDecimal(text[i..i + r]);
    }
    if exists e: nat :: i <= e <= |text| && IsDecimal(text[i..e]) {
      var e: nat :| i <= e <= |text| && IsDecimal(text[i..e]);
      DecimalFound(text, i, e - i);
    }
  }

  /** A decimal match is digits, a dot and digits, and the digits after the
      dot are taken greedily. */
  lemma DecimalMatch(text: string, i: nat)
    requires i <= |text|
    ensures var r := DecimalLen(text, i);
      (r > 0 ==> IsDecimal(text[i..i + r])) &&
      (r > 0 && i + r < |text| ==> !IsDigit(text[i + r]))
  {
    var r := DecimalLen(text, i);
    var a := RunLen(text, i, IsDigit);
    RunMatch(text, i, IsDigit);
    if a > 0 && i + a < |text| && text[i + a] == '.' {
      RunMatch(text, i + a + 1, IsDigit);
    }
    if r > 0 {
      var s := text[i..i + r];
      assert s[a] == '.' && (forall j :: 0 <= j < a ==> IsDigit(s[j]))
        && (forall j :: a < j < |s| ==> IsDigit(s[j]));
    }
  }

  /** Digits are taken greedily, and only digits. */
  lemma IntegerMatch(text: string, i: nat)
    requires i <= |text|
    ensures var r := IntegerLen(text, i);
      (r > 0 ==> IsInteger(text[i..i + r])) &&
      (r == 0 <==> i == |text| || !IsDigit(text[i])) &&
      (i + r < |text| ==> !IsDigit(text[i + r]))
  {
    RunMatch(text, i, IsDigit);
  }

  /** A word is a letter and then letters, digits and underscores, greedily. */
  lemma WordMatch(text: string, i: nat)
    requires i <= |text|
    ensures var r := WordLen(text, i);
      (r > 0 ==> IsWord(text[i..i + r])) &&
      (r == 0 <==> i == |text| || !IsLetter(text[i])) &&
      (r > 0 && i + r < |text| ==> !IsWordChar(text[i + r]))
  {
    if i < |text| {
      RunMatch(text, i + 1, IsWordChar);
    }
  }
}
