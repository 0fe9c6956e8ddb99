/** The string validators of src/Utils/validate.js. Each JavaScript regular
    expression is written as its matching semantics: concatenation becomes a
    split of the string, an optional or alternative becomes a disjunction, and
    a lookahead `(?=.*X)` becomes "some X occurs, with no line terminator before
    it". Each validator is then characterised by a plain description of the
    strings it accepts. */
module Validate {

  predicate IsDigit(c: char) { '0' <= c <= '9' }

  predicate IsAsciiLower(c: char) { 'a' <= c <= 'z' }

  predicate IsAsciiUpper(c: char) { 'A' <= c <= 'Z' }

  predicate IsPasswordSpecial(c: char)
  {
    c == '@' || c == '$' || c == '!' || c == '%' || c == '*' || c == '?' || c == '&'
  }

  predicate AllDigits(s: string)
  {
    forall i :: 0 <= i < |s| ==> IsDigit(s[i])
  }

  /** JavaScript's `\s`: the WhiteSpace and LineTerminator code points. */
  predicate IsJsWhitespace(c: char)
  {
    var n := c as int;
    (9 <= n <= 13) || n == 0x20 || n == 0xA0 || n == 0x1680 ||
    (0x2000 <= n <= 0x200A) || n == 0x2028 || n == 0x2029 || n == 0x202F ||
    n == 0x205F || n == 0x3000 || n == 0xFEFF
  }

  /** The characters `.` does not match. */
  predicate IsLineTerminator(c: char)
  {
    var n := c as int;
    n == 10 || n == 13 || n == 0x2028 || n == 0x2029
  }

  // ---------------------------------------------------------------------
  // isValidMobile: /^\+?[1-9]\d{1,14}$/
  // ---------------------------------------------------------------------

  /** `[1-9]\d{1,14}` matched against the whole of `s`. */
  predicate MobileDigits(s: string)
  {
    |s| >= 1 && '1' <= s[0] <= '9' && 1 <= |s[1..]| <= 14 && AllDigits(s[1..])
  }

  /** `isValidMobile` (validate.js:14-17): the optional `\+` either consumes a
      leading plus sign or matches nothing. */
  predicate IsValidMobile(s: string)
  {
    (|s| >= 1 && s[0] == '+' && MobileDigits(s[1..])) || MobileDigits(s)
  }

  /** The digits of a mobile number: the string without one leading plus. */
  function MobileBody(s: string): (b: string)
    ensures |b| == |s| || (|b| == |s| - 1 && s[0] == '+' && b == s[1..])
  {
    if |s| >= 1 && s[0] == '+' then s[1..] else s
  }

  /** An optional "+" and then 2 to 15 digits of which the first is not 0
      (the length bound of an ITU-T E.164 number). */
  lemma MobileCharacterization(s: string)
    ensures IsValidMobile(s) <==>
      var b := MobileBody(s);
      2 <= |b| <= 15 && b[0] != '0' && AllDigits(b)
  {
    var b := MobileBody(s);
    if IsValidMobile(s) {
      assert MobileDigits(b);
      var tail := b[1..];
      assert forall i :: 0 <= i < |tail| ==> tail[i] == b[i + 1];
    }
    if 2 <= |b| <= 15 && b[0] != '0' && AllDigits(b) {
      assert forall i :: 0 <= i < |b[1..]| ==> b[1..][i] == b[i + 1];
      assert MobileDigits(b);
    }
  }

  /** A leading zero, and any character other than a digit after the optional
      plus, are rejected. */
  lemma MobileRejections(s: string, i: int)
    requires 0 <= i < |MobileBody(s)|
    ensures MobileBody(s)[0] == '0' ==> !IsValidMobile(s)
    ensures !IsDigit(MobileBody(s)[i]) ==> !IsValidMobile(s)
  {
    MobileCharacterization(s);
  }

  // ---------------------------------------------------------------------
  // isValidEmail: /^[^\s@]+@[^\s@]+\.[^\s@]+$/
  // ---------------------------------------------------------------------

  predicate EmailChar(c: char)
  {
    !IsJsWhitespace(c) && c != '@'
  }

  /** `[^\s@]+` matched against the whole of `s`. */
  predicate EmailRun(s: string)
  {
    |s| >= 1 && forall i :: 0 <= i < |s| ==> EmailChar(s[i])
  }

  /** `isValidEmail` (validate.js:1-4): some split of `s` into
      run "@" run "." run. */
  predicate IsValidEmail(s: string)
  {
    exists at, dot :: 0 <= at < dot < |s| && s[at] == '@' && s[dot] == '.' &&
      EmailRun(s[..at]) && EmailRun(s[at + 1..dot]) && EmailRun(s[dot + 1..])
  }

  /** Exactly one "@", no whitespace, a non-empty local part, and a "." in the
      domain that is neither its first nor its last character. */
  predicate EmailShape(s: string)
  {
    (forall i :: 0 <= i < |s| ==> !IsJsWhitespace(s[i])) &&
    exists at :: 0 < at < |s| && s[at] == '@' &&
      (forall i :: 0 <= i < |s| && i != at ==> s[i] != '@') &&
      exists dot :: at + 1 < dot < |s| - 1 && s[dot] == '.'
  }

  lemma EmailCharacterization(s: string)
    ensures IsValidEmail(s) <==> EmailShape(s)
  {
    if IsValidEmail(s) {
      ValidEmailHasShape(s);
    }
    if EmailShape(s) {
      EmailShapeIsValid(s);
    }
  }

  lemma ValidEmailHasShape(s: string)
    requires IsValidEmail(s)
    ensures EmailShape(s)
  {
    var at, dot :| 0 <= at < dot < |s| && s[at] == '@' && s[dot] == '.' &&
      EmailRun(s[..at]) && EmailRun(s[at + 1..dot]) && EmailRun(s[dot + 1..]);
    forall i | 0 <= i < |s| && i != at
      ensures s[i] != '@' && !IsJsWhitespace(s[i])
    {
      if i < at {
        assert s[..at][i] == s[i];
      } else if i < dot {
        assert s[at + 1..dot][i - at - 1] == s[i];
      } else if i > dot {
        assert s[dot + 1..][i - dot - 1] == s[i];
      }
    }
    assert EmailShape(s);
  }

  lemma EmailShapeIsValid(s: string)
    requires EmailShape(s)
    ensures IsValidEmail(s)
  {
    var at :| 0 < at < |s| && s[at] == '@' &&
      (forall i :: 0 <= i < |s| && i != at ==> s[i] != '@') &&
      exists dot :: at + 1 < dot < |s| - 1 && s[dot] == '.';
    var dot :| at + 1 < dot < |s| - 1 && s[dot] == '.';
    var local, domain, top := s[..at], s[at + 1..dot], s[dot + 1..];
    assert forall i :: 0 <= i < |local| ==> local[i] == s[i];
    assert forall i :: 0 <= i < |domain| ==> domain[i] == s[at + 1 + i];
    assert forall i :: 0 <= i < |top| ==> top[i] == s[dot + 1 + i];
    assert EmailRun(local) && EmailRun(domain) && EmailRun(top);
  }

  // ---------------------------------------------------------------------
  // isValidPassword:
  //   /^(?=.*[a-z])(?=.*[A-Z])(?=.*\d)(?=.*[@$!%*?&])[A-Za-z\d@$!%*?&]{8,}$/
  // ---------------------------------------------------------------------

  datatype CharClass = Lower | Upper | Digit | Special

  predicate InClass(k: CharClass, c: char)
  {
    match k
    case Lower => IsAsciiLower(c)
    case Upper => IsAsciiUpper(c)
    case Digit => IsDigit(c)
    case Special => IsPasswordSpecial(c)
  }

  predicate PasswordChar(c: char)
  {
    IsAsciiUpper(c) || IsAsciiLower(c) || IsDigit(c) || IsPasswordSpecial(c)
  }

  /** `(?=.*X)` at the start of `s`: an X preceded only by characters `.` matches. */
  predicate LookaheadFinds(s: string, k: CharClass)
  {
    exists i :: 0 <= i < |s| && InClass(k, s[i]) &&
      forall j :: 0 <= j < i ==> !IsLineTerminator(s[j])
  }

  /** `isValidPassword` (validate.js:6-9). */
  predicate IsValidPassword(s: string)
  {
    LookaheadFinds(s, Lower) && LookaheadFinds(s, Upper) &&
    LookaheadFinds(s, Digit) && LookaheadFinds(s, Special) &&
    |s| >= 8 && forall i :: 0 <= i < |s| ==> PasswordChar(s[i])
  }

  predicate Contains(s: string, k: CharClass)
  {
    exists i :: 0 <= i < |s| && InClass(k, s[i])
  }

  /** At least 8 characters, all from A-Z a-z 0-9 @$!%*?&, with at least one
      lower-case letter, one upper-case letter, one digit and one symbol. */
  lemma PasswordCharacterization(s: string)
    ensures IsValidPassword(s) <==>
      |s| >= 8 && (forall i :: 0 <= i < |s| ==> PasswordChar(s[i])) &&
      Contains(s, Lower) && Contains(s, Upper) && Contains(s, Digit) && Contains(s, Special)
  {
    if |s| >= 8 && (forall i :: 0 <= i < |s| ==> PasswordChar(s[i])) {
      forall k: CharClass | Contains(s, k)
        ensures LookaheadFinds(s, k)
      {
        var i :| 0 <= i < |s| && InClass(k, s[i]);
        assert forall j :: 0 <= j < i ==> PasswordChar(s[j]) && !IsLineTerminator(s[j]);
      }
    }
  }
}
