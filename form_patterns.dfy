/**
 * The two patterns the sign-up and login forms test their fields with:
 * the email pattern `^[^\s@]+@[^\s@]+\.[^\s@]+$` and the password pattern
 * of three look-aheads (a letter, a digit, a special character) followed
 * by `.{8,}` anchored at both ends. Also what a failed request tells the
 * page.
 */
module FormPatterns {
  import opened Options
  import opened Strings

  /** The `[^\s@]` class. */
  predicate EmailChar(c: char) {
    !IsSpace(c) && c != '@'
  }

  /** `[^\s@]*`: the whole text is made of `[^\s@]` characters. */
  predicate EmailChars(t: string) {
    forall i :: 0 <= i < |t| ==> EmailChar(t[i])
  }

  /**
   * `^[^\s@]+@[^\s@]+\.[^\s@]+$` matches with its `@` at `k` and its `\.`
   * at `j`: each of the three runs is non-empty and made of `[^\s@]`.
   */
  predicate EmailPattern(s: string) {
    exists k, j :: 0 < k && k + 1 < j && j + 1 < |s| && EmailSplit(s, k, j)
  }

  predicate EmailSplit(s: string, k: int, j: int) {
    && 0 < k && k + 1 < j && j + 1 < |s|
    && s[k] == '@' && s[j] == '.'
    && EmailChars(s[..k]) && EmailChars(s[k + 1..j]) && EmailChars(s[j + 1..])
  }

  /** A `.` strictly inside the text: neither its first nor its last character. */
  predicate InnerDot(d: string) {
    exists i :: 0 < i < |d| - 1 && d[i] == '.'
  }

  /**
   * The address read at its first `@`: a non-empty local part and a
   * domain, neither holding white space or `@`, the domain with an inner `.`.
   */
  predicate EmailShape(s: string) {
    var k := CharIndex(s, '@');
    0 < k < |s| && EmailChars(s[..k]) && EmailChars(s[k + 1..]) && InnerDot(s[k + 1..])
  }

  /** The pattern accepts exactly the addresses of that shape. */
  lemma EmailPatternIff(s: string)
    ensures EmailPattern(s) <==> EmailShape(s)
  {
    if EmailPattern(s) {
      var k, j :| 0 < k && k + 1 < j && j + 1 < |s| && EmailSplit(s, k, j);
      EmailAt(s, k);
      var d := s[k + 1..];
      assert d[j - k - 1] == '.';
      forall i | 0 <= i < |d| ensures EmailChar(d[i]) {
        if k + 1 + i < j {
          assert d[i] == s[k + 1..j][i];
        } else if k + 1 + i > j {
          assert d[i] == s[j + 1..][k + i - j];
        }
      }
    }
    if EmailShape(s) {
      var k := CharIndex(s, '@');
      var d := s[k + 1..];
      var i :| 0 < i < |d| - 1 && d[i] == '.';
      var j := k + 1 + i;
      assert s[k + 1..j] == d[..i];
      assert s[j + 1..] == d[i + 1..];
      assert EmailSplit(s, k, j);
    }
  }

  /** With no `@` before index `k` and one at `k`, the first `@` is at `k`. */
  lemma EmailAt(s: string, k: nat)
    requires k < |s| && s[k] == '@' && EmailChars(s[..k])
    ensures CharIndex(s, '@') == k
  {
  }

  /** An accepted address holds exactly one `@`. */
  lemma EmailHasOneAt(s: string)
    requires EmailPattern(s)
    ensures multiset(s)['@'] == 1
  {
    var k, j :| 0 < k && k + 1 < j && j + 1 < |s| && EmailSplit(s, k, j);
    var a, b, c := s[..k], s[k + 1..j], s[j + 1..];
    CutAround(s, k, j);
    NoAt(a);
    NoAt(b);
    NoAt(c);
    OneAtBetween(a, b, c);
  }

  lemma OneAtBetween(a: string, b: string, c: string)
    requires multiset(a)['@'] == 0 && multiset(b)['@'] == 0 && multiset(c)['@'] == 0
    ensures multiset(a + ['@'] + b + ['.'] + c)['@'] == 1
  {
    assert multiset(a + ['@'] + b + ['.'] + c) == multiset(a) + multiset{'@'} + multiset(b) + multiset{'.'} + multiset(c);
  }

  /** The text is its three runs with the `@` and the `.` between them. */
  lemma CutAround(s: string, k: nat, j: nat)
    requires k < j < |s| && s[k] == '@' && s[j] == '.'
    ensures s == s[..k] + ['@'] + s[k + 1..j] + ['.'] + s[j + 1..]
  {
    assert s == s[..k] + [s[k]] + s[k + 1..j] + [s[j]] + s[j + 1..];
  }

  lemma {:induction false} NoAt(t: string)
    requires EmailChars(t)
    ensures multiset(t)['@'] == 0
  {
    if t != [] {
      assert EmailChar(t[0]);
      assert t == [t[0]] + t[1..];
      NoAt(t[1..]);
    }
  }

  /** The characters of `[!@#$%^&*()_+\-=\[\]{};':"\\|,.<>\/?]`. */
  const Specials := "!@#$%^&*()_+-=[]{};':\"\\|,.<>/?"

  predicate IsSpecial(c: char) {
    c in Specials
  }

  /** `(?=.*X)` at the start: a character of class `X` with no line terminator before it. */
  predicate Lookahead(p: string, x: char -> bool) {
    exists i :: 0 <= i < |p| && x(p[i]) && SingleLine(p[..i])
  }

  /** The password pattern: the three look-aheads, then `.{8,}` up to the end. */
  predicate PasswordPattern(p: string) {
    && Lookahead(p, IsAsciiLetter) && Lookahead(p, IsDigit) && Lookahead(p, IsSpecial)
    && |p| >= 8 && SingleLine(p)
  }

  /** Some character of `p` is in class `x`. */
  predicate Has(p: string, x: char -> bool) {
    exists i :: 0 <= i < |p| && x(p[i])
  }

  /**
   * The pattern says: at least 8 characters, none a line terminator, with
   * a letter, a digit and a special character among them.
   */
  lemma PasswordPatternIff(p: string)
    ensures PasswordPattern(p) <==>
      |p| >= 8 && SingleLine(p) && Has(p, IsAsciiLetter) && Has(p, IsDigit) && Has(p, IsSpecial)
  {
    if |p| >= 8 && SingleLine(p) {
      LookaheadOnOneLine(p, IsAsciiLetter);
      LookaheadOnOneLine(p, IsDigit);
      LookaheadOnOneLine(p, IsSpecial);
    }
  }

  /** On a single line a look-ahead only asks for the character. */
  lemma LookaheadOnOneLine(p: string, x: char -> bool)
    requires SingleLine(p)
    ensures Lookahead(p, x) <==> Has(p, x)
  {
    if Has(p, x) {
      var i :| 0 <= i < |p| && x(p[i]);
      assert SingleLine(p[..i]) by {
        forall k | 0 <= k < i ensures !IsLineTerminator(p[..i][k]) {
          assert p[..i][k] == p[k];
        }
      }
    }
  }

  // `regex.test` as the scans a matcher performs; each is proved to agree with the pattern.

  /** Every character of `t` is in class `x`. */
  predicate Every(t: string, x: char -> bool) {
    t == [] || (x(t[0]) && Every(t[1..], x))
  }

  /** Some character of `t` is in class `x`. */
  predicate Any(t: string, x: char -> bool) {
    t != [] && (x(t[0]) || Any(t[1..], x))
  }

  lemma {:induction false} EveryIff(t: string, x: char -> bool)
    ensures Every(t, x) <==> forall i :: 0 <= i < |t| ==> x(t[i])
  {
    if t != [] {
      EveryIff(t[1..], x);
      assert forall i :: 1 <= i < |t| ==> t[i] == t[1..][i - 1];
    }
  }

  lemma {:induction false} AnyIff(t: string, x: char -> bool)
    ensures Any(t, x) <==> Has(t, x)
  {
    if t != [] {
      AnyIff(t[1..], x);
      if Has(t, x) && !x(t[0]) {
        var i :| 0 <= i < |t| && x(t[i]);
        assert t[1..][i - 1] == t[i];
      }
      if Has(t[1..], x) {
        var i :| 0 <= i < |t[1..]| && x(t[1..][i]);
        assert t[i + 1] == t[1..][i];
      }
    }
  }

  predicate IsDot(c: char) {
    c == '.'
  }

  predicate OnLine(c: char) {
    !IsLineTerminator(c)
  }

  /** `emailRegex.test(s)`: find the first `@`, then check the two runs and the dot. */
  predicate EmailTest(s: string) {
    var k := CharIndex(s, '@');
    && 0 < k && k + 3 < |s|
    && Every(s[..k], EmailChar) && Every(s[k + 1..], EmailChar) && Any(s[k + 2..|s| - 1], IsDot)
  }

  /** The scan gives the pattern's answer on every text. */
  lemma EmailTestIff(s: string)
    ensures EmailTest(s) <==> EmailPattern(s)
  {
    EmailPatternIff(s);
    var k := CharIndex(s, '@');
    if 0 < k < |s| {
      var d := s[k + 1..];
      EveryIff(s[..k], EmailChar);
      EveryIff(d, EmailChar);
      if |d| >= 2 {
        var inner := s[k + 2..|s| - 1];
        AnyIff(inner, IsDot);
        if InnerDot(d) {
          var i :| 0 < i < |d| - 1 && d[i] == '.';
          assert inner[i - 1] == d[i];
        }
        if Has(inner, IsDot) {
          var i :| 0 <= i < |inner| && IsDot(inner[i]);
          assert d[i + 1] == inner[i];
        }
      }
    }
  }

  /** `passwordRegex.test(p)`: the length, no line break, and one character of each class. */
  predicate PasswordTest(p: string) {
    |p| >= 8 && Every(p, OnLine) && Any(p, IsAsciiLetter) && Any(p, IsDigit) && Any(p, IsSpecial)
  }

  /** The scan gives the pattern's answer on every password. */
  lemma PasswordTestIff(p: string)
    ensures PasswordTest(p) <==> PasswordPattern(p)
  {
    PasswordPatternIff(p);
    EveryIff(p, OnLine);
    AnyIff(p, IsAsciiLetter);
    AnyIff(p, IsDigit);
    AnyIff(p, IsSpecial);
  }

  const EmailRequired := "Email is required"
  const EmailInvalid := "Email is invalid"
  const PasswordRequired := "Password is required"

  /** The email check both forms make: an empty address first, then the pattern. */
  function EmailError(email: string): Option<string> {
    if email == "" then Some(EmailRequired)
    else if !EmailTest(email) then Some(EmailInvalid)
    else None
  }

  /** The address gets a message exactly when the pattern rejects it, and which one depends on emptiness. */
  lemma EmailErrorIff(email: string)
    ensures EmailError(email).Some? <==> !EmailPattern(email)
    ensures EmailError(email).Some? ==> EmailError(email).value == if email == "" then EmailRequired else EmailInvalid
  {
    EmailTestIff(email);
  }

  /** `m` with `key` set to the message, when there is one: `newErrors.key = message`. */
  function Put(m: map<string, string>, key: string, message: Option<string>): map<string, string> {
    if message.Some? then m[key := message.value] else m
  }

  /** What a request to the auth service came back with. */
  datatype Outcome =
    | Accepted(userId: string, jwtToken: string)   // 2xx with `data.data.userId` and `data.data.jwtToken`
    | Refused(message: Option<string>)             // an error response with a body; `message` as the body has it
    | Unreachable                                  // no response at all

  const UnableToConnect := "Unable to connect. Please try again."

  /** `err.response.data.message || fallback`: a missing or empty message gives the fallback. */
  function RefusalText(message: Option<string>, fallback: string): (r: string)
    ensures message.Some? && message.value != "" ==> r == message.value
    ensures message.None? || message.value == "" ==> r == fallback
  {
    if message.Some? && message.value != "" then message.value else fallback
  }
}
