/**
 * The contact form's e-mail pattern `^[^\s@]+@[^\s@]+\.[^\s@]+$` (script.js line 303).
 *
 * `EmailPattern` is the test the handler runs, stated by the position of the `@`:
 * a non-empty local part and a domain, neither holding `@` or whitespace, the
 * domain holding a `.` with at least one character on each side. `RegexLanguage`
 * is the language of the regular expression read piece by piece; the two agree.
 */
module EmailAddress {
  import opened Text

  /** The character class `[^\s@]`. */
  predicate Plain(c: char) {
    !IsWs(c) && c != '@'
  }

  predicate AllPlain(s: seq<char>) {
    forall i | 0 <= i < |s| :: Plain(s[i])
  }

  /** What may follow the `@`: `[^\s@]+\.[^\s@]+`, where the class itself admits further dots. */
  predicate DottedDomain(d: seq<char>) {
    AllPlain(d) && exists j | 0 < j < |d| - 1 :: d[j] == '.'
  }

  /** `s` is a local part, an `@` at index `i`, and a dotted domain. */
  predicate SplitsAt(s: seq<char>, i: int)
    requires 0 <= i < |s|
  {
    s[i] == '@' && AllPlain(s[..i]) && DottedDomain(s[i + 1..])
  }

  /** `emailRegex.test(s)`. */
  predicate EmailPattern(s: seq<char>)
    ensures EmailPattern(s) ==> |s| >= 5
  {
    exists i | 0 < i < |s| :: SplitsAt(s, i)
  }

  /** The strings the regular expression denotes: one or more class characters, `@`, one or more, `.`, one or more. */
  ghost predicate RegexLanguage(s: seq<char>) {
    exists a, b, c | |a| > 0 && |b| > 0 && |c| > 0 && AllPlain(a) && AllPlain(b) && AllPlain(c) ::
      s == a + "@" + b + "." + c
  }

  lemma AllPlainSplit(a: seq<char>, b: seq<char>)
    ensures AllPlain(a + b) <==> AllPlain(a) && AllPlain(b)
  {
    if AllPlain(a) && AllPlain(b) {
      forall i | 0 <= i < |a + b| ensures Plain((a + b)[i]) {
        if i >= |a| { assert (a + b)[i] == b[i - |a|]; }
      }
    }
    if AllPlain(a + b) {
      forall i | 0 <= i < |a| ensures Plain(a[i]) {
        assert a[i] == (a + b)[i];
      }
      forall i | 0 <= i < |b| ensures Plain(b[i]) {
        assert b[i] == (a + b)[|a| + i];
      }
    }
  }

  /** Every address the handler's test accepts is in the language of the regular expression. */
  lemma PatternInRegex(s: seq<char>)
    requires EmailPattern(s)
    ensures RegexLanguage(s)
  {
    var i :| 0 < i < |s| && SplitsAt(s, i);
    var d := s[i + 1..];
    var j :| 0 < j < |d| - 1 && d[j] == '.';
    var a, b, c := s[..i], d[..j], d[j + 1..];
    assert d == b + "." + c;
    AllPlainSplit(b, "." + c);
    AllPlainSplit(".", c);
    assert s == a + "@" + b + "." + c;
  }

  /** An address built the way the regular expression reads passes the handler's test. */
  lemma {:induction false} ConcatenationMatches(a: seq<char>, b: seq<char>, c: seq<char>)
    requires |a| > 0 && |b| > 0 && |c| > 0 && AllPlain(a) && AllPlain(b) && AllPlain(c)
    ensures EmailPattern(a + "@" + b + "." + c)
  {
    var d := b + "." + c;
    var s := a + "@" + b + "." + c;
    assert s == a + ("@" + d);
    var i := |a|;
    assert s[i] == '@';
    assert s[..i] == a;
    assert s[i + 1..] == d;
    assert d[|b|] == '.';
    AllPlainSplit(b, "." + c);
    AllPlainSplit(".", c);
    assert d == b + ("." + c);
    assert DottedDomain(d);
    assert SplitsAt(s, i);
  }

  /** Every string in the language of the regular expression passes the handler's test. */
  lemma RegexInPattern(s: seq<char>)
    requires RegexLanguage(s)
    ensures EmailPattern(s)
  {
    var a, b, c :| |a| > 0 && |b| > 0 && |c| > 0 && AllPlain(a) && AllPlain(b) && AllPlain(c)
      && s == a + "@" + b + "." + c;
    ConcatenationMatches(a, b, c);
  }

  /** The handler's test accepts exactly the language of the regular expression. */
  lemma EmailPatternIsRegex(s: seq<char>)
    ensures EmailPattern(s) <==> RegexLanguage(s)
  {
    if EmailPattern(s) { PatternInRegex(s); }
    if RegexLanguage(s) { RegexInPattern(s); }
  }

  /** A matching address holds no whitespace at all, so trimming leaves it unchanged. */
  lemma {:induction false} EmailPatternHasNoWs(s: seq<char>)
    requires EmailPattern(s)
    ensures forall k | 0 <= k < |s| :: !IsWs(s[k])
    ensures Trim(s) == s
  {
    var i :| 0 < i < |s| && SplitsAt(s, i);
    forall k | 0 <= k < |s| ensures !IsWs(s[k]) {
      if k < i { assert s[k] == s[..i][k]; }
      else if k > i { assert s[k] == s[i + 1..][k - i - 1]; }
    }
    TrimOfTight(s);
  }

  /** A matching address holds exactly one `@`. */
  lemma {:induction false} EmailPatternSingleAt(s: seq<char>, k: int)
    requires EmailPattern(s)
    requires 0 <= k < |s| && s[k] == '@'
    ensures 0 < k < |s| - 3
    ensures AllPlain(s[..k]) && DottedDomain(s[k + 1..])
  {
    var i :| 0 < i < |s| && SplitsAt(s, i);
  }

  /** `"a@b.com"` matches. */
  lemma AcceptsPlainAddress()
    ensures EmailPattern("a@b.com")
  {
    var s := "a@b.com";
    assert s[..1] == "a";
    assert s[2..] == "b.com" && s[2..][1] == '.';
    assert SplitsAt(s, 1);
  }

  /** `"a@b"` does not: its domain has no dot. */
  lemma RejectsMissingDot()
    ensures !EmailPattern("a@b")
  {
  }

  /** An address with whitespace at either end never matches: the pattern is anchored and its class excludes whitespace. */
  lemma {:induction false} PaddedNeverMatches(s: seq<char>)
    requires |s| > 0 && (IsWs(s[0]) || IsWs(s[|s| - 1]))
    ensures !EmailPattern(s)
  {
    if EmailPattern(s) {
      EmailPatternHasNoWs(s);
    }
  }

  /** `" a@b.com "` does not match. */
  lemma RejectsPaddedAddress()
    ensures !EmailPattern(" a@b.com ")
  {
    PaddedNeverMatches(" a@b.com ");
  }
}
