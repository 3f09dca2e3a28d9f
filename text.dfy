/**
 * Whitespace and trimming as the page script uses them: `String.prototype.trim`
 * for the emptiness tests of the contact form, and the `\s` class of the e-mail
 * pattern. In ECMAScript both are defined by the same set of code points
 * (WhiteSpace and LineTerminator), so one predicate serves both.
 */
module Text {

  /** ECMAScript WhiteSpace (TAB, VT, FF, SP, NBSP, ZWNBSP, category Zs) and LineTerminator (LF, CR, LS, PS). */
  predicate IsWs(c: char)
    ensures IsWs(c) ==> c != '@' && c != '.'
  {
    || c == '\t' || c == '\n' || c == '\U{000B}' || c == '\U{000C}' || c == '\r' || c == ' '
    || c == '\U{00A0}' || c == '\U{1680}' || ('\U{2000}' <= c <= '\U{200A}')
    || c == '\U{2028}' || c == '\U{2029}' || c == '\U{202F}' || c == '\U{205F}'
    || c == '\U{3000}' || c == '\U{FEFF}'
  }

  predicate AllWs(s: seq<char>) {
    forall i | 0 <= i < |s| :: IsWs(s[i])
  }

  /** A string that `trim` leaves alone: empty, or with a non-blank first and last character. */
  predicate Tight(s: seq<char>) {
    s == [] || (!IsWs(s[0]) && !IsWs(s[|s| - 1]))
  }

  /** Drops the leading whitespace: what is left is empty only when `s` is all blank, and otherwise starts at a non-blank character of `s`. */
  function TrimStart(s: seq<char>): (r: seq<char>)
    ensures |r| <= |s|
    ensures r == [] ==> AllWs(s)
    ensures r != [] ==> r[0] == s[|s| - |r|] && !IsWs(r[0])
  {
    if |s| > 0 && IsWs(s[0]) then TrimStart(s[1..]) else s
  }

  /** Drops the trailing whitespace: what is left is empty only when `s` is all blank, and otherwise is a prefix of `s` ending at a non-blank character. */
  function TrimEnd(s: seq<char>): (r: seq<char>)
    ensures |r| <= |s|
    ensures r == [] ==> AllWs(s)
    ensures r != [] ==> r[0] == s[0] && !IsWs(r[|r| - 1])
  {
    if |s| > 0 && IsWs(s[|s| - 1]) then TrimEnd(s[..|s| - 1]) else s
  }

  /** `String.prototype.trim`: it is empty exactly when every character of `s` is whitespace. */
  function Trim(s: seq<char>): (r: seq<char>)
    ensures |r| <= |s|
    ensures Tight(r)
    ensures r == [] <==> AllWs(s)
  {
    TrimEnd(TrimStart(s))
  }

  /** TrimStart skips a blank prefix and stops at the first non-blank character. */
  lemma {:induction false} TrimStartSkips(a: seq<char>, m: seq<char>)
    requires AllWs(a)
    requires m == [] || !IsWs(m[0])
    ensures TrimStart(a + m) == m
    decreases |a|
  {
    if a == [] {
      assert a + m == m;
    } else {
      assert (a + m)[0] == a[0];
      assert (a + m)[1..] == a[1..] + m;
      TrimStartSkips(a[1..], m);
    }
  }

  /** TrimEnd skips a blank suffix and stops at the last non-blank character. */
  lemma {:induction false} TrimEndSkips(m: seq<char>, b: seq<char>)
    requires AllWs(b)
    requires m == [] || !IsWs(m[|m| - 1])
    ensures TrimEnd(m + b) == m
    decreases |b|
  {
    if b == [] {
      assert m + b == m;
    } else {
      var n := |m + b|;
      assert (m + b)[n - 1] == b[|b| - 1];
      assert (m + b)[..n - 1] == m + b[..|b| - 1];
      TrimEndSkips(m, b[..|b| - 1]);
    }
  }

  /**
   * The reference characterisation of `trim`: whenever `s` is a blank prefix, a tight
   * middle and a blank suffix, the middle is what `Trim` returns.
   */
  lemma {:induction false} TrimOfPadded(a: seq<char>, m: seq<char>, b: seq<char>)
    requires AllWs(a) && AllWs(b) && Tight(m)
    ensures Trim(a + m + b) == m
  {
    if m == [] {
      assert a + m + b == a + b;
      assert AllWs(a + b) by {
        forall i | 0 <= i < |a + b| ensures IsWs((a + b)[i]) {
          if i >= |a| { assert (a + b)[i] == b[i - |a|]; }
        }
      }
    } else {
      assert a + m + b == a + (m + b);
      assert (m + b)[0] == m[0];
      TrimStartSkips(a, m + b);
      TrimEndSkips(m, b);
    }
  }

  /** Trimming twice is trimming once. */
  lemma TrimIdempotent(s: seq<char>)
    ensures Trim(Trim(s)) == Trim(s)
  {
    var t := Trim(s);
    assert [] + t + [] == t;
    TrimOfPadded([], t, []);
  }

  /** A string that is empty or starts and ends with a non-blank character is its own trim. */
  lemma TrimOfTight(s: seq<char>)
    requires Tight(s)
    ensures Trim(s) == s
  {
    assert [] + s + [] == s;
    TrimOfPadded([], s, []);
  }
}
