/**
 * The text of the contact form's thank-you notice (script.js line 369).
 *
 * The notice is meant to open with a check mark, U+2713. The script's text holds
 * instead the three characters that the check mark's UTF-8 bytes E2 9C 93 stand
 * for in Windows-1252, so the page shows those three characters where the check
 * mark was meant. `Misread` is that mistake, and `ThankYouMisencoded` shows that
 * it turns the intended notice into the one written in the script.
 */
module Notice {

  /** What follows the check mark. */
  const Message: string := " Thank you! I'll get back to you soon."

  /** The notice as intended, which the rest of the model shows. */
  const ThankYou: string := "\U{2713}" + Message

  /** The notice as the script writes it. */
  const ThankYouAsWritten: string := "\U{00E2}\U{0153}\U{201C}" + Message

  /** The UTF-8 encoding of one character: one byte for ASCII, up to four otherwise, and the bytes give the code point back. */
  function Utf8(c: char): (bytes: seq<int>)
    ensures 1 <= |bytes| <= 4
    ensures forall i | 0 <= i < |bytes| :: 0 <= bytes[i] < 256
    ensures |bytes| == 1 <==> c as int < 0x80
    ensures |bytes| == 1 ==> bytes[0] == c as int
    ensures |bytes| == 3 ==> 0xE0 <= bytes[0] < 0xF0 && (bytes[0] - 0xE0) * 4096 + (bytes[1] - 0x80) * 64 + (bytes[2] - 0x80) == c as int
  {
    var n := c as int;
    if n < 0x80 then [n]
    else if n < 0x800 then [0xC0 + n / 64, 0x80 + n % 64]
    else if n < 0x10000 then
      SixBitGroups(n);
      [0xE0 + n / 4096, 0x80 + (n / 64) % 64, 0x80 + n % 64]
    else [0xF0 + n / 262144, 0x80 + (n / 4096) % 64, 0x80 + (n / 64) % 64, 0x80 + n % 64]
  }

  /** A number below 2^16 is its three groups of six bits, high to low. */
  lemma SixBitGroups(n: int)
    requires 0 <= n < 0x10000
    ensures 0 <= n / 4096 < 16
    ensures (n / 4096) * 4096 + ((n / 64) % 64) * 64 + n % 64 == n
  {
    var q := n / 64;
    assert n == q * 64 + n % 64;
    assert q == (q / 64) * 64 + q % 64;
    assert q / 64 == n / 4096;
  }

  /** The character a byte stands for in Windows-1252, with the five unassigned bytes read as the C1 controls of the same value. */
  function Windows1252(b: int): (c: char)
    requires 0 <= b < 256
    ensures b < 0x80 || 0xA0 <= b ==> c as int == b
  {
    if b < 0x80 || 0xA0 <= b then b as char
    else
      var table := [
        '\U{20AC}', '\U{0081}', '\U{201A}', '\U{0192}', '\U{201E}', '\U{2026}', '\U{2020}', '\U{2021}',
        '\U{02C6}', '\U{2030}', '\U{0160}', '\U{2039}', '\U{0152}', '\U{008D}', '\U{017D}', '\U{008F}',
        '\U{0090}', '\U{2018}', '\U{2019}', '\U{201C}', '\U{201D}', '\U{2022}', '\U{2013}', '\U{2014}',
        '\U{02DC}', '\U{2122}', '\U{0161}', '\U{203A}', '\U{0153}', '\U{009D}', '\U{017E}', '\U{0178}'];
      table[b - 0x80]
  }

  function Windows1252Text(bytes: seq<int>): (s: string)
    requires forall i | 0 <= i < |bytes| :: 0 <= bytes[i] < 256
    ensures |s| == |bytes|
  {
    if bytes == [] then [] else [Windows1252(bytes[0])] + Windows1252Text(bytes[1..])
  }

  /** Every character is ASCII, so UTF-8 encodes it as one byte of the same value. */
  predicate Ascii(s: string) {
    forall i | 0 <= i < |s| :: s[i] as int < 0x80
  }

  /**
   * Text saved as UTF-8 and read back as Windows-1252: ASCII text is unchanged,
   * and the result is never shorter.
   */
  function Misread(s: string): (r: string)
    ensures |r| >= |s|
    ensures Ascii(s) ==> r == s
  {
    if s == [] then [] else Windows1252Text(Utf8(s[0])) + Misread(s[1..])
  }

  /** A check mark followed by ASCII text is misread as three characters followed by the same text. */
  lemma {:induction false} CheckMarkMisread(m: string)
    requires Ascii(m)
    ensures Misread("\U{2713}" + m) == "\U{00E2}\U{0153}\U{201C}" + m
  {
    var s := "\U{2713}" + m;
    assert s[0] == '\U{2713}' && s[1..] == m;
    assert Utf8('\U{2713}') == [0xE2, 0x9C, 0x93];
    assert Windows1252Text([0xE2, 0x9C, 0x93]) == ['\U{00E2}', '\U{0153}', '\U{201C}'];
  }

  lemma MessageIsAscii()
    ensures Ascii(Message)
  {
  }

  /** The notice in the script is the intended one misread. */
  lemma ThankYouMisencoded()
    ensures Misread(ThankYou) == ThankYouAsWritten
  {
    MessageIsAscii();
    CheckMarkMisread(Message);
  }

  /** The two differ from the first character on: the script's notice does not open with the check mark. */
  lemma ThankYouAsWrittenDiffers()
    ensures ThankYouAsWritten != ThankYou && ThankYouAsWritten[0] != ThankYou[0]
  {
    assert ThankYouAsWritten[0] == '\U{00E2}' && ThankYou[0] == '\U{2713}';
  }
}
