/**
 * Python 2 `urllib.quote(s)` with its default `safe='/'`, applied to a `unicode`
 * string: every character outside `A-Za-z0-9_.-/` becomes `%XX` with upper-case
 * hex digits (section 2.1 of RFC 3986). `~` is encoded too. Python 2 looks each
 * character up in a table of the 256 byte values, so a character at or above
 * U+0080 is not found and the call raises `KeyError`.
 */
module PercentEncoding {
  import opened Wrappers

  /** The characters `quote` passes through: `always_safe` plus the default `safe='/'`. */
  predicate IsSafe(c: char) {
    || ('A' <= c <= 'Z')
    || ('a' <= c <= 'z')
    || ('0' <= c <= '9')
    || c == '_' || c == '.' || c == '-' || c == '/'
  }

  predicate IsAsciiChar(c: char) {
    c < '\U{80}'
  }

  predicate IsAscii(s: string) {
    forall i | 0 <= i < |s| :: IsAsciiChar(s[i])
  }

  predicate IsHexDigit(c: char) {
    ('0' <= c <= '9') || ('A' <= c <= 'F') || ('a' <= c <= 'f')
  }

  function HexValue(c: char): (n: nat)
    requires IsHexDigit(c)
    ensures n < 16
  {
    if '0' <= c <= '9' then c as int - '0' as int
    else if 'A' <= c <= 'F' then c as int - 'A' as int + 10
    else c as int - 'a' as int + 10
  }

  /** The upper-case hex digit for `n`. */
  function HexDigit(n: nat): (c: char)
    requires n < 16
    ensures IsHexDigit(c) && HexValue(c) == n
    ensures '0' <= c <= '9' || 'A' <= c <= 'F'
  {
    if n < 10 then ('0' as int + n) as char else ('A' as int + n - 10) as char
  }

  /** One character of `quote`'s output table. */
  function QuoteChar(c: char): (r: string)
    requires IsAsciiChar(c)
  {
    if IsSafe(c) then [c]
    else ['%', HexDigit(c as int / 16), HexDigit(c as int % 16)]
  }

  /** `quote` on a string it can encode. */
  function QuoteAscii(s: string): (r: string)
    requires IsAscii(s)
    ensures |r| >= |s|
    ensures IsAscii(r)
  {
    if s == [] then [] else QuoteChar(s[0]) + QuoteAscii(s[1..])
  }

  /** `urllib.quote(s)`: the encoding, or `None` where Python 2 raises `KeyError`. */
  function Quote(s: string): (r: Option<string>)
    ensures r.Some? <==> IsAscii(s)
  {
    if IsAscii(s) then Some(QuoteAscii(s)) else None
  }

  /** `urllib.unquote`: every `%` followed by two hex digits stands for the character with that code. */
  function Unquote(t: string): (r: string)
    ensures |r| <= |t|
  {
    if t == [] then []
    else if |t| >= 3 && t[0] == '%' && IsHexDigit(t[1]) && IsHexDigit(t[2]) then
      [(16 * HexValue(t[1]) + HexValue(t[2])) as char] + Unquote(t[3..])
    else
      [t[0]] + Unquote(t[1..])
  }

  lemma UnquoteQuoteChar(c: char, rest: string)
    requires IsAsciiChar(c)
    ensures Unquote(QuoteChar(c) + rest) == [c] + Unquote(rest)
  {
    var t := QuoteChar(c) + rest;
    if IsSafe(c) {
      assert t[0] == c && t[1..] == rest;
    } else {
      assert t[0] == '%' && t[1] == HexDigit(c as int / 16) && t[2] == HexDigit(c as int % 16);
      assert t[3..] == rest;
    }
  }

  /** Unquoting undoes quoting: the encoding loses nothing. */
  lemma {:induction false} UnquoteQuote(s: string)
    requires IsAscii(s)
    ensures Unquote(QuoteAscii(s)) == s
  {
    if s != [] {
      UnquoteQuoteChar(s[0], QuoteAscii(s[1..]));
      UnquoteQuote(s[1..]);
      assert [s[0]] + s[1..] == s;
    }
  }

  /** Every character of the output is safe, `%`, or an upper-case hex digit. */
  lemma {:induction false} QuoteAlphabet(s: string)
    requires IsAscii(s)
    ensures forall i | 0 <= i < |QuoteAscii(s)| ::
      IsSafe(QuoteAscii(s)[i]) || QuoteAscii(s)[i] == '%'
  {
    if s != [] {
      QuoteAlphabet(s[1..]);
      var head := QuoteChar(s[0]);
      assert QuoteAscii(s) == head + QuoteAscii(s[1..]);
      forall i | 0 <= i < |QuoteAscii(s)|
        ensures IsSafe(QuoteAscii(s)[i]) || QuoteAscii(s)[i] == '%'
      {
        if i >= |head| {
          assert QuoteAscii(s)[i] == QuoteAscii(s[1..])[i - |head|];
        }
      }
    }
  }

  /** A string of safe characters is its own encoding. */
  lemma {:induction false} QuoteSafeIsIdentity(s: string)
    requires forall i | 0 <= i < |s| :: IsSafe(s[i])
    ensures IsAscii(s) && QuoteAscii(s) == s
  {
    if s != [] {
      QuoteSafeIsIdentity(s[1..]);
      assert [s[0]] + s[1..] == s;
    }
  }

  /** `~` is not in Python 2's safe set, and a non-ASCII character makes `quote` raise. */
  lemma QuoteExamples()
    ensures Quote("a b~/") == Some("a%20b%7E/")
    ensures Quote("café") == None
  {
    assert !IsAsciiChar("café"[3]);
    assert QuoteAscii("/") == "/";
    assert QuoteAscii("~/") == "%7E/";
    assert QuoteAscii("b~/") == "b%7E/";
    assert QuoteAscii(" b~/") == "%20b%7E/";
    assert QuoteAscii("a b~/") == "a%20b%7E/";
  }
}
