/**
 * Python 2's `repr` of a byte string, which is also the text of
 * `str(KeyError(key))`. A Python 2 `str` holds bytes, so only characters
 * below U+0100 stand for values the program can hold.
 *
 * `repr` quotes with `'` unless the string contains `'` and no `"`, in
 * which case it quotes with `"`. It writes a backslash before the chosen
 * quote and before a backslash, writes tab, newline and carriage return as
 * `\t`, `\n` and `\r`, writes every other byte below 0x20 or from 0x7f on
 * as `\x` and two lower-case hex digits, and keeps all other characters.
 */
module PyText {

  /** A lower-case hex digit. */
  function HexDigit(d: int): char
    requires 0 <= d < 16
  {
    if d < 10 then ('0' as int + d) as char else ('a' as int + d - 10) as char
  }

  function HexValue(c: char): int {
    if '0' <= c <= '9' then c as int - '0' as int else c as int - 'a' as int + 10
  }

  predicate IsByte(c: char) {
    c as int < 256
  }

  /** The quote `repr` puts around `s`. */
  function ReprQuote(s: string): char {
    if '\'' in s && '"' !in s then '"' else '\''
  }

  function EscapeChar(c: char, quote: char): string {
    if c == quote || c == '\\' then ['\\', c]
    else if c == '\t' then "\\t"
    else if c == '\n' then "\\n"
    else if c == '\r' then "\\r"
    else if c < ' ' || c as int >= 0x7f then ['\\', 'x', HexDigit(c as int % 256 / 16), HexDigit(c as int % 16)]
    else [c]
  }

  function Escape(s: string, quote: char): string
    decreases |s|
  {
    if s == [] then [] else EscapeChar(s[0], quote) + Escape(s[1..], quote)
  }

  /** `repr(s)`. */
  function Repr(s: string): (r: string)
    ensures |r| >= 2 && r[0] == ReprQuote(s) && r[|r| - 1] == ReprQuote(s)
  {
    var quote := ReprQuote(s);
    [quote] + Escape(s, quote) + [quote]
  }

  /** Reads the escapes `repr` writes back into the characters they stand for. */
  function Unescape(t: string): string
    decreases |t|
  {
    if t == [] then []
    else if t[0] == '\\' && |t| >= 2 then
      if t[1] == 't' then ['\t'] + Unescape(t[2..])
      else if t[1] == 'n' then ['\n'] + Unescape(t[2..])
      else if t[1] == 'r' then ['\r'] + Unescape(t[2..])
      else if t[1] == 'x' && |t| >= 4 && 0 <= 16 * HexValue(t[2]) + HexValue(t[3]) < 256 then
        [(16 * HexValue(t[2]) + HexValue(t[3])) as char] + Unescape(t[4..])
      else [t[1]] + Unescape(t[2..])
    else [t[0]] + Unescape(t[1..])
  }

  /** The string a `repr` text denotes: its escapes read back, between the quotes. */
  function Unrepr(r: string): string
    requires |r| >= 2
  {
    Unescape(r[1..|r| - 1])
  }

  lemma HexRoundTrip(n: int)
    requires 0 <= n < 256
    ensures 16 * HexValue(HexDigit(n / 16)) + HexValue(HexDigit(n % 16)) == n
  {
    assert HexValue(HexDigit(n / 16)) == n / 16;
    assert HexValue(HexDigit(n % 16)) == n % 16;
  }

  /** `\x` and the two hex digits of a byte read back as that byte. */
  lemma UnescapeHex(c: char, rest: string)
    requires IsByte(c)
    ensures Unescape(['\\', 'x', HexDigit(c as int % 256 / 16), HexDigit(c as int % 16)] + rest) == [c] + Unescape(rest)
  {
    var t := ['\\', 'x', HexDigit(c as int % 256 / 16), HexDigit(c as int % 16)] + rest;
    HexRoundTrip(c as int);
    assert t[2] == HexDigit(c as int / 16) && t[3] == HexDigit(c as int % 16);
    assert t[4..] == rest;
  }

  lemma UnescapeChar(c: char, quote: char, rest: string)
    requires IsByte(c) && (quote == '\'' || quote == '"')
    ensures Unescape(EscapeChar(c, quote) + rest) == [c] + Unescape(rest)
  {
    var e := EscapeChar(c, quote);
    if c == quote || c == '\\' || c == '\t' || c == '\n' || c == '\r' {
      assert (e + rest)[2..] == rest;
    } else if c < ' ' || c as int >= 0x7f {
      UnescapeHex(c, rest);
    } else {
      assert (e + rest)[1..] == rest;
    }
  }

  lemma {:induction false} UnescapeEscape(s: string, quote: char)
    requires forall k :: 0 <= k < |s| ==> IsByte(s[k])
    requires quote == '\'' || quote == '"'
    ensures Unescape(Escape(s, quote)) == s
    decreases |s|
  {
    if s != [] {
      UnescapeEscape(s[1..], quote);
      UnescapeChar(s[0], quote, Escape(s[1..], quote));
    }
  }

  /** `repr` loses nothing: the string comes back from its text. */
  lemma ReprRoundTrip(s: string)
    requires forall k :: 0 <= k < |s| ==> IsByte(s[k])
    ensures Unrepr(Repr(s)) == s
  {
    var quote := ReprQuote(s);
    var r := Repr(s);
    assert r[1..|r| - 1] == Escape(s, quote);
    UnescapeEscape(s, quote);
  }

  /** A character `repr` keeps as it is inside single quotes. */
  predicate Plain(c: char) {
    ' ' <= c && c as int < 0x7f && c != '\'' && c != '\\'
  }

  lemma {:induction false} EscapePlain(s: string)
    requires forall k :: 0 <= k < |s| ==> Plain(s[k])
    ensures Escape(s, '\'') == s
    decreases |s|
  {
    if s != [] {
      EscapePlain(s[1..]);
    }
  }

  /** A string of printable characters without `'` or `\` is shown between single quotes as it is. */
  lemma ReprPlain(s: string)
    requires forall k :: 0 <= k < |s| ==> Plain(s[k])
    ensures Repr(s) == "'" + s + "'"
  {
    assert '\'' !in s by {
      forall k | 0 <= k < |s| ensures s[k] != '\'' { }
    }
    EscapePlain(s);
  }
}
