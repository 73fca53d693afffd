/**
 * JSON strings as text (section 7 of RFC 8259): the writer that the prologue and the refusal message
 * use (src/noise.rs, src/errors.rs), and a reader of every escape the grammar allows.
 */
module JsonText {
  import opened Wrappers

  // ---------------------------------------------------------------------------------------------
  // Writing
  // ---------------------------------------------------------------------------------------------

  function HexDigit(d: nat): char
    requires d < 16
  {
    if d < 10 then ('0' as int + d) as char else ('a' as int + d - 10) as char
  }

  /** Exactly the quote, the backslash and the control characters below 0x20 are escaped. */
  function EscapeChar(c: char): string
  {
    if c == '"' then "\\\""
    else if c == '\\' then "\\\\"
    else if c as int == 8 then "\\b"
    else if c as int == 12 then "\\f"
    else if c == '\n' then "\\n"
    else if c == '\r' then "\\r"
    else if c == '\t' then "\\t"
    else if c as int < 32 then "\\u00" + [HexDigit(c as int / 16), HexDigit(c as int % 16)]
    else [c]
  }

  function Escape(s: string): string
  {
    if s == [] then [] else EscapeChar(s[0]) + Escape(s[1..])
  }

  function Quote(s: string): string
  {
    "\"" + Escape(s) + "\""
  }

  lemma {:induction false} EscapeAppends(s: string, c: char)
    ensures Escape(s + [c]) == Escape(s) + EscapeChar(c)
  {
    if s != [] {
      EscapeAppends(s[1..], c);
      assert (s + [c])[1..] == s[1..] + [c];
    }
  }

  lemma {:induction false} EscapeInParts(s: string, t: string)
    ensures Escape(s + t) == Escape(s) + Escape(t)
  {
    hide EscapeChar;
    if s == [] {
      assert s + t == t;
    } else {
      EscapeInParts(s[1..], t);
      assert (s + t)[1..] == s[1..] + t;
      assert Escape(s + t) == EscapeChar(s[0]) + (Escape(s[1..]) + Escape(t));
    }
  }

  ghost predicate NeedsEscape(c: char)
  {
    c == '\"' || c == '\\' || c as int < 0x20
  }

  /** Text without a quote, a backslash and a control character is written as it is. */
  lemma {:induction false} PlainTextIsWrittenAsItIs(s: string)
    requires forall c <- s :: !NeedsEscape(c)
    ensures Quote(s) == ['\"'] + s + ['\"']
  {
    PlainTextEscapesNothing(s);
  }

  lemma {:induction false} PlainTextEscapesNothing(s: string)
    requires forall c <- s :: !NeedsEscape(c)
    ensures Escape(s) == s
  {
    if s != [] {
      assert s[0] in s;
      PlainTextEscapesNothing(s[1..]);
    }
  }

  /** Each other character is written for itself: the short form that there is, else four lower-case digits. */
  lemma SpecialsAreWrittenSo(s: string, c: char, t: string)
    requires NeedsEscape(c)
    ensures Escape(s + [c] + t) == Escape(s) + (['\\'] + Escaped(c)) + Escape(t)
  {
    hide Escape, Escaped, NeedsEscape;
    EscapeInParts(s + [c], t);
    EscapeInParts(s, [c]);
    OneSpecial(c);
  }

  /** What follows the backslash. */
  function Escaped(c: char): string
  {
    if c == '\"' || c == '\\' then [c]
    else if c as int in {8, 9, 10, 12, 13} then [map[8 := 'b', 9 := 't', 10 := 'n', 12 := 'f', 13 := 'r'][c as int]]
    else if c as int < 0x20 then "u00" + ["01"[c as int / 16], "0123456789abcdef"[c as int % 16]]
    else [c]
  }

  lemma OneSpecial(c: char)
    requires NeedsEscape(c)
    ensures Escape([c]) == ['\\'] + Escaped(c)
  {
    assert Escape([c]) == EscapeChar(c) + Escape([]);
  }

  method WriteString(out: string, value: string) returns (written: string)
    ensures written == out + Quote(value)
  {
    hide EscapeChar;
    written := out + "\"";
    for i := 0 to |value|
      invariant written == out + "\"" + Escape(value[..i])
    {
      EscapeAppends(value[..i], value[i]);
      assert value[..i + 1] == value[..i] + [value[i]];
      written := written + EscapeChar(value[i]);
    }
    assert value[..|value|] == value;
    written := written + "\"";
  }

  // ---------------------------------------------------------------------------------------------
  // Reading
  // ---------------------------------------------------------------------------------------------

  function HexValue(c: char): Option<nat>
  {
    if '0' <= c <= '9' then Some(c as int - '0' as int)
    else if 'a' <= c <= 'f' then Some(c as int - 'a' as int + 10)
    else if 'A' <= c <= 'F' then Some(c as int - 'A' as int + 10)
    else None
  }

  /** Four hexadecimal digits. */
  function ReadQuad(t: string): (r: Option<nat>)
    ensures r.Some? ==> |t| >= 4 && r.value < 0x1_0000
  {
    if |t| < 4 then None
    else
      match (HexValue(t[0]), HexValue(t[1]), HexValue(t[2]), HexValue(t[3]))
      case (Some(a), Some(b), Some(c), Some(d)) =>
        assert a < 16 && b < 16 && c < 16 && d < 16;
        Some(a * 4096 + b * 256 + c * 16 + d)
      case _ => None
  }

  /** What follows `\u`: one code unit, or the two of a surrogate pair. */
  function ReadUnicode(t: string): (r: Option<(char, string)>)
    ensures r.Some? ==> |r.value.1| < |t|
  {
    match ReadQuad(t)
    case None => None
    case Some(unit) =>
      if unit < 0xD800 || 0xE000 <= unit then Some((unit as char, t[4..]))
      else if unit < 0xDC00 && |t| >= 6 && t[4] == '\\' && t[5] == 'u' then
        match ReadQuad(t[6..])
        case None => None
        case Some(low) =>
          if 0xDC00 <= low < 0xE000 then
            Some((((unit - 0xD800) * 0x400 + (low - 0xDC00) + 0x1_0000) as char, t[10..]))
          else None
      else None
  }

  /** What follows a backslash. */
  function ReadEscape(t: string): (r: Option<(char, string)>)
    ensures r.Some? ==> |r.value.1| < |t|
  {
    if t == [] then None
    else if t[0] in "\"\\/" then Some((t[0], t[1..]))
    else if t[0] == 'b' then Some((8 as char, t[1..]))
    else if t[0] == 'f' then Some((12 as char, t[1..]))
    else if t[0] == 'n' then Some(('\n', t[1..]))
    else if t[0] == 'r' then Some(('\r', t[1..]))
    else if t[0] == 't' then Some(('\t', t[1..]))
    else if t[0] == 'u' then ReadUnicode(t[1..])
    else None
  }

  /** What follows the opening quote: the text up to the closing one, and what is left. */
  function ReadBody(t: string): (r: Option<(string, string)>)
    ensures r.Some? ==> |r.value.1| < |t|
    decreases |t|
  {
    if t == [] then None
    else if t[0] == '"' then Some(([], t[1..]))
    else if t[0] == '\\' then
      match ReadEscape(t[1..])
      case None => None
      case Some((c, rest)) => Prepend(c, ReadBody(rest))
    else if t[0] as int < 32 then None
    else Prepend(t[0], ReadBody(t[1..]))
  }

  function Prepend(c: char, r: Option<(string, string)>): Option<(string, string)>
  {
    match r
    case None => None
    case Some((text, rest)) => Some(([c] + text, rest))
  }

  function ReadString(t: string): (r: Option<(string, string)>)
    ensures r.Some? ==> |r.value.1| < |t|
  {
    if t != [] && t[0] == '"' then ReadBody(t[1..]) else None
  }

  // ---------------------------------------------------------------------------------------------
  // Reading undoes writing
  // ---------------------------------------------------------------------------------------------

  lemma HexDigitReads(d: nat)
    requires d < 16
    ensures HexValue(HexDigit(d)) == Some(d)
  {
  }

  lemma ReadsOneChar(c: char, t: string)
    ensures ReadBody(EscapeChar(c) + t) == Prepend(c, ReadBody(t))
  {
    var e := EscapeChar(c);
    if |e| == 6 {
      var n := c as int;
      HexDigitReads(n / 16);
      HexDigitReads(n % 16);
      HexDigitReads(0);
      assert (e + t)[1..] == e[1..] + t;
      assert (e[1..] + t)[1..] == e[2..] + t;
      assert ReadQuad(e[2..] + t) == Some(n);
      assert (e[2..] + t)[4..] == t;
    } else if |e| == 2 {
      assert (e + t)[1..] == e[1..] + t;
      assert (e[1..] + t)[1..] == t;
    } else {
      assert (e + t)[1..] == t;
    }
  }

  lemma {:induction false} ReadsEscaped(s: string, rest: string)
    ensures ReadBody(Escape(s) + "\"" + rest) == Some((s, rest))
  {
    hide EscapeChar;
    if s == [] {
      assert Escape(s) + "\"" + rest == ['"'] + rest && (['"'] + rest)[1..] == rest;
    } else {
      ReadsEscaped(s[1..], rest);
      var t := Escape(s[1..]) + "\"" + rest;
      ReadsOneChar(s[0], t);
      assert Escape(s) + "\"" + rest == EscapeChar(s[0]) + t && [s[0]] + s[1..] == s;
    }
  }

  /** A written string is read back whole, whatever follows its closing quote. */
  lemma ReadsQuoted(s: string, rest: string)
    ensures ReadString(Quote(s) + rest) == Some((s, rest))
  {
    ReadsEscaped(s, rest);
    assert (Quote(s) + rest)[1..] == Escape(s) + "\"" + rest;
  }
}
