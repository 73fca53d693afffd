/** Hexadecimal text of byte strings, as key files hold it. */
module Hex {
  import opened Wrappers
  import opened Text
  import JsonText

  type Byte = b: int | 0 <= b < 256

  /** A static key or a public key. */
  type Key = k: seq<Byte> | |k| == 32 witness seq(32, _ => 0)

  predicate IsHexDigit(c: char)
  {
    JsonText.HexValue(c).Some?
  }

  function Encode(bytes: seq<Byte>): string
  {
    if bytes == [] then []
    else [JsonText.HexDigit(bytes[0] / 16), JsonText.HexDigit(bytes[0] % 16)] + Encode(bytes[1..])
  }

  function Decode(text: string): Option<seq<Byte>>
  {
    if text == [] then Some([])
    else if |text| == 1 then None
    else
      match (JsonText.HexValue(text[0]), JsonText.HexValue(text[1]), Decode(text[2..]))
      case (Some(high), Some(low), Some(rest)) =>
        assert high < 16 && low < 16;
        Some([high * 16 + low] + rest)
      case _ => None
  }

  /** A key file's text, white space around it aside, as a 32-byte key. */
  function DecodeKey(text: string): Option<Key>
  {
    match Decode(Trim(text))
    case None => None
    case Some(bytes) => if |bytes| == 32 then Some(bytes) else None
  }

  lemma {:induction false} EncodeIsHex(bytes: seq<Byte>)
    ensures forall c :: c in Encode(bytes) ==> IsHexDigit(c) && !IsWhitespace(c)
  {
    if bytes != [] {
      EncodeIsHex(bytes[1..]);
      JsonText.HexDigitReads(bytes[0] / 16);
      JsonText.HexDigitReads(bytes[0] % 16);
    }
  }

  lemma {:induction false} DecodesEncoded(bytes: seq<Byte>)
    ensures Decode(Encode(bytes)) == Some(bytes)
  {
    if bytes != [] {
      DecodesEncoded(bytes[1..]);
      JsonText.HexDigitReads(bytes[0] / 16);
      JsonText.HexDigitReads(bytes[0] % 16);
      assert Encode(bytes)[2..] == Encode(bytes[1..]);
      assert bytes == [bytes[0]] + bytes[1..];
    }
  }

  /** A key written to its file is read back. */
  lemma ReadsWrittenKey(key: Key)
    ensures DecodeKey(Encode(key)) == Some(key)
  {
    EncodeIsHex(key);
    DecodesEncoded(key);
    var text := Encode(key);
    assert text[0] in text && text[|text| - 1] in text;
  }

  /** The character writes the digit, in either case. */
  predicate Spells(c: char, d: nat)
    requires d < 16
  {
    c == "0123456789abcdef"[d] || c == "0123456789ABCDEF"[d]
  }

  ghost predicate SpellsBytes(text: string, bytes: seq<Byte>)
  {
    && |text| == 2 * |bytes|
    && forall i :: 0 <= i < |bytes| ==> Spells(text[2 * i], bytes[i] / 16) && Spells(text[2 * i + 1], bytes[i] % 16)
  }

  lemma HexValueSpells(c: char, d: nat)
    requires d < 16
    ensures JsonText.HexValue(c) == Some(d) <==> Spells(c, d)
  {}

  lemma PairSpells(a: char, b: char, byte: Byte)
    ensures Spells(a, byte / 16) && Spells(b, byte % 16) <==>
            JsonText.HexValue(a) == Some(byte / 16) && JsonText.HexValue(b) == Some(byte % 16)
  {
    hide Spells;
    HexValueSpells(a, byte / 16);
    HexValueSpells(b, byte % 16);
  }

  /** Text decodes to exactly the bytes whose digits it spells, two to a byte, high digit first, in either case. */
  lemma {:induction false} DecodesWhatItSpells(text: string, bytes: seq<Byte>)
    ensures Decode(text) == Some(bytes) <==> SpellsBytes(text, bytes)
    decreases |text|
  {
    hide Spells, JsonText.HexValue;
    if |text| >= 2 && bytes != [] {
      DecodesWhatItSpells(text[2..], bytes[1..]);
      PairSpells(text[0], text[1], bytes[0]);
      SpelledInParts(text, bytes);
      PairDecodes(text, bytes);
    }
  }

  lemma PairDecodes(text: string, bytes: seq<Byte>)
    requires |text| >= 2 && bytes != []
    ensures Decode(text) == Some(bytes) <==>
            && JsonText.HexValue(text[0]) == Some(bytes[0] / 16) && JsonText.HexValue(text[1]) == Some(bytes[0] % 16)
            && Decode(text[2..]) == Some(bytes[1..])
  {
    assert bytes == [bytes[0]] + bytes[1..];
    var high, low := JsonText.HexValue(text[0]), JsonText.HexValue(text[1]);
    if high.Some? && low.Some? {
      DigitsMakeAByte(high.value, low.value, bytes[0]);
      if Decode(text[2..]).Some? {
        assert Decode(text).value[1..] == Decode(text[2..]).value;
      }
    }
  }

  lemma DigitsMakeAByte(high: nat, low: nat, byte: Byte)
    requires high < 16 && low < 16
    ensures high * 16 + low == byte <==> high == byte / 16 && low == byte % 16
  {}

  lemma SpelledInParts(text: string, bytes: seq<Byte>)
    requires |text| >= 2 && bytes != []
    ensures SpellsBytes(text, bytes) <==>
            Spells(text[0], bytes[0] / 16) && Spells(text[1], bytes[0] % 16) && SpellsBytes(text[2..], bytes[1..])
  {
    hide Spells;
    if |text| == 2 * |bytes| {
      var t, b := text[2..], bytes[1..];
      if SpellsBytes(text, bytes) {
        forall i | 0 <= i < |b| ensures Spells(t[2 * i], b[i] / 16) && Spells(t[2 * i + 1], b[i] % 16) {
          assert b[i] == bytes[i + 1] && t[2 * i] == text[2 * (i + 1)] && t[2 * i + 1] == text[2 * (i + 1) + 1];
        }
      }
      if SpellsBytes(t, b) {
        forall i | 0 < i < |bytes|
          ensures Spells(text[2 * i], bytes[i] / 16) && Spells(text[2 * i + 1], bytes[i] % 16)
        {
          assert b[i - 1] == bytes[i] && t[2 * (i - 1)] == text[2 * i] && t[2 * (i - 1) + 1] == text[2 * i + 1];
        }
      }
    }
  }

  /** A written key spells its bytes in lower case. */
  lemma WritesLowerCase(bytes: seq<Byte>)
    ensures SpellsBytes(Encode(bytes), bytes)
    ensures forall c :: c in Encode(bytes) ==> c in "0123456789abcdef"
  {
    DecodesEncoded(bytes);
    DecodesWhatItSpells(Encode(bytes), bytes);
    WritesDigits(bytes);
  }

  lemma {:induction false} WritesDigits(bytes: seq<Byte>)
    ensures forall c :: c in Encode(bytes) ==> c in "0123456789abcdef"
  {
    if bytes != [] {
      WritesDigits(bytes[1..]);
      HexDigitIsNamed(bytes[0] / 16);
      HexDigitIsNamed(bytes[0] % 16);
    }
  }

  lemma HexDigitIsNamed(d: nat)
    requires d < 16
    ensures JsonText.HexDigit(d) == "0123456789abcdef"[d]
  {}

  /** A key file is read as a key exactly when it spells the key's bytes, white space around them aside. */
  lemma KeyIsReadExactlyWhen(text: string, key: Key)
    ensures DecodeKey(text) == Some(key) <==> SpellsBytes(Trim(text), key)
  {
    hide SpellsBytes;
    DecodesWhatItSpells(Trim(text), key);
  }

  ghost predicate IsHexText(text: string)
  {
    forall i :: 0 <= i < |text| ==> '0' <= text[i] <= '9' || 'a' <= text[i] <= 'f' || 'A' <= text[i] <= 'F'
  }

  /** Of texts of hexadecimal digits, case aside, exactly those of the same bytes are the same. */
  lemma {:induction false} SameDigitsSameBytes(a: string, b: string)
    requires IsHexText(a) && IsHexText(b) && |a| == |b| && |a| % 2 == 0
    ensures Decode(a).Some? && Decode(b).Some?
    ensures EqualIgnoringCase(a, b) <==> Decode(a) == Decode(b)
    decreases |a|
  {
    if a != [] {
      SameDigitsSameBytes(a[2..], b[2..]);
      DigitsAreValues(a[0], b[0]);
      DigitsAreValues(a[1], b[1]);
      SameInParts(a, b);
      hide EqualIgnoringCase, JsonText.HexValue, LowerAscii;
      PairsDiffer(JsonText.HexValue(a[0]).value, JsonText.HexValue(a[1]).value,
                  JsonText.HexValue(b[0]).value, JsonText.HexValue(b[1]).value);
      var x, y := Decode(a).value, Decode(b).value;
      assert x[1..] == Decode(a[2..]).value && y[1..] == Decode(b[2..]).value;
      assert x == y <==> x[0] == y[0] && x[1..] == y[1..];
    }
  }

  lemma DigitsAreValues(a: char, b: char)
    requires '0' <= a <= '9' || 'a' <= a <= 'f' || 'A' <= a <= 'F'
    requires '0' <= b <= '9' || 'a' <= b <= 'f' || 'A' <= b <= 'F'
    ensures JsonText.HexValue(a).Some? && JsonText.HexValue(b).Some?
    ensures LowerAscii(a) == LowerAscii(b) <==> JsonText.HexValue(a) == JsonText.HexValue(b)
  {}

  lemma PairsDiffer(a: nat, b: nat, c: nat, d: nat)
    requires a < 16 && b < 16 && c < 16 && d < 16
    ensures a * 16 + b == c * 16 + d <==> a == c && b == d
  {}

  lemma SameInParts(a: string, b: string)
    requires |a| == |b| >= 2
    ensures EqualIgnoringCase(a, b) <==>
            && LowerAscii(a[0]) == LowerAscii(b[0]) && LowerAscii(a[1]) == LowerAscii(b[1])
            && EqualIgnoringCase(a[2..], b[2..])
  {
    hide LowerAscii;
    forall i | 2 <= i < |a| ensures a[i] == a[2..][i - 2] && b[i] == b[2..][i - 2] {}
  }

  lemma HexDigitsMakeHexText(text: string)
    ensures IsHexText(text) <==> forall c :: c in text ==> IsHexDigit(c)
  {
    forall i | 0 <= i < |text|
      ensures IsHexDigit(text[i]) <==> ('0' <= text[i] <= '9' || 'a' <= text[i] <= 'f' || 'A' <= text[i] <= 'F')
    {}
    if forall c :: c in text ==> IsHexDigit(c) {
      forall i | 0 <= i < |text| ensures IsHexDigit(text[i]) {
        assert text[i] in text;
      }
    }
  }

  /** What is hexadecimal text but for case is hexadecimal text. */
  lemma HexWhateverTheCase(a: string, b: string)
    requires IsHexText(a) && EqualIgnoringCase(a, b)
    ensures IsHexText(b)
  {
    forall i | 0 <= i < |b| ensures '0' <= b[i] <= '9' || 'a' <= b[i] <= 'f' || 'A' <= b[i] <= 'F' {
      assert LowerAscii(a[i]) == LowerAscii(b[i]);
    }
  }
}
