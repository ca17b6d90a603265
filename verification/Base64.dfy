/** The standard base64 encoding (section 4 of RFC 4648) as the Go library reads and writes it: padding is required,
    line breaks are skipped, and the unused bits of the last digit are not looked at. */
module Base64 {
  import opened Options

  type Byte = b: int | 0 <= b < 256

  type Bytes = seq<Byte>

  type Sextet = v: int | 0 <= v < 64

  function Digit(v: Sextet): char
  {
    if v < 26 then ('A' as int + v) as char
    else if v < 52 then ('a' as int + v - 26) as char
    else if v < 62 then ('0' as int + v - 52) as char
    else if v == 62 then '+'
    else '/'
  }

  function Value(c: char): Option<Sextet>
  {
    if 'A' <= c <= 'Z' then Some(c as int - 'A' as int)
    else if 'a' <= c <= 'z' then Some(c as int - 'a' as int + 26)
    else if '0' <= c <= '9' then Some(c as int - '0' as int + 52)
    else if c == '+' then Some(62)
    else if c == '/' then Some(63)
    else None
  }

  function Encode(data: Bytes): string
  {
    if data == [] then ""
    else if |data| == 1 then [Digit(data[0] / 4), Digit(data[0] % 4 * 16), '=', '=']
    else if |data| == 2 then [Digit(data[0] / 4), Digit(data[0] % 4 * 16 + data[1] / 16), Digit(data[1] % 16 * 4), '=']
    else
      [Digit(data[0] / 4), Digit(data[0] % 4 * 16 + data[1] / 16), Digit(data[1] % 16 * 4 + data[2] / 64),
          Digit(data[2] % 64)]
      + Encode(data[3..])
  }

  function Strip(text: string): string
  {
    if text == "" then ""
    else (if text[0] == '\r' || text[0] == '\n' then "" else [text[0]]) + Strip(text[1..])
  }

  function Byte1(v0: Sextet, v1: Sextet): Byte { v0 * 4 + v1 / 16 }

  function Byte2(v1: Sextet, v2: Sextet): Byte { v1 % 16 * 16 + v2 / 4 }

  function Byte3(v2: Sextet, v3: Sextet): Byte { v2 % 4 * 64 + v3 }

  function DecodeDigits(text: string): Option<Bytes>
  {
    if text == "" then Some([])
    else if |text| < 4 then None
    else
      match (Value(text[0]), Value(text[1]), Value(text[2]), Value(text[3]))
      case (Some(v0), Some(v1), Some(v2), Some(v3)) =>
        (match DecodeDigits(text[4..])
         case Some(rest) => Some([Byte1(v0, v1), Byte2(v1, v2), Byte3(v2, v3)] + rest)
         case None => None)
      case (Some(v0), Some(v1), Some(v2), None) =>
        if text[3..] == "=" then Some([Byte1(v0, v1), Byte2(v1, v2)]) else None
      case (Some(v0), Some(v1), None, None) =>
        if text[2..] == "==" then Some([Byte1(v0, v1)]) else None
      case _ => None
  }

  function Decode(text: string): Option<Bytes>
  {
    DecodeDigits(Strip(text))
  }

  lemma ValueOfDigit(v: Sextet)
    ensures Value(Digit(v)) == Some(v) && Digit(v) !in "=\r\n"
  {
  }

  lemma {:induction false} StripEncoded(data: Bytes)
    ensures Strip(Encode(data)) == Encode(data)
  {
    if |data| > 2 {
      StripEncoded(data[3..]);
      StripDigits(Encode(data)[..4], Encode(data[3..]));
      assert Encode(data) == Encode(data)[..4] + Encode(data[3..]);
    } else {
      StripDigits(Encode(data), "");
      assert Encode(data) + "" == Encode(data);
    }
  }

  lemma {:induction false} StripDigits(head: string, tail: string)
    requires '\r' !in head && '\n' !in head
    ensures Strip(head + tail) == head + Strip(tail)
  {
    if head == "" {
      assert head + tail == tail && head + Strip(tail) == Strip(tail);
    } else {
      assert head[0] in head && head == [head[0]] + head[1..];
      assert (head + tail)[1..] == head[1..] + tail;
      StripDigits(head[1..], tail);
    }
  }

  lemma SplitByte(b: Byte)
    ensures b / 4 * 4 + b % 4 == b && b / 16 * 16 + b % 16 == b && b / 64 * 64 + b % 64 == b
  {
  }

  /** Three bytes through four digits. */
  lemma ThreeBytes(a: Byte, b: Byte, c: Byte)
    ensures Byte1(a / 4, a % 4 * 16 + b / 16) == a
    ensures Byte2(a % 4 * 16 + b / 16, b % 16 * 4 + c / 64) == b
    ensures Byte3(b % 16 * 4 + c / 64, c % 64) == c
  {
    SplitByte(a);
    SplitByte(b);
    SplitByte(c);
  }

  lemma OneByteBack(a: Byte)
    ensures DecodeDigits(Encode([a])) == Some([a])
  {
    var v0: Sextet, v1: Sextet := a / 4, a % 4 * 16;
    SplitByte(a);
    ValueOfDigit(v0);
    ValueOfDigit(v1);
    assert Encode([a]) == [Digit(v0), Digit(v1), '=', '='];
    assert Encode([a])[2..] == "==" && Byte1(v0, v1) == a;
  }

  lemma TwoBytesBack(a: Byte, b: Byte)
    ensures DecodeDigits(Encode([a, b])) == Some([a, b])
  {
    ThreeBytes(a, b, 0);
    ValueOfDigit(a / 4);
    ValueOfDigit(a % 4 * 16 + b / 16);
    ValueOfDigit(b % 16 * 4);
    assert Encode([a, b])[3..] == "=";
  }

  lemma GroupBack(v0: Sextet, v1: Sextet, v2: Sextet, v3: Sextet, rest: string, data: Bytes)
    requires DecodeDigits(rest) == Some(data)
    ensures DecodeDigits([Digit(v0), Digit(v1), Digit(v2), Digit(v3)] + rest)
         == Some([Byte1(v0, v1), Byte2(v1, v2), Byte3(v2, v3)] + data)
  {
    ValueOfDigit(v0);
    ValueOfDigit(v1);
    ValueOfDigit(v2);
    ValueOfDigit(v3);
    assert ([Digit(v0), Digit(v1), Digit(v2), Digit(v3)] + rest)[4..] == rest;
  }

  lemma EncodeThree(a: Byte, b: Byte, c: Byte, rest: Bytes)
    ensures Encode([a, b, c] + rest)
         == [Digit(a / 4), Digit(a % 4 * 16 + b / 16), Digit(b % 16 * 4 + c / 64), Digit(c % 64)] + Encode(rest)
  {
    assert ([a, b, c] + rest)[3..] == rest;
  }

  lemma ThreeBytesBack(a: Byte, b: Byte, c: Byte, rest: Bytes)
    requires DecodeDigits(Encode(rest)) == Some(rest)
    ensures DecodeDigits(Encode([a, b, c] + rest)) == Some([a, b, c] + rest)
  {
    var v1: Sextet, v2: Sextet := a % 4 * 16 + b / 16, b % 16 * 4 + c / 64;
    ThreeBytes(a, b, c);
    EncodeThree(a, b, c, rest);
    GroupBack(a / 4, v1, v2, c % 64, Encode(rest), rest);
  }

  lemma {:induction false} DigitsRoundTrip(data: Bytes)
    ensures DecodeDigits(Encode(data)) == Some(data)
  {
    if |data| == 1 {
      OneByteBack(data[0]);
      assert data == [data[0]];
    } else if |data| == 2 {
      TwoBytesBack(data[0], data[1]);
      assert data == [data[0], data[1]];
    } else if |data| > 2 {
      DigitsRoundTrip(data[3..]);
      ThreeBytesBack(data[0], data[1], data[2], data[3..]);
      assert data == [data[0], data[1], data[2]] + data[3..];
    }
  }

  /** Every byte string is read back from its encoding. */
  lemma RoundTrip(data: Bytes)
    ensures Decode(Encode(data)) == Some(data)
  {
    StripEncoded(data);
    DigitsRoundTrip(data);
  }

  /** The last digit before padding has no bits that the decoded bytes do not use. */
  predicate Tight(text: string)
  {
    |text| >= 4 && text[|text| - 1] == '=' ==>
      if text[|text| - 2] == '=' then Value(text[|text| - 3]).Some? && Value(text[|text| - 3]).value % 16 == 0
      else Value(text[|text| - 2]).Some? && Value(text[|text| - 2]).value % 4 == 0
  }

  lemma DigitOfValue(c: char)
    requires Value(c).Some?
    ensures Digit(Value(c).value) == c
  {
  }

  lemma HighBits(v0: Sextet, v1: Sextet)
    ensures Byte1(v0, v1) / 4 == v0 && Byte1(v0, v1) % 4 == v1 / 16
  {
  }

  lemma MiddleBits(v1: Sextet, v2: Sextet)
    ensures Byte2(v1, v2) / 16 == v1 % 16 && Byte2(v1, v2) % 16 == v2 / 4
  {
  }

  lemma LowBits(v2: Sextet, v3: Sextet)
    ensures Byte3(v2, v3) / 64 == v2 % 4 && Byte3(v2, v3) % 64 == v3
  {
  }

  lemma Halves(v: Sextet)
    ensures v / 16 * 16 + v % 16 == v && v / 4 * 4 + v % 4 == v
  {
  }

  lemma BackFromThree(v0: Sextet, v1: Sextet, v2: Sextet, v3: Sextet, rest: Bytes)
    ensures Encode([Byte1(v0, v1), Byte2(v1, v2), Byte3(v2, v3)] + rest)
        == [Digit(v0), Digit(v1), Digit(v2), Digit(v3)] + Encode(rest)
  {
    var data: Bytes := [Byte1(v0, v1), Byte2(v1, v2), Byte3(v2, v3)] + rest;
    assert data[3..] == rest;
    HighBits(v0, v1);
    MiddleBits(v1, v2);
    LowBits(v2, v3);
    Halves(v1);
    Halves(v2);
  }

  lemma BackFromTwo(v0: Sextet, v1: Sextet, v2: Sextet)
    ensures Encode([Byte1(v0, v1), Byte2(v1, v2)]) == [Digit(v0), Digit(v1), Digit(v2 / 4 * 4), '=']
  {
    HighBits(v0, v1);
    MiddleBits(v1, v2);
    Halves(v1);
  }

  lemma BackFromOne(v0: Sextet, v1: Sextet)
    ensures Encode([Byte1(v0, v1)]) == [Digit(v0), Digit(v1 / 16 * 16), '=', '=']
  {
    HighBits(v0, v1);
  }

  lemma DigitsDiffer(v: Sextet, w: Sextet)
    ensures Digit(v) == Digit(w) <==> v == w
  {
    ValueOfDigit(v);
    ValueOfDigit(w);
  }

  lemma {:induction false} DigitsBack(text: string)
    requires DecodeDigits(text).Some?
    ensures Encode(DecodeDigits(text).value) == text <==> Tight(text)
  {
    if text != "" {
      var v0, v1 := Value(text[0]).value, Value(text[1]).value;
      DigitOfValue(text[0]);
      DigitOfValue(text[1]);
      if Value(text[2]).None? {
        BackFromOne(v0, v1);
        DigitsDiffer(v1 / 16 * 16, v1);
        assert text == text[..2] + text[2..];
      } else {
        var v2 := Value(text[2]).value;
        DigitOfValue(text[2]);
        if Value(text[3]).None? {
          BackFromTwo(v0, v1, v2);
          DigitsDiffer(v2 / 4 * 4, v2);
          assert text == text[..3] + text[3..];
        } else {
          DigitOfValue(text[3]);
          BackFromThree(v0, v1, v2, Value(text[3]).value, DecodeDigits(text[4..]).value);
          DigitsBack(text[4..]);
          TightTail(text);
          PrefixCancels(text[..4], Encode(DecodeDigits(text[4..]).value), text[4..]);
          assert text == text[..4] + text[4..];
        }
      }
    }
  }

  lemma PrefixCancels(head: string, a: string, b: string)
    ensures head + a == head + b <==> a == b
  {
    if head + a == head + b {
      assert a == (head + a)[|head|..] && b == (head + b)[|head|..];
    }
  }

  lemma TightTail(text: string)
    requires |text| >= 4 && Value(text[3]).Some? && DecodeDigits(text[4..]).Some?
    ensures Tight(text) <==> Tight(text[4..])
  {
    if |text| > 4 { assert |text[4..]| >= 4; }
  }

  /** A string that decodes is the encoding of what it decodes to exactly when it has no line break and no
      unused bit set. */
  lemma DecodedIsEncoding(text: string)
    requires Decode(text).Some?
    ensures Encode(Decode(text).value) == text <==> Strip(text) == text && Tight(text)
  {
    StripEncoded(Decode(text).value);
    DigitsBack(Strip(text));
  }

  // ---- What the digits are ----

  const UPPER := "ABCDEFGHIJKLMNOPQRSTUVWXYZ"
  const LOWER := "abcdefghijklmnopqrstuvwxyz"
  const ALPHABET := UPPER + LOWER + "0123456789" + "+/"

  lemma Letters(k: nat)
    requires k < 26
    ensures |UPPER| == |LOWER| == 26
    ensures UPPER[k] == ('A' as int + k) as char && LOWER[k] == ('a' as int + k) as char
  {
  }

  lemma Numerals(k: nat)
    requires k < 10
    ensures "0123456789"[k] == ('0' as int + k) as char
  {
  }

  /** A digit stands for its place in the alphabet, and no other character is a digit. */
  lemma AlphabetDigits(v: Sextet, c: char)
    ensures |ALPHABET| == 64 && Digit(v) == ALPHABET[v]
    ensures Value(c).Some? <==> c in ALPHABET
  {
    AlphabetAt(v);
    if Value(c).Some? {
      AlphabetAt(Value(c).value);
      DigitOfValue(c);
    } else if c in ALPHABET {
      var w: nat :| w < |ALPHABET| && ALPHABET[w] == c;
      AlphabetAt(w);
      ValueOfDigit(w);
    }
  }

  lemma AlphabetAt(v: Sextet)
    ensures |ALPHABET| == 64 && Digit(v) == ALPHABET[v]
  {
    if v < 52 { Letters(if v < 26 then v else v - 26); } else if v < 62 { Numerals(v - 52); }
  }

  /** Four digits of the text, read as one number, are the three bytes they encode, read as one number; the last group
      has two or three digits for one or two bytes, with zero bits after them, and is filled up with "=". */
  predicate GroupIs(text: string, rest: Bytes)
    requires |text| == 4 && rest != []
  {
    match (Value(text[0]), Value(text[1]), Value(text[2]), Value(text[3]))
    case (Some(v0), Some(v1), Some(v2), Some(v3)) =>
      |rest| >= 3 && Number(64, v0, v1, v2, v3) == Number(256, 0, rest[0], rest[1], rest[2])
    case (Some(v0), Some(v1), Some(v2), None) =>
      text[3] == '=' && |rest| == 2 && Number(64, 0, v0, v1, v2) == Number(256, 0, 0, rest[0], rest[1]) * 4
    case (Some(v0), Some(v1), None, None) =>
      text[2] == text[3] == '=' && |rest| == 1 && Number(64, 0, 0, v0, v1) == rest[0] as int * 16
    case _ => false
  }

  /** Four digits to a base. */
  function Number(base: int, a: int, b: int, c: int, d: int): int { ((a * base + b) * base + c) * base + d }

  lemma FirstGroup(data: Bytes)
    requires data != []
    ensures |Encode(data)| >= 4 && GroupIs(Encode(data)[..4], data)
  {
    var a: Byte, b: Byte := data[0], if |data| > 1 then data[1] else 0;
    var c: Byte := if |data| > 2 then data[2] else 0;
    GroupNumber(a, b, c);
    ValueOfDigit(a / 4);
    ValueOfDigit(a % 4 * 16 + b / 16);
    ValueOfDigit(b % 16 * 4 + c / 64);
    ValueOfDigit(c % 64);
  }

  lemma GroupNumber(a: Byte, b: Byte, c: Byte)
    ensures 0 <= a % 4 * 16 + b / 16 < 64 && 0 <= b % 16 * 4 + c / 64 < 64
    ensures Number(64, a / 4, a % 4 * 16 + b / 16, b % 16 * 4 + c / 64, c % 64) == Number(256, 0, a, b, c)
    ensures Number(64, 0, a / 4, a % 4 * 16 + b / 16, b % 16 * 4) == Number(256, 0, 0, a, b) * 4
    ensures Number(64, 0, 0, a / 4, a % 4 * 16) == a as int * 16
  {
    SplitByte(a);
    SplitByte(b);
    SplitByte(c);
  }

  lemma {:induction false} EncodedLength(data: Bytes)
    ensures |Encode(data)| == (|data| + 2) / 3 * 4
  {
    if |data| > 2 { EncodedLength(data[3..]); }
  }

  /** Every three bytes make four characters, and a text has no others. */
  lemma {:induction false} EncodedGroups(data: Bytes, g: nat)
    requires 3 * g < |data|
    ensures 4 * g + 4 <= |Encode(data)| == (|data| + 2) / 3 * 4
    ensures GroupIs(Encode(data)[4 * g..4 * g + 4], data[3 * g..])
    decreases g
  {
    EncodedLength(data);
    if g == 0 {
      FirstGroup(data);
    } else {
      EncodedGroups(data[3..], g - 1);
      GroupShift(data, g - 1);
    }
  }

  lemma GroupShift(data: Bytes, h: nat)
    requires 3 * h + 3 < |data| && 4 * h + 4 <= |Encode(data[3..])|
    ensures |Encode(data)| == |Encode(data[3..])| + 4
    ensures Encode(data)[4 * (h + 1)..4 * (h + 1) + 4] == Encode(data[3..])[4 * h..4 * h + 4]
    ensures data[3 * (h + 1)..] == data[3..][3 * h..]
  {
    assert Encode(data)[4..] == Encode(data[3..]);
  }

  /** Reading leaves out line breaks, wherever they are, and nothing else. */
  lemma {:induction false} StripMeaning(a: string, c: char, b: string)
    ensures Strip(a + [c] + b) == if c == '\r' || c == '\n' then Strip(a + b) else Strip(a) + [c] + Strip(b)
    ensures Strip("") == ""
  {
    if a == "" {
      assert ("" + [c] + b)[1..] == b && "" + b == b;
    } else {
      assert (a + [c] + b)[1..] == a[1..] + [c] + b && (a + b)[1..] == a[1..] + b;
      StripMeaning(a[1..], c, b);
    }
  }

  predicate AllDigits(text: string)
  {
    forall k | 0 <= k < |text| :: Value(text[k]).Some?
  }

  /** A text without line breaks is read if and only if it is a whole number of groups of four digits, the last of which
      may end in one or two "=". */
  lemma {:induction false} ReadIff(text: string)
    ensures DecodeDigits(text).Some? <==> Grouped(text)
    decreases |text|
  {
    if |text| <= 4 {
      ShortText(text);
    } else {
      ReadIff(text[4..]);
      ReadGroup(text);
      GroupedRest(text);
    }
  }

  /** A whole number of groups of digits, the last of which may end in one or two "=". */
  predicate Grouped(text: string)
  {
    var n := |text|;
    && n % 4 == 0
    && (AllDigits(text) || (n >= 4 && AllDigits(text[..n - 1]) && text[n - 1] == '=')
        || (n >= 4 && AllDigits(text[..n - 2]) && text[n - 2] == text[n - 1] == '='))
  }

  lemma ShortText(text: string)
    requires |text| <= 4
    ensures DecodeDigits(text).Some? <==> Grouped(text)
  {
    if |text| == 4 {
      FourDigits(text);
      assert text[4..] == "" && text[3..] == [text[3]] && text[2..] == [text[2], text[3]];
    }
  }

  lemma FourDigits(text: string)
    requires |text| >= 4
    ensures Value(text[0]).Some? && Value(text[1]).Some? <==> AllDigits(text[..2])
    ensures AllDigits(text[..2]) && Value(text[2]).Some? <==> AllDigits(text[..3])
    ensures AllDigits(text[..3]) && Value(text[3]).Some? <==> AllDigits(text[..4])
    ensures |text| == 4 ==> text[..4] == text
  {
    assert text[..2] == [text[0], text[1]] && text[..3] == text[..2] + [text[2]] && text[..4] == text[..3] + [text[3]];
    DigitsJoin(text[..2], [text[2]]);
    DigitsJoin(text[..3], [text[3]]);
  }

  lemma ReadGroup(text: string)
    requires |text| > 4
    ensures DecodeDigits(text).Some? <==> AllDigits(text[..4]) && DecodeDigits(text[4..]).Some?
  {
    FourDigits(text);
    assert |text[3..]| > 1 && |text[2..]| > 2;
  }

  lemma GroupedRest(text: string)
    requires |text| > 4
    ensures Grouped(text) <==> AllDigits(text[..4]) && Grouped(text[4..])
  {
    var rest, n := text[4..], |text|;
    assert text == text[..4] + rest;
    DigitsJoin(text[..4], rest);
    if n >= 8 {
      assert text[..n - 1] == text[..4] + rest[..n - 5] && text[..n - 2] == text[..4] + rest[..n - 6];
      DigitsJoin(text[..4], rest[..n - 5]);
      DigitsJoin(text[..4], rest[..n - 6]);
    }
  }

  lemma DigitsJoin(a: string, b: string)
    ensures AllDigits(a + b) <==> AllDigits(a) && AllDigits(b)
  {
    if AllDigits(a + b) {
      forall k | 0 <= k < |a| ensures Value(a[k]).Some? { assert (a + b)[k] == a[k]; }
      forall k | 0 <= k < |b| ensures Value(b[k]).Some? { assert (a + b)[|a| + k] == b[k]; }
    }
  }

  /** A group reads as the bytes of the same number; the bits that are left over are not looked at. */
  predicate GroupReads(text: string, rest: Bytes)
    requires |text| == 4 && rest != []
  {
    match (Value(text[0]), Value(text[1]), Value(text[2]), Value(text[3]))
    case (Some(v0), Some(v1), Some(v2), Some(v3)) =>
      |rest| >= 3 && Number(64, v0, v1, v2, v3) == Number(256, 0, rest[0], rest[1], rest[2])
    case (Some(v0), Some(v1), Some(v2), None) =>
      |rest| == 2 && Number(64, 0, v0, v1, v2) / 4 == Number(256, 0, 0, rest[0], rest[1])
    case (Some(v0), Some(v1), None, None) => |rest| == 1 && Number(64, 0, 0, v0, v1) / 16 == rest[0]
    case _ => false
  }

  lemma FirstRead(text: string)
    requires text != "" && DecodeDigits(text).Some?
    ensures var data := DecodeDigits(text).value; |text| >= 4 && data != [] && GroupReads(text[..4], data)
    ensures |text| > 4 ==> var data := DecodeDigits(text).value;
      |data| >= 3 && DecodeDigits(text[4..]) == Some(data[3..])
  {
    var v0, v1 := Value(text[0]).value, Value(text[1]).value;
    Halves(v1);
    if Value(text[2]).Some? {
      var v2 := Value(text[2]).value;
      Halves(v2);
      if Value(text[3]).Some? {
        var tail := DecodeDigits(text[4..]).value;
        var data := DecodeDigits(text).value;
        assert data == [Byte1(v0, v1), Byte2(v1, v2), Byte3(v2, Value(text[3]).value)] + tail;
        assert data[3..] == tail;
      }
    }
  }
}
