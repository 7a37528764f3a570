/** Percent coding of feature values (section 2.1 of RFC 3986), byte by byte.

    The type of a character is a plain `char`, which a compiler makes signed or unsigned; both are modelled
    by the parameter `signed`. */
module PercentCoding {
  import opened Lists
  import opened Text

  predicate IsBytes(s: string) {
    forall i | 0 <= i < |s| :: s[i] as int < 256
  }

  /** The characters the encoder leaves alone. */
  predicate IsPlain(c: char) {
    || IsAlpha(c) || IsDigit(c)
    || c as int == 0x21 || c as int == 0x2D || c as int == 0x2E || c as int == 0x45
    || c as int == 0x2A || c as int == 0x5F || c as int == 0x2B
    || c as int == 0x60 || c as int == 0x47 || c as int == 0x7E
  }

  /** Letters, digits and eight other characters: "E" and "G" in the list of codes are letters anyway. */
  lemma PlainIff(c: char)
    ensures IsPlain(c) <==> 'A' <= c <= 'Z' || 'a' <= c <= 'z' || '0' <= c <= '9'
                            || c in {'!', '-', '.', '*', '_', '+', '`', '~'}
  {
  }

  function HexDigit(n: int): char
    requires 0 <= n < 16
  {
    if n < 10 then ('0' as int + n) as char else ('A' as int + n - 10) as char
  }

  /** The hexadecimal digits of a number, none for zero. */
  function HexDigits(n: nat): string {
    if n == 0 then [] else HexDigits(n / 16) + [HexDigit(n % 16)]
  }

  /** The value of a character passed where an unsigned 32-bit number is expected. */
  function AsUnsigned32(c: char, signed: bool): nat
    requires c as int < 256
  {
    if signed && c as int >= 128 then 0x1_0000_0000 - 256 + c as int else c as int
  }

  /** `%02X`: at least two digits, padded with zeros. */
  function CharToHexString(c: char, signed: bool): string
    requires c as int < 256
  {
    var h := HexDigits(AsUnsigned32(c, signed));
    if |h| == 0 then "00" else if |h| == 1 then ['0'] + h else h
  }

  predicate IsHexCharacter(c: char) {
    IsDigit(c) || 'A' <= c <= 'F' || 'a' <= c <= 'f'
  }

  function HexValue(c: char): (n: int)
    requires IsHexCharacter(c)
    ensures 0 <= n < 16
  {
    if 'A' <= c <= 'F' then c as int - 'A' as int + 10
    else if 'a' <= c <= 'f' then c as int - 'a' as int + 10
    else c as int - '0' as int
  }

  /** The value of two hexadecimal digits held in a character, or -1. */
  function HexStringToChar(h: string, signed: bool): int {
    if |h| != 2 && !(|h| == 4 && h[0] == '0' && (h[1] == 'x' || h[1] == 'X')) then -1
    else
      var d := h[|h| - 2..];
      if !IsHexCharacter(d[0]) || !IsHexCharacter(d[1]) then -1
      else
        var v := 16 * HexValue(d[0]) + HexValue(d[1]);
        if signed && v >= 128 then v - 256 else v
  }

  function EncodeChar(c: char, signed: bool): string
    requires c as int < 256
  {
    if IsPlain(c) then [c] else ['%'] + CharToHexString(c, signed)
  }

  function Encode(s: string, signed: bool): string
    requires IsBytes(s)
  {
    if s == [] then [] else EncodeChar(s[0], signed) + Encode(s[1..], signed)
  }

  /** What a percent sign and the at most two characters after it decode to. */
  function DecodeEscape(hex: string, signed: bool): string {
    var v := HexStringToChar(hex, signed);
    if v < 0 || v > 255 then ['%'] + hex else [v as char]
  }

  function Decode(s: string, signed: bool): string {
    if s == [] then []
    else if s[0] != '%' then [s[0]] + Decode(s[1..], signed)
    else
      var end := if |s| < 3 then |s| else 3;
      DecodeEscape(s[1..end], signed) + Decode(s[end..], signed)
  }

  // ---------------------------------------------------------------- the loops

  lemma EncodeFrom(s: string, i: nat, signed: bool)
    requires IsBytes(s) && i < |s|
    ensures Encode(s[i..], signed) == EncodeChar(s[i], signed) + Encode(s[i + 1..], signed)
  {
    assert s[i..][1..] == s[i + 1..];
  }

  method DoPercentEncoding(s: string, signed: bool) returns (r: string)
    requires IsBytes(s)
    ensures r == Encode(s, signed)
  {
    r := [];
    for i := 0 to |s|
      invariant r + Encode(s[i..], signed) == Encode(s, signed)
    {
      EncodeFrom(s, i, signed);
      AppendAssociative(r, EncodeChar(s[i], signed), Encode(s[i + 1..], signed));
      if IsPlain(s[i]) {
        r := r + [s[i]];
      } else {
        AppendAssociative(r, ['%'], CharToHexString(s[i], signed));
        r := r + ['%'];
        r := r + CharToHexString(s[i], signed);
      }
    }
  }

  /** What is left of the text at a position that may lie behind its end. */
  function From(s: string, i: nat): string {
    if i < |s| then s[i..] else []
  }

  /** The at most two characters behind a percent sign. */
  function HexAt(s: string, i: nat): string
    requires i < |s|
  {
    if i + 3 <= |s| then s[i + 1..i + 3] else s[i + 1..]
  }

  lemma DecodeFrom(s: string, i: nat, signed: bool)
    requires i < |s|
    ensures Decode(From(s, i), signed) ==
            if s[i] != '%' then [s[i]] + Decode(From(s, i + 1), signed)
            else DecodeEscape(HexAt(s, i), signed) + Decode(From(s, i + 3), signed)
  {
    var rest := s[i..];
    var end := if |rest| < 3 then |rest| else 3;
    assert rest[1..] == From(s, i + 1);
    assert rest[1..end] == HexAt(s, i);
    assert rest[end..] == From(s, i + 3);
  }

  /** What the loop over the text keeps, from one position to the next. */
  lemma DecodeNext(r: string, s: string, i: nat, signed: bool)
    requires i < |s|
    ensures r + Decode(From(s, i), signed) ==
            if s[i] != '%' then r + [s[i]] + Decode(From(s, i + 1), signed)
            else r + DecodeEscape(HexAt(s, i), signed) + Decode(From(s, i + 3), signed)
  {
    DecodeFrom(s, i, signed);
    if s[i] != '%' {
      AppendAssociative(r, [s[i]], Decode(From(s, i + 1), signed));
    } else {
      AppendAssociative(r, DecodeEscape(HexAt(s, i), signed), Decode(From(s, i + 3), signed));
    }
  }

  /** Appends the character that an escape stands for, or the escape when it stands for none. */
  method AppendDecoded(r: string, hex: string, signed: bool) returns (all: string)
    ensures all == r + DecodeEscape(hex, signed)
  {
    var v := HexStringToChar(hex, signed);
    if v < 0 || v > 255 {
      AppendAssociative(r, ['%'], hex);
      all := r + ['%'];
      all := all + hex;
    } else {
      all := r + [v as char];
    }
  }

  method DoPercentDecoding(s: string, signed: bool) returns (r: string)
    ensures r == Decode(s, signed)
  {
    r := [];
    var i := 0;
    while i < |s|
      invariant 0 <= i
      invariant r + Decode(From(s, i), signed) == Decode(s, signed)
    {
      DecodeNext(r, s, i, signed);
      if s[i] != '%' {
        r := r + [s[i]];
      } else {
        var hex := HexAt(s, i);
        r := AppendDecoded(r, hex, signed);
        i := i + 2;
      }
      i := i + 1;
    }
  }

  // ---------------------------------------------------------------- the round trip

  lemma TwoDigits(n: nat)
    requires n < 256
    ensures HexDigits(n) == if n == 0 then [] else if n < 16 then [HexDigit(n)] else [HexDigit(n / 16), HexDigit(n % 16)]
  {
    assert HexDigits(0) == [];
    if 16 <= n {
      assert n / 16 < 16 && n / 16 / 16 == 0 && n / 16 % 16 == n / 16;
    }
  }

  lemma HexOfSmall(c: char, signed: bool)
    requires c as int < 256 && (!signed || c as int < 128)
    ensures CharToHexString(c, signed) == [HexDigit(c as int / 16), HexDigit(c as int % 16)]
  {
    TwoDigits(c as int);
  }

  predicate NoPercent(s: string) {
    forall i | 0 <= i < |s| :: s[i] != '%'
  }

  /** Eight digits, all but the last two of them `F`. */
  lemma HexOfNegative(c: char)
    requires 128 <= c as int < 256
    ensures var h := CharToHexString(c, true);
            |h| == 8 && h[..2] == "FF" && NoPercent(h)
  {
    var n := AsUnsigned32(c, true);
    assert n == 0xFFFF_FF00 + c as int;
    TopDigits(0xFFFF_FF, c as int);
    TwoDigits(c as int);
    SixFs();
  }

  lemma SixFs()
    ensures HexDigits(0xFFFF_FF) == "FFFFFF"
  {
    assert HexDigits(0) == [];
    assert HexDigits(0xF) == "F";
    assert HexDigits(0xFF) == "FF";
    assert HexDigits(0xFFF) == "FFF";
    assert HexDigits(0xFFFF) == "FFFF";
    assert HexDigits(0xFFFF_F) == "FFFFF";
  }

  lemma TopDigits(top: nat, low: nat)
    requires 16 <= low < 256
    ensures HexDigits(256 * top + low) == HexDigits(top) + [HexDigit(low / 16), HexDigit(low % 16)]
  {
    var n := 256 * top + low;
    assert n / 16 == 16 * top + low / 16 && n % 16 == low % 16;
    assert (n / 16) / 16 == top && (n / 16) % 16 == low / 16;
  }

  lemma HexDigitValue(n: int)
    requires 0 <= n < 16
    ensures IsHexCharacter(HexDigit(n)) && HexValue(HexDigit(n)) == n && HexDigit(n) != '%'
  {
  }

  lemma HexRoundTrip(n: nat, signed: bool)
    requires n < 256 && (!signed || n < 128)
    ensures HexStringToChar([HexDigit(n / 16), HexDigit(n % 16)], signed) == n
  {
    var h := [HexDigit(n / 16), HexDigit(n % 16)];
    HexDigitValue(n / 16);
    HexDigitValue(n % 16);
    assert h[|h| - 2..] == h;
  }

  lemma DecodeTwo(h: string, rest: string, signed: bool)
    requires |h| == 2 && 0 <= HexStringToChar(h, signed) <= 255
    ensures Decode(['%'] + h + rest, signed) == [HexStringToChar(h, signed) as char] + Decode(rest, signed)
  {
    var s := ['%'] + h + rest;
    assert s[1..3] == h && s[3..] == rest;
  }

  /** Decoding gives a faithful character back and goes on after it. */
  lemma DecodeFaithful(c: char, rest: string, signed: bool)
    requires c as int < 256 && (!signed || c as int < 128)
    ensures Decode(EncodeChar(c, signed) + rest, signed) == [c] + Decode(rest, signed)
  {
    if IsPlain(c) {
      DecodePlain(c, rest, signed);
    } else {
      HexOfSmall(c, signed);
      HexRoundTrip(c as int, signed);
      DecodeTwo([HexDigit(c as int / 16), HexDigit(c as int % 16)], rest, signed);
    }
  }

  lemma DecodePlain(c: char, rest: string, signed: bool)
    requires c != '%'
    ensures Decode([c] + rest, signed) == [c] + Decode(rest, signed)
  {
    assert ([c] + rest)[1..] == rest;
  }

  lemma {:induction false} DecodePlainRun(t: string, rest: string, signed: bool)
    requires NoPercent(t)
    ensures Decode(t + rest, signed) == t + Decode(rest, signed)
    decreases |t|
  {
    if t == [] {
      assert t + rest == rest;
    } else {
      var tail := t[1..];
      DecodePlainRun(tail, rest, signed);
      DecodePlain(t[0], tail + rest, signed);
      assert t == [t[0]] + tail;
      AppendAssociative([t[0]], tail, rest);
      AppendAssociative([t[0]], tail, Decode(rest, signed));
    }
  }

  lemma {:induction false} DecodeUnread(h: string, rest: string, signed: bool)
    requires |h| == 2 && HexStringToChar(h, signed) < 0
    ensures Decode(['%'] + h + rest, signed) == ['%'] + h + Decode(rest, signed)
  {
    var s := ['%'] + h + rest;
    assert s[1..3] == h && s[3..] == rest;
  }

  /** An escape whose first two digits do not fit a signed character is kept as it is. */
  lemma {:induction false} DecodeKept(h: string, rest: string)
    requires |h| >= 2 && h[..2] == "FF" && NoPercent(h)
    ensures Decode(['%'] + h + rest, true) == ['%'] + h + Decode(rest, true)
  {
    assert HexStringToChar("FF", true) == -1;
    DecodeUnread(h[..2], h[2..] + rest, true);
    DecodePlainRun(h[2..], rest, true);
    Regroup(h, rest);
    Regroup(h, Decode(rest, true));
  }

  lemma {:induction false} Regroup(h: string, rest: string)
    requires |h| >= 2
    ensures ['%'] + h[..2] + (h[2..] + rest) == ['%'] + h + rest
  {
    assert h == h[..2] + h[2..];
  }

  /** With signed characters a byte of 128 or more comes back as its whole escape, nine characters long. */
  lemma DecodeNegative(c: char, rest: string)
    requires 128 <= c as int < 256
    ensures Decode(EncodeChar(c, true) + rest, true) == EncodeChar(c, true) + Decode(rest, true)
    ensures |EncodeChar(c, true)| == 9
  {
    var h := CharToHexString(c, true);
    HexOfNegative(c);
    DecodeKept(h, rest);
  }

  predicate IsAscii(s: string) {
    forall i | 0 <= i < |s| :: s[i] as int < 128
  }

  function CountHigh(s: string): nat {
    if s == [] then 0 else (if s[0] as int >= 128 then 1 else 0) + CountHigh(s[1..])
  }

  lemma {:induction false} DecodedLength(s: string, signed: bool)
    requires IsBytes(s)
    ensures !signed || CountHigh(s) == 0 ==> Decode(Encode(s, signed), signed) == s
    ensures signed ==> |Decode(Encode(s, signed), signed)| == |s| + 8 * CountHigh(s)
  {
    if s != [] {
      var rest := Encode(s[1..], signed);
      DecodedLength(s[1..], signed);
      assert s == [s[0]] + s[1..];
      if signed && s[0] as int >= 128 {
        DecodeNegative(s[0], rest);
      } else {
        DecodeFaithful(s[0], rest, signed);
      }
    }
  }

  lemma {:induction false} NoneHigh(s: string)
    ensures CountHigh(s) == 0 <==> IsAscii(s)
  {
    if s != [] {
      NoneHigh(s[1..]);
      assert IsAscii(s) <==> s[0] as int < 128 && IsAscii(s[1..]) by {
        assert forall i | 1 <= i < |s| :: s[i] == s[1..][i - 1];
      }
    }
  }

  /** Decoding undoes encoding: for every byte string where characters are unsigned, and where they are
      signed exactly for the strings of bytes below 128. */
  lemma DecodeUndoesEncode(s: string, signed: bool)
    requires IsBytes(s)
    ensures Decode(Encode(s, signed), signed) == s <==> (!signed || IsAscii(s))
  {
    DecodedLength(s, signed);
    NoneHigh(s);
  }

  // ---------------------------------------------------------------- what encoded text contains

  /** The characters of encoded text. */
  predicate IsEncodedChar(c: char) {
    IsPlain(c) || c == '%' || IsHexCharacter(c)
  }

  lemma {:induction false} HexDigitsAreHex(n: nat)
    ensures forall c | c in HexDigits(n) :: IsHexCharacter(c)
  {
    if n != 0 {
      HexDigitsAreHex(n / 16);
    }
  }

  lemma {:induction false} EncodedChars(s: string, signed: bool)
    requires IsBytes(s)
    ensures forall c | c in Encode(s, signed) :: IsEncodedChar(c)
    ensures |Encode(s, signed)| >= |s|
  {
    if s != [] {
      HexDigitsAreHex(AsUnsigned32(s[0], signed));
      EncodedChars(s[1..], signed);
    }
  }

  /** Encoded text holds none of the characters that the feature syntax gives a meaning to. */
  lemma EncodedIsInert(s: string, signed: bool)
    requires IsBytes(s)
    ensures var e := Encode(s, signed);
            && NoSpace(e)
            && ',' !in e && '"' !in e && '=' !in e && ';' !in e && '<' !in e && '>' !in e
            && (e == [] <==> s == [])
  {
    EncodedChars(s, signed);
    var e := Encode(s, signed);
    forall c | c in e ensures !IsSpace(c) && c != ',' && c != '"' && c != '=' && c != ';' && c != '<' && c != '>' {
      assert IsEncodedChar(c);
    }
  }

  // ---------------------------------------------------------------- decoding any text

  /** The value of a hexadecimal digit in either case, or -1. */
  function Nibble(c: char): int {
    match c
    case '0' => 0 case '1' => 1 case '2' => 2 case '3' => 3 case '4' => 4
    case '5' => 5 case '6' => 6 case '7' => 7 case '8' => 8 case '9' => 9
    case 'A' => 10 case 'B' => 11 case 'C' => 12 case 'D' => 13 case 'E' => 14 case 'F' => 15
    case 'a' => 10 case 'b' => 11 case 'c' => 12 case 'd' => 13 case 'e' => 14 case 'f' => 15
    case _ => -1
  }

  lemma {:induction false} NibbleIs(c: char)
    ensures IsHexCharacter(c) <==> Nibble(c) >= 0
    ensures IsHexCharacter(c) ==> HexValue(c) == Nibble(c)
  {
  }

  /** Two hexadecimal digits, with or without "0x" in front, and nothing else is a number; where characters are signed,
      the numbers from 128 on are negative. */
  lemma {:induction false} HexTextIs(h: string, signed: bool)
    ensures HexStringToChar(h, signed)
         == if (|h| == 2 || (|h| == 4 && h[0] == '0' && h[1] in {'x', 'X'}))
               && Nibble(h[|h| - 2]) >= 0 && Nibble(h[|h| - 1]) >= 0
            then
              var v := 16 * Nibble(h[|h| - 2]) + Nibble(h[|h| - 1]);
              if signed && Nibble(h[|h| - 2]) >= 8 then v - 256 else v
            else -1
  {
    if |h| >= 2 {
      NibbleIs(h[|h| - 2]);
      NibbleIs(h[|h| - 1]);
    }
  }

  /** A percent sign with two characters behind it is the character of that number, if they are hexadecimal digits of one
      that is not negative; otherwise all three stay, and decoding goes on behind them. */
  lemma {:induction false} EscapeDecodesTo(a: char, b: char, rest: string, signed: bool)
    ensures Decode(['%', a, b] + rest, signed)
         == (if Nibble(a) >= 0 && Nibble(b) >= 0 && !(signed && Nibble(a) >= 8) then [(16 * Nibble(a) + Nibble(b)) as char]
             else ['%', a, b])
            + Decode(rest, signed)
  {
    var s := ['%', a, b] + rest;
    assert s[1..3] == [a, b] && s[3..] == rest;
    HexTextIs([a, b], signed);
    assert ['%'] + [a, b] == ['%', a, b];
  }

  /** A percent sign with less behind it stays. */
  lemma {:induction false} ShortEscapeStays(s: string, signed: bool)
    requires s != "" && |s| <= 2 && s[0] == '%'
    ensures Decode(s, signed) == s
  {
    assert s[1..|s|] == s[1..] && s[|s|..] == [];
    HexTextIs(s[1..], signed);
    assert Decode([], signed) == [];
    assert ['%'] + s[1..] + [] == s;
  }

  /** So an escape right behind a stray percent sign is not decoded: with "41", "%41" is "A", but "%%41" stays. */
  lemma {:induction false} StrayPercentHidesAnEscape(a: char, b: char, signed: bool)
    requires 0 <= Nibble(a) < 8 && Nibble(b) >= 0
    ensures Decode(['%', a, b], signed) == [(16 * Nibble(a) + Nibble(b)) as char]
    ensures Decode(['%', '%', a, b], signed) == ['%', '%', a, b]
  {
    assert ['%', a, b] + [] == ['%', a, b] && ['%', '%', a] + [b] == ['%', '%', a, b] && [b] + [] == [b];
    EscapeDecodesTo(a, b, [], signed);
    EscapeDecodesTo('%', a, [b], signed);
    DecodePlain(b, [], signed);
  }
}
