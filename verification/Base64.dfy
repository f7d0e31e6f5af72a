/** Base64 with the standard alphabet and padding: section 4 of RFC 4648. */
module Base64 {
  import opened Text

  type Byte = b: int | 0 <= b < 256

  type Sextet = v: int | 0 <= v < 64

  /** `A`-`Z`, `a`-`z`, `0`-`9`, `+`, `/`. */
  function CharOf(v: Sextet): char {
    if v < 26 then 'A' + v as char
    else if v < 52 then 'a' + (v - 26) as char
    else if v < 62 then '0' + (v - 52) as char
    else if v == 62 then '+'
    else '/'
  }

  function ValueOf(c: char): Option<Sextet> {
    if 'A' <= c <= 'Z' then Some((c - 'A') as int)
    else if 'a' <= c <= 'z' then Some((c - 'a') as int + 26)
    else if '0' <= c <= '9' then Some((c - '0') as int + 52)
    else if c == '+' then Some(62)
    else if c == '/' then Some(63)
    else None
  }

  // Three bytes as four groups of six bits, and back. A short last group is filled with zero bits.
  function First(x: Byte): Sextet { x / 4 }
  function Second(x: Byte, y: Byte): Sextet { x % 4 * 16 + y / 16 }
  function Third(y: Byte, z: Byte): Sextet { y % 16 * 4 + z / 64 }
  function Fourth(z: Byte): Sextet { z % 64 }
  function LastSecond(x: Byte): Sextet { x % 4 * 16 }
  function LastThird(y: Byte): Sextet { y % 16 * 4 }
  function Byte0(a: Sextet, b: Sextet): Byte { a * 4 + b / 16 }
  function Byte1(b: Sextet, c: Sextet): Byte { b % 16 * 16 + c / 4 }
  function Byte2(c: Sextet, d: Sextet): Byte { c % 4 * 64 + d }

  function Group1(x: Byte): string { [CharOf(First(x)), CharOf(LastSecond(x)), '=', '='] }

  function Group2(x: Byte, y: Byte): string { [CharOf(First(x)), CharOf(Second(x, y)), CharOf(LastThird(y)), '='] }

  function Group3(x: Byte, y: Byte, z: Byte): string {
    [CharOf(First(x)), CharOf(Second(x, y)), CharOf(Third(y, z)), CharOf(Fourth(z))]
  }

  function Encode(bytes: seq<Byte>): string {
    if bytes == [] then ""
    else if |bytes| == 1 then Group1(bytes[0])
    else if |bytes| == 2 then Group2(bytes[0], bytes[1])
    else Group3(bytes[0], bytes[1], bytes[2]) + Encode(bytes[3..])
  }

  /** Decodes whole groups of four; padding only in the last one. */
  function Decode(s: string): Option<seq<Byte>>
    decreases |s|
  {
    if s == "" then Some([])
    else if |s| < 4 then None
    else
      match (ValueOf(s[0]), ValueOf(s[1]))
      case (Some(a), Some(b)) =>
        if s[2] == '=' && s[3] == '=' && |s| == 4 then Some([Byte0(a, b)])
        else
          (match ValueOf(s[2])
           case Some(c) =>
             if s[3] == '=' && |s| == 4 then Some([Byte0(a, b), Byte1(b, c)])
             else
               (match (ValueOf(s[3]), Decode(s[4..]))
                case (Some(d), Some(rest)) => Some([Byte0(a, b), Byte1(b, c), Byte2(c, d)] + rest)
                case _ => None)
           case None => None)
      case _ => None
  }

  lemma ValueOfCharOf(v: Sextet)
    ensures ValueOf(CharOf(v)) == Some(v) && CharOf(v) != '=' && CharOf(v) != '.'
  {
  }

  lemma DecodeGroup1(x: Byte)
    ensures Decode(Group1(x)) == Some([x])
  {
  }

  lemma DecodeGroup2(x: Byte, y: Byte)
    ensures Decode(Group2(x, y)) == Some([x, y])
  {
    assert Byte0(First(x), Second(x, y)) == x && Byte1(Second(x, y), LastThird(y)) == y;
    ValueOfCharOf(First(x));
    ValueOfCharOf(Second(x, y));
    ValueOfCharOf(LastThird(y));
    hide CharOf, ValueOf, First, Second, LastThird, Byte0, Byte1;
  }

  lemma DecodeGroup3(x: Byte, y: Byte, z: Byte, rest: string)
    requires Decode(rest).Some?
    ensures Decode(Group3(x, y, z) + rest) == Some([x, y, z] + Decode(rest).value)
  {
    assert Byte0(First(x), Second(x, y)) == x && Byte1(Second(x, y), Third(y, z)) == y
      && Byte2(Third(y, z), Fourth(z)) == z;
    ValueOfCharOf(First(x));
    ValueOfCharOf(Second(x, y));
    ValueOfCharOf(Third(y, z));
    ValueOfCharOf(Fourth(z));
    hide CharOf, ValueOf, First, Second, Third, Fourth, Byte0, Byte1, Byte2;
    assert (Group3(x, y, z) + rest)[4..] == rest;
  }

  lemma {:induction false} EncodeHasNoDot(bytes: seq<Byte>)
    ensures Free(Encode(bytes), '.')
  {
    if |bytes| > 2 {
      EncodeHasNoDot(bytes[3..]);
    }
  }

  /** Decoding undoes encoding at every length. */
  lemma {:induction false} DecodeEncode(bytes: seq<Byte>)
    ensures Decode(Encode(bytes)) == Some(bytes)
  {
    hide Group1, Group2, Group3;
    if |bytes| == 1 {
      DecodeGroup1(bytes[0]);
      hide Decode;
      assert bytes == [bytes[0]];
    } else if |bytes| == 2 {
      DecodeGroup2(bytes[0], bytes[1]);
      hide Decode;
      assert bytes == [bytes[0], bytes[1]];
    } else if bytes != [] {
      DecodeEncode(bytes[3..]);
      DecodeGroup3(bytes[0], bytes[1], bytes[2], Encode(bytes[3..]));
      hide Decode;
      assert bytes == [bytes[0], bytes[1], bytes[2]] + bytes[3..];
    }
  }

  /** Section 10 of RFC 4648, and the two characters in which base64url would differ. */
  lemma Vectors()
    ensures Encode([102]) == "Zg==" && Encode([102, 111]) == "Zm8=" && Encode([102, 111, 111]) == "Zm9v"
    ensures Encode([102, 111, 111, 98, 97, 114]) == "Zm9vYmFy"
    ensures Encode([251, 255]) == "+/8="
  {
    assert [102, 111, 111, 98, 97, 114][3..] == [98, 97, 114];
  }

  /** The alphabet of section 4 of RFC 4648: two alphabets, the digits and two signs, each in order. */
  lemma AlphabetIs(v: Sextet)
    ensures CharOf(0) == 'A' && CharOf(25) == 'Z' && CharOf(26) == 'a' && CharOf(51) == 'z'
    ensures CharOf(52) == '0' && CharOf(61) == '9' && CharOf(62) == '+' && CharOf(63) == '/'
    ensures v < 61 && v != 25 && v != 51 ==> CharOf(v + 1) as int == CharOf(v) as int + 1
  {
  }

  /** A group of characters spells the bits of its bytes from the first to the last, zeros at the end. */
  lemma GroupsSpellBits(x: Byte, y: Byte, z: Byte)
    ensures ((First(x) * 64 + Second(x, y)) * 64 + Third(y, z)) * 64 + Fourth(z) == (x * 256 + y) * 256 + z
    ensures (First(x) * 64 + Second(x, y)) * 64 + LastThird(y) == (x * 256 + y) * 4
    ensures First(x) * 64 + LastSecond(x) == x * 16
  {
  }
}
