/**
 * Hexadecimal text for byte strings, as `toHex` produces it (two lower-case
 * digits per byte, no prefix), together with its inverse, which serves as the
 * reference for what an encoded identifier contains.
 */
module Hex {
  import opened Common

  const Digits: string := "0123456789abcdef"

  /** The two digits of one byte, high nibble first. */
  function ByteToHex(b: byte): (r: string)
    ensures |r| == 2
  {
    [Digits[b as int / 16], Digits[b as int % 16]]
  }

  /** `toHex(bytes)`: the concatenation of every byte's two digits. */
  function ToHex(bytes: seq<byte>): (r: string)
    ensures |r| == 2 * |bytes|
  {
    if bytes == [] then "" else ByteToHex(bytes[0]) + ToHex(bytes[1..])
  }

  /** The value of one hexadecimal digit, either case; None for any other character. */
  function DigitValue(c: char): (r: Option<int>)
    ensures r.Some? ==> 0 <= r.value < 16
  {
    if '0' <= c <= '9' then Some(c as int - '0' as int)
    else if 'a' <= c <= 'f' then Some(c as int - 'a' as int + 10)
    else if 'A' <= c <= 'F' then Some(c as int - 'A' as int + 10)
    else None
  }

  /** Reads digit pairs back into bytes; None for an odd length or a non-digit. */
  function FromHex(s: string): (r: Option<seq<byte>>)
    ensures r.Some? ==> 2 * |r.value| == |s|
    decreases |s|
  {
    if s == [] then Some([])
    else if |s| == 1 then None
    else match (DigitValue(s[0]), DigitValue(s[1]), FromHex(s[2..]))
      case (Some(hi), Some(lo), Some(rest)) => Some([(hi * 16 + lo) as byte] + rest)
      case _ => None
  }

  /** Encoding distributes over concatenation, so an encoding starts with the encoding of any prefix. */
  lemma {:induction false} ToHexAppend(a: seq<byte>, b: seq<byte>)
    ensures ToHex(a + b) == ToHex(a) + ToHex(b)
  {
    if a == [] {
      assert a + b == b;
    } else {
      assert (a + b)[1..] == a[1..] + b;
      ToHexAppend(a[1..], b);
    }
  }

  /** Every digit reads back as its own position in the digit alphabet. */
  lemma DigitValueOfDigit(k: int)
    requires 0 <= k < 16
    ensures DigitValue(Digits[k]) == Some(k)
  {
    if k < 10 {
      assert Digits[k] as int == '0' as int + k;
    } else {
      assert Digits[k] as int == 'a' as int + k - 10;
    }
  }

  /** Two leading digits that make up `b` decode to `b`, followed by whatever the rest decodes to. */
  lemma FromHexStep(s: string, t: string, hi: int, lo: int, b: byte)
    requires |s| >= 2 && s[2..] == t
    requires DigitValue(s[0]) == Some(hi) && DigitValue(s[1]) == Some(lo) && hi * 16 + lo == b as int
    ensures FromHex(s) == if FromHex(t).Some? then Some([b] + FromHex(t).value) else None
  {
  }

  /** Decoding reads one byte's two digits back, then decodes what follows them. */
  lemma FromHexByte(b: byte, t: string)
    ensures FromHex(ByteToHex(b) + t) == if FromHex(t).Some? then Some([b] + FromHex(t).value) else None
  {
    var hi, lo := b as int / 16, b as int % 16;
    var s := ByteToHex(b) + t;
    assert s[0] == Digits[hi] && s[1] == Digits[lo] && s[2..] == t;
    DigitValueOfDigit(hi);
    DigitValueOfDigit(lo);
    FromHexStep(s, t, hi, lo, b);
  }

  /** Decoding undoes encoding. */
  lemma {:induction false} FromHexToHex(bytes: seq<byte>)
    ensures FromHex(ToHex(bytes)) == Some(bytes)
  {
    if bytes != [] {
      FromHexByte(bytes[0], ToHex(bytes[1..]));
      FromHexToHex(bytes[1..]);
      assert [bytes[0]] + bytes[1..] == bytes;
    }
  }

  /** Distinct byte strings have distinct encodings. */
  lemma ToHexInjective(a: seq<byte>, b: seq<byte>)
    requires ToHex(a) == ToHex(b)
    ensures a == b
  {
    FromHexToHex(a);
    FromHexToHex(b);
  }
}
