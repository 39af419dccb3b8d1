/**
 * EPC bytes as upper-case hexadecimal text: the encoder the older C wrapper
 * writes into caller buffers (src/mercuryapi_wrapper.c, `kHex`), and a decoder
 * that shows the text determines the bytes.
 */
module Hex {
  import opened BoundedInts
  import opened Wrappers

  /** The wrapper's digit table `kHex`. */
  const HexDigits: string := "0123456789ABCDEF"

  /** The terminator the C wrapper writes after the digits. */
  const Nul: char := '\0'

  /** Entry `v` of HexDigits, computed rather than looked up. */
  function Digit(v: int): (c: char)
    requires 0 <= v < 16
    ensures IsHexDigit(c)
  {
    if v < 10 then ('0' as int + v) as char else ('A' as int + v - 10) as char
  }

  /** The characters of HexDigits: decimal digits and upper-case A to F. */
  predicate IsHexDigit(c: char) {
    '0' <= c <= '9' || 'A' <= c <= 'F'
  }

  /** Digit is the table `kHex`, entry by entry. */
  lemma DigitIsTableEntry()
    ensures |HexDigits| == 16
    ensures forall v :: 0 <= v < 16 ==> Digit(v) == HexDigits[v]
  {
  }

  /** Every byte becomes two digits, high nibble `(b >> 4) & 0xF` first, then `b & 0xF`. */
  function HexEncode(bytes: seq<u8>): (s: string)
    ensures |s| == 2 * |bytes|
    ensures forall i :: 0 <= i < |bytes| ==>
              s[2 * i] == Digit(bytes[i] / 16) && s[2 * i + 1] == Digit(bytes[i] % 16)
  {
    if bytes == [] then [] else [Digit(bytes[0] / 16), Digit(bytes[0] % 16)] + HexEncode(bytes[1..])
  }

  /** The output is upper-case hexadecimal text. */
  lemma HexEncodeIsUpperHex(bytes: seq<u8>)
    ensures forall k :: 0 <= k < |HexEncode(bytes)| ==> IsHexDigit(HexEncode(bytes)[k])
  {
    var s := HexEncode(bytes);
    forall k | 0 <= k < |s| ensures IsHexDigit(s[k]) {
      assert s[2 * (k / 2) + k % 2] == s[k];
    }
  }

  /** The value of one upper-case hexadecimal digit, or None for any other character. */
  function DigitValue(c: char): (v: Option<int>)
    ensures v.Some? <==> IsHexDigit(c)
    ensures v.Some? ==> 0 <= v.value < 16 && Digit(v.value) == c
  {
    if '0' <= c <= '9' then Some(c as int - '0' as int)
    else if 'A' <= c <= 'F' then Some(c as int - 'A' as int + 10)
    else None
  }

  /** Reads text of even length made of hexadecimal digits back into bytes. */
  function HexDecode(s: string): (r: Option<seq<u8>>)
    ensures r.Some? ==> |s| == 2 * |r.value|
    decreases |s|
  {
    if |s| == 0 then Some([])
    else if |s| == 1 then None
    else
      match (DigitValue(s[0]), DigitValue(s[1]), HexDecode(s[2..]))
      case (Some(hi), Some(lo), Some(rest)) => Some([hi * 16 + lo] + rest)
      case _ => None
  }

  lemma DigitValueOfDigit(v: int)
    requires 0 <= v < 16
    ensures DigitValue(Digit(v)) == Some(v)
  {
  }

  /** Decoding undoes encoding: the hex text of an EPC determines its bytes. */
  lemma {:induction false} DecodeEncode(bytes: seq<u8>)
    ensures HexDecode(HexEncode(bytes)) == Some(bytes)
  {
    if bytes != [] {
      var s := HexEncode(bytes);
      var hi, lo := bytes[0] / 16, bytes[0] % 16;
      assert s[2..] == HexEncode(bytes[1..]);
      DigitValueOfDigit(hi);
      DigitValueOfDigit(lo);
      DecodeEncode(bytes[1..]);
      assert HexDecode(s) == Some([hi * 16 + lo] + bytes[1..]);
      assert [bytes[0]] + bytes[1..] == bytes;
    }
  }

  /** Encoding undoes decoding: text the decoder accepts is exactly the encoder's output. */
  lemma {:induction false} EncodeDecode(s: string)
    requires HexDecode(s).Some?
    ensures HexEncode(HexDecode(s).value) == s
    decreases |s|
  {
    if |s| >= 2 {
      var hi := DigitValue(s[0]).value;
      var lo := DigitValue(s[1]).value;
      var rest := HexDecode(s[2..]).value;
      EncodeDecode(s[2..]);
      var b := hi * 16 + lo;
      assert b / 16 == hi && b % 16 == lo;
      var bytes := HexDecode(s).value;
      assert bytes == [b] + rest;
      assert bytes[1..] == rest;
      assert s == [s[0], s[1]] + s[2..];
    }
  }

  /**
   * The wrapper's `for` loop: the digits of `epc` go to buf[0 .. 2n), the
   * terminator to buf[2n], and the rest of the caller's buffer is untouched.
   */
  method WriteHex(buf: array<char>, epc: seq<u8>)
    requires 2 * |epc| + 1 <= buf.Length
    modifies buf
    ensures buf[..2 * |epc|] == HexEncode(epc)
    ensures buf[2 * |epc|] == Nul
    ensures buf[2 * |epc| + 1..] == old(buf[2 * |epc| + 1..])
  {
    ghost var text := HexEncode(epc);
    var i := 0;
    while i < |epc|
      invariant 0 <= i <= |epc|
      invariant forall k :: 0 <= k < 2 * i ==> buf[k] == text[k]
      invariant buf[2 * i..] == old(buf[2 * i..])
    {
      buf[i * 2 + 0] := Digit(epc[i] / 16);
      buf[i * 2 + 1] := Digit(epc[i] % 16);
      i := i + 1;
    }
    buf[|epc| * 2] := Nul;
  }
}
