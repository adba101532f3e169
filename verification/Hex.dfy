/** Hexadecimal text for bytes. */
module Hex {
  import opened Octets
  import opened Outcomes

  /** The value of a hex digit of either case, or -1. */
  function HexVal(c: char): (v: int)
    ensures -1 <= v < 16
  {
    if '0' <= c <= '9' then c as int - '0' as int
    else if 'a' <= c <= 'f' then c as int - 'a' as int + 10
    else if 'A' <= c <= 'F' then c as int - 'A' as int + 10
    else -1
  }

  function Digit(v: int): (c: char)
    requires 0 <= v < 16
    ensures HexVal(c) == v
  {
    "0123456789abcdef"[v]
  }

  function LowerCase(c: char): char {
    if 'A' <= c <= 'F' then (c as int + 32) as char else c
  }

  function Lower(s: string): string {
    seq(|s|, i requires 0 <= i < |s| => LowerCase(s[i]))
  }

  /** Digit `i` of the text for `bytes`. */
  function DigitAt(bytes: seq<Byte>, i: int): char
    requires 0 <= i < 2 * |bytes|
  {
    if i % 2 == 0 then Digit(bytes[i / 2] / 16) else Digit(bytes[i / 2] % 16)
  }

  function Encoded(bytes: seq<Byte>): (s: string)
    ensures |s| == 2 * |bytes|
  {
    seq(2 * |bytes|, i requires 0 <= i < 2 * |bytes| => DigitAt(bytes, i))
  }

  ghost predicate AllDigits(s: string) {
    forall i :: 0 <= i < |s| ==> HexVal(s[i]) >= 0
  }

  function PairValue(hi: char, lo: char): Byte
    requires HexVal(hi) >= 0 && HexVal(lo) >= 0
  {
    16 * HexVal(hi) + HexVal(lo)
  }

  /** The bytes an even run of digits stands for. */
  function Decoded(s: string): (bytes: seq<Byte>)
    requires |s| % 2 == 0 && AllDigits(s)
    ensures 2 * |bytes| == |s|
  {
    seq(|s| / 2, i requires 0 <= i < |s| / 2 => PairValue(s[2 * i], s[2 * i + 1]))
  }

  method HexEncode(bytes: seq<Byte>) returns (out: string)
    ensures out == Encoded(bytes)
  {
    out := [];
    for i := 0 to |bytes|
      invariant |out| == 2 * i
      invariant forall k :: 0 <= k < 2 * i ==> out[k] == DigitAt(bytes, k)
    {
      out := out + [Digit(bytes[i] / 16)];
      out := out + [Digit(bytes[i] % 16)];
    }
  }

  /** Fails exactly on odd lengths and foreign characters. */
  method HexDecode(hex: string) returns (r: Result<seq<Byte>>)
    ensures r.Ok? <==> |hex| % 2 == 0 && AllDigits(hex)
    ensures r.Ok? ==> r.value == Decoded(hex)
  {
    if |hex| % 2 != 0 {
      return Err("hex_decode: odd length");
    }
    var out: seq<Byte> := [];
    var i := 0;
    while i < |hex|
      invariant i <= |hex| && i % 2 == 0 && |out| == i / 2
      invariant forall k :: 0 <= k < i ==> HexVal(hex[k]) >= 0
      invariant forall k :: 0 <= k < i / 2 ==> out[k] == PairValue(hex[2 * k], hex[2 * k + 1])
      decreases |hex| - i
    {
      var hi, lo := HexVal(hex[i]), HexVal(hex[i + 1]);
      if hi < 0 || lo < 0 {
        return Err("hex_decode: invalid digit");
      }
      out := out + [hi * 16 + lo];
      i := i + 2;
    }
    return Ok(out);
  }

  /** The digits, spelled out. */
  lemma DigitValues(c: char)
    ensures '0' <= c <= '9' ==> HexVal(c) == c as int - 0x30
    ensures 'a' <= c <= 'f' ==> HexVal(c) == c as int - 0x61 + 10
    ensures 'A' <= c <= 'F' ==> HexVal(c) == c as int - 0x41 + 10
    ensures HexVal(c) < 0 <==> !('0' <= c <= '9' || 'a' <= c <= 'f' || 'A' <= c <= 'F')
  {
  }

  lemma DigitsOfByte(b: Byte)
    ensures PairValue(Digit(b / 16), Digit(b % 16)) == b
  {
  }

  lemma DigitsOfPair(hi: char, lo: char)
    requires HexVal(hi) >= 0 && HexVal(lo) >= 0
    ensures var b := PairValue(hi, lo);
            Digit(b / 16) == LowerCase(hi) && Digit(b % 16) == LowerCase(lo)
  {
  }

  lemma DigitPairAt(bytes: seq<Byte>, i: nat)
    requires i < |bytes|
    ensures Encoded(bytes)[2 * i] == Digit(bytes[i] / 16) && Encoded(bytes)[2 * i + 1] == Digit(bytes[i] % 16)
  {
    assert DigitAt(bytes, 2 * i + 1) == Digit(bytes[i] % 16);
  }

  /** Decoding encoded bytes gives them back, whatever they are. */
  lemma DecodeInvertsEncode(bytes: seq<Byte>)
    ensures AllDigits(Encoded(bytes)) && Decoded(Encoded(bytes)) == bytes
  {
    var s := Encoded(bytes);
    forall i | 0 <= i < |bytes|
      ensures Decoded(s)[i] == bytes[i]
    {
      DigitPairAt(bytes, i);
      DigitsOfByte(bytes[i]);
    }
  }

  lemma DigitOfDecoded(s: string, i: nat)
    requires |s| % 2 == 0 && AllDigits(s) && i < |s|
    ensures DigitAt(Decoded(s), i) == LowerCase(s[i])
  {
    var k := i / 2;
    assert Decoded(s)[k] == PairValue(s[2 * k], s[2 * k + 1]);
    DigitsOfPair(s[2 * k], s[2 * k + 1]);
    assert i == 2 * k + i % 2;
  }

  /** Re-encoding decoded text gives it back in lower case. */
  lemma EncodeInvertsDecode(s: string)
    requires |s| % 2 == 0 && AllDigits(s)
    ensures Encoded(Decoded(s)) == Lower(s)
  {
    var t := Encoded(Decoded(s));
    forall i | 0 <= i < |s|
      ensures t[i] == Lower(s)[i]
    {
      DigitOfDecoded(s, i);
    }
  }
}
