// Fixed-width hexadecimal, as Rust formats it (`{:04x}`, `{:016x}`) and parses it (`from_str_radix`).
module Hex {
  import opened Wrappers
  import opened Bytes

  const PLUS: byte := 43

  function HexDigit(d: nat): byte
    requires d < 16
  {
    if d < 10 then (48 + d) as byte else (87 + d) as byte
  }

  function HexValue(b: byte): (v: Option<nat>)
    ensures v.Some? ==> v.value < 16
  {
    if 48 <= b <= 57 then Some(b as nat - 48)
    else if 97 <= b <= 102 then Some(b as nat - 87)
    else if 65 <= b <= 70 then Some(b as nat - 55)
    else None
  }

  // The `width` low hexadecimal digits of `x`, most significant first.
  function HexDigits(x: nat, width: nat): (h: Bytes)
    ensures |h| == width
  {
    if width == 0 then [] else HexDigits(x / 16, width - 1) + [HexDigit(x % 16)]
  }

  predicate IsDigit(b: byte, d: nat) {
    d < 16 && b as int == "0123456789abcdef"[d] as int
  }

  // Four digits said outright.
  lemma {:induction false} FourDigits(x: nat)
    requires x < 0x1_0000
    ensures var h := HexDigits(x, 4);
            && IsDigit(h[0], x / 4096) && IsDigit(h[1], x / 256 % 16)
            && IsDigit(h[2], x / 16 % 16) && IsDigit(h[3], x % 16)
  {
    Sixteenths(x);
    LastDigit(x, 4);
    LastDigit(x / 16, 3);
    LastDigit(x / 16 / 16, 2);
    LastDigit(x / 16 / 16 / 16, 1);
  }

  lemma {:induction false} Sixteenths(x: nat)
    requires x < 0x1_0000
    ensures x / 16 / 16 == x / 256 && x / 16 / 16 / 16 == x / 4096 < 16 && x / 4096 % 16 == x / 4096
  {
  }

  lemma {:induction false} LastDigit(x: nat, width: nat)
    requires width > 0
    ensures IsDigit(HexDigits(x, width)[width - 1], x % 16)
    ensures HexDigits(x, width)[..width - 1] == HexDigits(x / 16, width - 1)
  {
  }

  function Pow16(n: nat): nat {
    if n == 0 then 1 else 16 * Pow16(n - 1)
  }

  function ParseHex(h: Bytes): Option<nat> {
    if h == [] then Some(0)
    else
      match (ParseHex(h[..|h| - 1]), HexValue(h[|h| - 1]))
      case (Some(high), Some(low)) => Some(16 * high + low)
      case _ => None
  }

  // Either case of digit, and a leading plus sign. The callers pass too few digits to overflow.
  function FromRadix16(h: Bytes): Option<nat>
    requires |h| > 1
  {
    if h[0] == PLUS then ParseHex(h[1..]) else ParseHex(h)
  }

  lemma {:induction false} HexRoundTrip(x: nat, width: nat)
    requires x < Pow16(width)
    ensures ParseHex(HexDigits(x, width)) == Some(x)
    ensures width > 1 ==> FromRadix16(HexDigits(x, width)) == Some(x)
  {
    if width > 0 {
      HexRoundTrip(x / 16, width - 1);
      assert HexDigits(x, width)[..width - 1] == HexDigits(x / 16, width - 1);
      if width > 1 {
        NoPlus(x, width);
      }
    }
  }

  lemma {:induction false} NoPlus(x: nat, width: nat)
    requires width > 0
    ensures HexDigits(x, width)[0] != PLUS
  {
    if width > 1 {
      NoPlus(x / 16, width - 1);
      assert HexDigits(x, width)[0] == HexDigits(x / 16, width - 1)[0];
    }
  }
}
