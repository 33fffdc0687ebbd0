// UTF-8 as Rust's `String::from_utf8` checks it, and that this is what the Unicode standard defines.
module Utf8 {
  import opened Bytes

  predicate Continuation(b: byte) {
    0x80 <= b <= 0xBF
  }

  predicate ValidUtf8(s: Bytes) {
    Utf8From(s, 0)
  }

  predicate Utf8From(s: Bytes, i: nat)
    requires i <= |s|
    decreases |s| - i
  {
    if i == |s| then true
    else if s[i] < 0x80 then Utf8From(s, i + 1)
    else if 0xC2 <= s[i] <= 0xDF then i + 2 <= |s| && Continuation(s[i + 1]) && Utf8From(s, i + 2)
    else if 0xE0 <= s[i] <= 0xEF then
      && i + 3 <= |s| && Continuation(s[i + 1]) && Continuation(s[i + 2])
      && (s[i] == 0xE0 ==> s[i + 1] >= 0xA0) && (s[i] == 0xED ==> s[i + 1] <= 0x9F)
      && Utf8From(s, i + 3)
    else if 0xF0 <= s[i] <= 0xF4 then
      && i + 4 <= |s| && Continuation(s[i + 1]) && Continuation(s[i + 2]) && Continuation(s[i + 3])
      && (s[i] == 0xF0 ==> s[i + 1] >= 0x90) && (s[i] == 0xF4 ==> s[i + 1] <= 0x8F)
      && Utf8From(s, i + 4)
    else false
  }

  // ---- The encoding ----

  // A code point that is no surrogate.
  predicate IsScalar(c: nat) {
    c < 0xD800 || 0xE000 <= c < 0x11_0000
  }

  function Tail(c: nat): byte {
    (0x80 + c % 64) as byte
  }

  function Encoded(c: nat): (b: Bytes)
    requires IsScalar(c)
  {
    if c < 0x80 then [c as byte]
    else if c < 0x800 then [(0xC0 + c / 64) as byte, Tail(c)]
    else if c < 0x1_0000 then [(0xE0 + c / 4096) as byte, Tail(c / 64), Tail(c)]
    else [(0xF0 + c / 262144) as byte, Tail(c / 4096), Tail(c / 64), Tail(c)]
  }

  function EncodedAll(text: seq<nat>): Bytes
    requires forall i :: 0 <= i < |text| ==> IsScalar(text[i])
  {
    if text == [] then [] else Encoded(text[0]) + EncodedAll(text[1..])
  }

  lemma {:induction false} CharPasses(s: Bytes, i: nat, c: nat)
    requires IsScalar(c) && Occurs(s, i, Encoded(c))
    ensures Utf8From(s, i) <==> Utf8From(s, i + |Encoded(c)|)
  {
    var e := Encoded(c);
    assert s[i + 0] == e[0];
    assert |e| > 1 ==> s[i + 1] == e[1];
    assert |e| > 2 ==> s[i + 2] == e[2];
    assert |e| > 3 ==> s[i + 3] == e[3];
  }

  lemma {:induction false} TextPasses(s: Bytes, i: nat, text: seq<nat>)
    requires forall k :: 0 <= k < |text| ==> IsScalar(text[k])
    requires Occurs(s, i, EncodedAll(text)) && i + |EncodedAll(text)| == |s|
    ensures Utf8From(s, i)
    decreases |text|
  {
    if text != [] {
      OccursSplit(s, i, Encoded(text[0]), EncodedAll(text[1..]));
      CharPasses(s, i, text[0]);
      TextPasses(s, i + |Encoded(text[0])|, text[1..]);
    }
  }

  // The character at the front of what is left.
  function CharAt(s: Bytes, i: nat): nat
    requires i < |s| && Utf8From(s, i)
  {
    if s[i] < 0x80 then s[i] as nat
    else if s[i] <= 0xDF then 64 * (s[i] as nat - 0xC0) + (s[i + 1] as nat - 0x80)
    else if s[i] <= 0xEF then
      4096 * (s[i] as nat - 0xE0) + 64 * (s[i + 1] as nat - 0x80) + (s[i + 2] as nat - 0x80)
    else
      262144 * (s[i] as nat - 0xF0) + 4096 * (s[i + 1] as nat - 0x80) + 64 * (s[i + 2] as nat - 0x80)
      + (s[i + 3] as nat - 0x80)
  }

  lemma {:induction false} LastSix(high: nat, low: nat)
    requires low < 64
    ensures (64 * high + low) / 64 == high && (64 * high + low) % 64 == low
  {
  }

  // A number from groups of six bits.
  lemma {:induction false} Groups(a: nat, b: nat, c: nat, d: nat)
    requires b < 64 && c < 64 && d < 64
    ensures var n := 262144 * a + 4096 * b + 64 * c + d;
            n / 262144 == a && n / 4096 % 64 == b && n / 64 % 64 == c && n % 64 == d
  {
    var n := 262144 * a + 4096 * b + 64 * c + d;
    var n1 := 4096 * a + 64 * b + c;
    var n2 := 64 * a + b;
    LastSix(n1, d);
    LastSix(n2, c);
    LastSix(a, b);
    assert n == 64 * n1 + d && n1 == 64 * n2 + c;
    assert n / 64 == n1 && n / 4096 == n1 / 64 && n / 262144 == n2 / 64;
  }

  lemma {:induction false} OneByte(s: Bytes, i: nat)
    requires i < |s| && s[i] < 0x80
    ensures Encoded(s[i] as nat) == [s[i]] == s[i..i + 1]
  {
  }

  lemma {:induction false} TwoBytes(s: Bytes, i: nat)
    requires i < |s| && Utf8From(s, i) && 0x80 <= s[i] <= 0xDF
    ensures i + 2 <= |s| && IsScalar(CharAt(s, i)) && Encoded(CharAt(s, i)) == [s[i], s[i + 1]]
  {
    LastSix(s[i] as nat - 0xC0, s[i + 1] as nat - 0x80);
  }

  lemma {:induction false} ThreeBytes(s: Bytes, i: nat)
    requires i < |s| && Utf8From(s, i) && 0xE0 <= s[i] <= 0xEF
    ensures i + 3 <= |s| && IsScalar(CharAt(s, i)) && Encoded(CharAt(s, i)) == [s[i], s[i + 1], s[i + 2]]
  {
    var a, b, c := s[i] as nat - 0xE0, s[i + 1] as nat - 0x80, s[i + 2] as nat - 0x80;
    Groups(0, a, b, c);
    LastSix(64 * a + b, c);
    LastSix(a, b);
    assert CharAt(s, i) / 4096 == a;
  }

  lemma {:induction false} FourBytes(s: Bytes, i: nat)
    requires i < |s| && Utf8From(s, i) && 0xF0 <= s[i]
    ensures i + 4 <= |s| && IsScalar(CharAt(s, i)) && Encoded(CharAt(s, i)) == [s[i], s[i + 1], s[i + 2], s[i + 3]]
  {
    Groups(s[i] as nat - 0xF0, s[i + 1] as nat - 0x80, s[i + 2] as nat - 0x80, s[i + 3] as nat - 0x80);
  }

  lemma {:induction false} CharIsEncoded(s: Bytes, i: nat)
    requires i < |s| && Utf8From(s, i)
    ensures IsScalar(CharAt(s, i))
    ensures var n := |Encoded(CharAt(s, i))|;
            n > 0 && i + n <= |s| && Utf8From(s, i + n) && s[i..i + n] == Encoded(CharAt(s, i))
  {
    if s[i] < 0x80 {
      OneByte(s, i);
    } else if s[i] <= 0xDF {
      TwoBytes(s, i);
      assert s[i..i + 2] == [s[i], s[i + 1]];
    } else if s[i] <= 0xEF {
      ThreeBytes(s, i);
      assert s[i..i + 3] == [s[i], s[i + 1], s[i + 2]];
    } else {
      FourBytes(s, i);
      assert s[i..i + 4] == [s[i], s[i + 1], s[i + 2], s[i + 3]];
    }
  }

  lemma {:induction false} FirstThenRest(s: Bytes, i: nat, first: Bytes, rest: Bytes)
    requires i + |first| <= |s| && s[i..i + |first|] == first && s[i + |first|..] == rest
    ensures s[i..] == first + rest
  {
  }

  lemma {:induction false} TextIsEncoded(s: Bytes, i: nat) returns (text: seq<nat>)
    requires i <= |s| && Utf8From(s, i)
    ensures forall k :: 0 <= k < |text| ==> IsScalar(text[k])
    ensures s[i..] == EncodedAll(text)
    decreases |s| - i
  {
    if i == |s| {
      text := [];
    } else {
      CharIsEncoded(s, i);
      var c := CharAt(s, i);
      var rest := TextIsEncoded(s, i + |Encoded(c)|);
      FirstThenRest(s, i, Encoded(c), EncodedAll(rest));
      text := [c] + rest;
      assert text[1..] == rest;
    }
  }

  // What is accepted is exactly what encodes code points that are no surrogates, each in its shortest
  // form (section 3.9 of the Unicode standard).
  lemma {:induction false} ValidIsEncoded(s: Bytes)
    ensures ValidUtf8(s) <==>
            exists text: seq<nat> :: (forall k :: 0 <= k < |text| ==> IsScalar(text[k])) && s == EncodedAll(text)
  {
    if ValidUtf8(s) {
      var text := TextIsEncoded(s, 0);
      assert s[0..] == s;
    }
    if text: seq<nat> :| (forall k :: 0 <= k < |text| ==> IsScalar(text[k])) && s == EncodedAll(text) {
      OccursWhole(s);
      TextPasses(s, 0, text);
    }
  }
}
