/**
  Which byte strings decode as UTF-8 text: exactly the encodings of sequences of
  Unicode scalar values (RFC 3629 section 3).
 */
module Utf8Text {
  import opened Bytes
  import opened CborValues

  predicate IsScalar(c: nat)
  {
    c <= 0x10FFFF && !(0xD800 <= c <= 0xDFFF)
  }

  // The low six bits of c, shifted down, in a continuation byte.
  function Tail(c: nat, divisor: nat): (b: Byte)
    requires divisor > 0
  {
    0x80 + c / divisor % 64
  }

  function ScalarBytes(c: nat): (bs: Blob)
    requires IsScalar(c)
    ensures 1 <= |bs| <= 4
  {
    if c < 0x80 then [c]
    else if c < 0x800 then [0xC0 + c / 64, Tail(c, 1)]
    else if c < 0x1_0000 then [0xE0 + c / 4096, Tail(c, 64), Tail(c, 1)]
    else [0xF0 + c / 262144, Tail(c, 4096), Tail(c, 64), Tail(c, 1)]
  }

  predicate AllScalar(cs: seq<nat>)
  {
    forall i | 0 <= i < |cs| :: IsScalar(cs[i])
  }

  function TextBytes(cs: seq<nat>): Blob
    requires AllScalar(cs)
  {
    if cs == [] then [] else ScalarBytes(cs[0]) + TextBytes(cs[1..])
  }

  // The shape of an encoded scalar value, by its length.
  lemma {:induction false} ScalarShape(c: nat)
    requires IsScalar(c)
    ensures var bs := ScalarBytes(c);
            && Continues(bs, 1, |bs|)
            && (|bs| == 1 ==> bs[0] <= 0x7F)
            && (|bs| == 2 ==> 0xC2 <= bs[0] <= 0xDF)
            && (|bs| == 3 ==> 0xE0 <= bs[0] <= 0xEF)
            && (|bs| == 3 ==> (bs[0] == 0xE0 ==> bs[1] >= 0xA0) && (bs[0] == 0xED ==> bs[1] <= 0x9F))
            && (|bs| == 4 ==> 0xF0 <= bs[0] <= 0xF4)
            && (|bs| == 4 ==> (bs[0] == 0xF0 ==> bs[1] >= 0x90) && (bs[0] == 0xF4 ==> bs[1] <= 0x8F))
  {
  }

  lemma {:induction false} ScalarIsStep(c: nat, more: Blob)
    requires IsScalar(c)
    ensures Utf8Step(ScalarBytes(c) + more) == |ScalarBytes(c)|
  {
    ScalarShape(c);
    var bs := ScalarBytes(c);
    assert forall i | 0 <= i < |bs| :: (bs + more)[i] == bs[i];
  }

  lemma {:induction false} StepIsScalar(b: Blob) returns (c: nat)
    requires Utf8Step(b) > 0
    ensures IsScalar(c) && b[..Utf8Step(b)] == ScalarBytes(c)
  {
    var n := Utf8Step(b);
    if n == 1 {
      c := b[0];
    } else if n == 2 {
      var x: int, y: int := b[0], b[1];
      c := (x - 0xC0) * 64 + (y - 0x80);
    } else if n == 3 {
      var x: int, y: int, z: int := b[0], b[1], b[2];
      c := (x - 0xE0) * 4096 + (y - 0x80) * 64 + (z - 0x80);
      ThreeDigits(x - 0xE0, y - 0x80, z - 0x80);
    } else {
      var w: int, x: int, y: int, z: int := b[0], b[1], b[2], b[3];
      c := (w - 0xF0) * 262144 + (x - 0x80) * 4096 + (y - 0x80) * 64 + (z - 0x80);
      FourDigits(w - 0xF0, x - 0x80, y - 0x80, z - 0x80);
    }
  }

  lemma {:induction false} ThreeDigits(x: nat, y: nat, z: nat)
    requires y < 64 && z < 64
    ensures var c := x * 4096 + y * 64 + z; c / 4096 == x && c / 64 % 64 == y && c % 64 == z
  {
    var c := x * 4096 + y * 64 + z;
    assert c / 64 == x * 64 + y;
  }

  lemma {:induction false} FourDigits(w: nat, x: nat, y: nat, z: nat)
    requires x < 64 && y < 64 && z < 64
    ensures var c := w * 262144 + x * 4096 + y * 64 + z;
            c / 262144 == w && c / 4096 % 64 == x && c / 64 % 64 == y && c % 64 == z
  {
    var c := w * 262144 + x * 4096 + y * 64 + z;
    assert c / 64 == w * 4096 + x * 64 + y;
    assert c / 4096 == w * 64 + x;
  }

  lemma {:induction false} TextIsValid(cs: seq<nat>)
    requires AllScalar(cs)
    ensures ValidUtf8(TextBytes(cs))
  {
    if cs == [] {
    } else {
      var first, rest := ScalarBytes(cs[0]), TextBytes(cs[1..]);
      TextIsValid(cs[1..]);
      ScalarIsStep(cs[0], rest);
      DropPrefix(first, rest);
    }
  }

  lemma {:induction false} ValidIsText(b: Blob) returns (cs: seq<nat>)
    requires ValidUtf8(b)
    ensures AllScalar(cs) && TextBytes(cs) == b
  {
    if b == [] {
      cs := [];
    } else {
      var c := StepIsScalar(b);
      var rest := ValidIsText(b[Utf8Step(b)..]);
      cs := [c] + rest;
      assert cs[1..] == rest;
      TakeDrop(b, Utf8Step(b));
    }
  }

  /** Bytes are accepted as text if and only if they encode some sequence of scalar values. */
  lemma {:induction false} ValidExactly(b: Blob)
    ensures ValidUtf8(b) <==> exists cs :: AllScalar(cs) && TextBytes(cs) == b
  {
    if ValidUtf8(b) {
      var cs := ValidIsText(b);
    }
    if cs :| AllScalar(cs) && TextBytes(cs) == b {
      TextIsValid(cs);
    }
  }
}
