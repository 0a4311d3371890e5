/** Bytes and the fixed-width integers built from them. */
module Bytes {
  type Byte = x: int | 0 <= x < 256

  type Blob = seq<Byte>

  // int.from_bytes(bs, "big")
  function BigEndian(bs: Blob): nat
  {
    if bs == [] then 0 else BigEndian(bs[..|bs| - 1]) * 256 + bs[|bs| - 1]
  }

  function ToBigEndian(n: nat, width: nat): (bs: Blob)
    ensures |bs| == width
  {
    if width == 0 then [] else ToBigEndian(n / 256, width - 1) + [n % 256]
  }

  function Pow256(width: nat): (p: nat)
    ensures p > 0
  {
    if width == 0 then 1 else Pow256(width - 1) * 256
  }

  lemma {:induction false} DecodesBack(n: nat, width: nat)
    requires n < Pow256(width)
    ensures BigEndian(ToBigEndian(n, width)) == n
  {
    if width > 0 {
      DecodesBack(n / 256, width - 1);
      var bs := ToBigEndian(n, width);
      assert bs[..width - 1] == ToBigEndian(n / 256, width - 1);
    }
  }

  lemma {:induction false} EncodesBack(bs: Blob)
    ensures BigEndian(bs) < Pow256(|bs|) && ToBigEndian(BigEndian(bs), |bs|) == bs
  {
    if bs == [] {
    } else {
      var init, last := bs[..|bs| - 1], bs[|bs| - 1];
      EncodesBack(init);
      assert BigEndian(bs) / 256 == BigEndian(init) && BigEndian(bs) % 256 == last;
      assert bs == init + [last];
    }
  }

  lemma {:induction false} Distributes(a: int, w: int, rest: int)
    ensures (a * w + rest) * 256 == a * (w * 256) + rest * 256
  {
  }

  /** The first byte weighs most. */
  lemma {:induction false} FirstWeighsMost(bs: Blob)
    requires bs != []
    ensures BigEndian(bs) == bs[0] * Pow256(|bs| - 1) + BigEndian(bs[1..])
  {
    if |bs| == 1 {
    } else {
      var init := bs[..|bs| - 1];
      FirstWeighsMost(init);
      assert bs[1..][..|bs| - 2] == init[1..];
      var w, rest := Pow256(|bs| - 2), BigEndian(init[1..]);
      assert BigEndian(bs) == (bs[0] * w + rest) * 256 + bs[|bs| - 1];
      Distributes(bs[0], w, rest);
    }
  }

  lemma {:induction false} PowersOf256()
    ensures Pow256(1) == 0x100 && Pow256(2) == 0x1_0000
    ensures Pow256(4) == 0x1_0000_0000 && Pow256(8) == 0x1_0000_0000_0000_0000
  {
    assert Pow256(2) == Pow256(1) * 256 && Pow256(3) == Pow256(2) * 256 && Pow256(4) == Pow256(3) * 256;
    assert Pow256(5) == Pow256(4) * 256 && Pow256(6) == Pow256(5) * 256 && Pow256(7) == Pow256(6) * 256;
  }

  lemma {:induction false} DropOfConcat(a: Blob, b: Blob, k: nat)
    requires k <= |a|
    ensures (a + b)[k..] == a[k..] + b
  {
  }

  lemma {:induction false} DropPrefix(a: Blob, b: Blob)
    ensures (a + b)[|a|..] == b && (a + b)[..|a|] == a
  {
  }

  lemma {:induction false} TakeDrop(s: Blob, k: nat)
    requires k <= |s|
    ensures s == s[..k] + s[k..]
  {
  }

  lemma {:induction false} Regroup(a: Blob, b: Blob, c: Blob)
    ensures (a + b) + c == a + (b + c)
  {
  }

  lemma {:induction false} DropDrop(s: Blob, j: nat, k: nat)
    requires j + k <= |s|
    ensures s[j..][k..] == s[j + k..]
  {
  }

  lemma {:induction false} TakeInTwo(s: Blob, j: nat, k: nat)
    requires j + k <= |s|
    ensures s[..j + k] == s[..j] + s[j..][..k]
  {
  }
}
