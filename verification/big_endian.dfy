/** Big-endian unsigned integers, as written by encoding/binary. */
module BigEndian {
  import opened Arithmetic

  type byte = b: int | 0 <= b < 256

  const U32: nat := 0x1_0000_0000
  const U64: nat := 0x1_0000_0000_0000_0000

  function Pow256(n: nat): (p: nat)
    ensures p > 0
  {
    if n == 0 then 1 else 256 * Pow256(n - 1)
  }

  /** The low `width` bytes of `v`, most significant first: higher bytes are cut off. */
  function PutUint(width: nat, v: nat): (bs: seq<byte>)
    ensures |bs| == width
    decreases width, v
  {
    if width == 0 then [] else PutUint(width - 1, v / 256) + [v % 256]
  }

  function GetUint(bs: seq<byte>): (v: nat)
    ensures v < Pow256(|bs|)
  {
    if bs == [] then 0 else GetUint(bs[..|bs| - 1]) * 256 + bs[|bs| - 1]
  }

  lemma Pow256Widths()
    ensures Pow256(4) == U32 && Pow256(8) == U64
  {
    assert Pow256(3) == 0x1_00_0000;
    assert Pow256(4) == U32;
    assert Pow256(6) == 0x1_0000_0000_0000;
  }

  /** A value is read back exactly when it fits the width; otherwise the cut-off shows. */
  lemma {:induction false} GetPut(width: nat, v: nat)
    ensures GetUint(PutUint(width, v)) == v <==> v < Pow256(width)
  {
    if width > 0 {
      GetPut(width - 1, v / 256);
      var bs := PutUint(width, v);
      assert bs[..width - 1] == PutUint(width - 1, v / 256);
      assert GetUint(bs) == GetUint(PutUint(width - 1, v / 256)) * 256 + v % 256;
    }
  }

  /** Reading loses nothing: the bytes are a function of the value. */
  lemma {:induction false} PutGet(bs: seq<byte>)
    ensures PutUint(|bs|, GetUint(bs)) == bs
  {
    if bs != [] {
      PutGet(bs[..|bs| - 1]);
      assert GetUint(bs) / 256 == GetUint(bs[..|bs| - 1]);
    }
  }

  /** Byte by byte: the most significant byte comes first. */
  lemma {:induction false} PutByte(width: nat, v: nat, i: nat)
    requires i < width
    ensures PutUint(width, v)[i] == v / Pow256(width - 1 - i) % 256
  {
    if i < width - 1 {
      PutByte(width - 1, v / 256, i);
      DivTwice(v, 256, Pow256(width - 2 - i));
    }
  }
}
