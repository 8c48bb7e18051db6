/** Little-endian byte images of unsigned integers, shared by every module that reads or writes a wire format. */
module Bytes {

  type Byte = b: int | 0 <= b < 256

  function Pow256(k: nat): (p: nat)
    ensures p >= 1
  {
    if k == 0 then 1 else 256 * Pow256(k - 1)
  }

  /** The `width` low-order bytes of `n`, least significant first: the memory image on a little-endian machine. */
  function Little(n: nat, width: nat): (bs: seq<Byte>)
    ensures |bs| == width
  {
    if width == 0 then [] else [n % 256] + Little(n / 256, width - 1)
  }

  function Value(bs: seq<Byte>): (n: nat)
    ensures n < Pow256(|bs|)
  {
    if bs == [] then 0 else bs[0] + 256 * Value(bs[1..])
  }

  lemma {:induction false} ValueOfLittle(n: nat, width: nat)
    requires n < Pow256(width)
    ensures Value(Little(n, width)) == n
  {
    if width > 0 {
      ValueOfLittle(n / 256, width - 1);
      assert Little(n, width)[1..] == Little(n / 256, width - 1);
    }
  }

  lemma {:induction false} LittleOfValue(bs: seq<Byte>)
    ensures Little(Value(bs), |bs|) == bs
  {
    if bs != [] {
      var rest := Value(bs[1..]);
      assert (bs[0] + 256 * rest) % 256 == bs[0] && (bs[0] + 256 * rest) / 256 == rest;
      LittleOfValue(bs[1..]);
      assert [bs[0]] + bs[1..] == bs;
    }
  }

  function U16(bs: seq<Byte>, at: nat): (n: nat)
    requires at + 2 <= |bs|
  {
    Value(bs[at..at + 2])
  }

  function U32(bs: seq<Byte>, at: nat): (n: nat)
    requires at + 4 <= |bs|
    ensures n < 0x1_0000_0000
  {
    assert Pow256(4) == 0x1_0000_0000;
    Value(bs[at..at + 4])
  }
}
