/** Numbers as bytes in network order. */
module Bytes {

  /** The four bytes of a 32-bit number, the most significant first. */
  function Be32(v: nat): (s: seq<int>)
    ensures |s| == 4
  {
    [v / 0x100_0000 % 0x100, v / 0x1_0000 % 0x100, v / 0x100 % 0x100, v % 0x100]
  }

  function FromBe32(s: seq<int>): int
    requires |s| == 4
  {
    s[0] * 0x100_0000 + s[1] * 0x1_0000 + s[2] * 0x100 + s[3]
  }

  lemma Be32RoundTrip(v: nat)
    requires v < 0x1_0000_0000
    ensures FromBe32(Be32(v)) == v
  {
    FourBytes(v);
  }

  lemma LowWord(v: int, b: int, r: int)
    requires v == 0x1_0000 * b + r && 0 <= r < 0x1_0000
    ensures v % 0x1_0000 == r
  {
  }

  lemma TwoBytes(v: nat)
    ensures v / 0x100 % 0x100 * 0x100 + v % 0x100 == v % 0x1_0000
  {
    var a, low := v / 0x100, v % 0x100;
    var b, high := a / 0x100, a % 0x100;
    assert v == 0x100 * a + low && a == 0x100 * b + high;
    LowWord(v, b, 0x100 * high + low);
  }

  lemma FourBytes(v: nat)
    requires v < 0x1_0000_0000
    ensures v / 0x100_0000 % 0x100 * 0x100_0000 + v / 0x1_0000 % 0x100 * 0x1_0000 + v / 0x100 % 0x100 * 0x100 + v % 0x100 == v
  {
    var a := v / 0x100;
    var b := a / 0x100;
    var c := b / 0x100;
    assert v / 0x1_0000 == b && v / 0x100_0000 == c;
  }

  /** Network order: the most significant byte first. */
  lemma NetworkOrder(v: nat)
    requires v < 0x1_0000_0000
    ensures var s := Be32(v);
            && (forall i :: 0 <= i < 4 ==> 0 <= s[i] < 0x100)
            && v == 0x100_0000 * s[0] + 0x1_0000 * s[1] + 0x100 * s[2] + s[3] && FromBe32(s) == v
  {
    Be32RoundTrip(v);
  }
}
