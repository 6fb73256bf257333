/**
 The 64-bit arithmetic of src/newcpu.c: the shift-and-subtract division, the multiplication by
 halves, and the two builds of the long multiply instruction.
 */
module MulDiv {

  import opened Powers

  const W := 0x1_0000_0000

  predicate IsWord(v: int) { 0 <= v < W }

  // -------------------------------------------------------------------------- division

  lemma {:induction false} PowAdds(a: nat, b: nat)
    ensures Pow2(a) * Pow2(b) == Pow2(a + b)
  {
    if a > 0 {
      var p, x := Pow2(a - 1), Pow2(b);
      assert Pow2(a) == 2 * p && Pow2(a + b) == 2 * Pow2(a - 1 + b);
      hide *;
      PowAdds(a - 1, b);
      DoubleTimes(p, x);
    } else {
      assert Pow2(0) == 1;
    }
  }

  lemma Pow32()
    ensures Pow2(32) == W && Pow2(31) == 0x8000_0000
  {
    assert Pow2(8) == 256 && Pow2(16) == 65536 && Pow2(24) == 16777216;
  }

  /** One more bit of the dividend: what has been taken in so far doubles and gains the bit. */
  lemma TakeBit(t: int, q: int, r: int, div: int, bit: int)
    requires t == q * div + r
    ensures 2 * t + bit == (2 * q) * div + (2 * r + bit)
    ensures 2 * t + bit == (2 * q + 1) * div + (2 * r + bit - div)
  {
    assert (2 * q) * div == 2 * (q * div);
    assert (2 * q + 1) * div == 2 * (q * div) + div;
  }

  /** lo << 1 */
  function Twice(lo: int): int { 2 * lo % W }

  lemma TwiceIs(lo: int)
    requires IsWord(lo)
    ensures Twice(lo) == if lo >= 0x8000_0000 then 2 * lo - W else 2 * lo
  {
  }

  /** The low word shifted i times: `rest` is what has not been taken in yet, with h * p = 2^31. */
  lemma NextBit(lo: int, rest: int, h: nat, p: nat)
    requires p > 0 && h * p == 0x8000_0000 && 0 <= rest < 2 * h && lo == rest * p
    ensures IsWord(lo) && (lo >= 0x8000_0000 <==> rest >= h)
    ensures var left := if rest >= h then rest - h else rest;
            0 <= left < h && Twice(lo) == left * (2 * p)
  {
    Compare(rest, h, p);
    Compare(rest, 2 * h, p);
    Compare(rest, 0, p);
    assert (2 * h) * p == 2 * (h * p);
    TwiceIs(lo);
    var left := if rest >= h then rest - h else rest;
    Minus(rest, h, p);
    assert left * (2 * p) == 2 * (left * p);
  }

  lemma Compare(x: int, y: int, p: int)
    requires p > 0
    ensures x >= y <==> x * p >= y * p
  {
    if x < y {
      Below(x, y, p);
    }
  }

  lemma Below(x: int, y: int, p: int)
    requires p > 0 && x < y
    ensures x * p < y * p
  {
  }

  lemma Minus(x: int, y: int, p: int)
    ensures (x - y) * p == x * p - y * p
  {
  }

  /** div_unsigned: overflow exactly when the quotient does not fit 32 bits or the divisor is zero,
      and otherwise quotient and remainder. */
  method DivUnsigned(hi: nat, lo: nat, div: nat) returns (overflow: bool, quot: nat, rem: nat)
    requires IsWord(hi) && IsWord(lo) && IsWord(div)
    ensures overflow <==> div == 0 || (hi * W + lo) / div >= W
    ensures !overflow ==> hi * W + lo == quot * div + rem && rem < div && IsWord(quot)
  {
    quot, rem := 0, 0;
    DivOverflows(hi, lo, div);
    if div <= hi {
      return true, 0, 0;
    }
    overflow := false;
    var srcHi, srcLo, q: int := hi, lo, 0;
    ghost var t, rest := hi, lo;
    var i := 0;
    Pow32();
    while i < 32
      invariant 0 <= i <= 32 && DivInv(hi * W + lo, div, i, srcHi, srcLo, q, t, rest)
    {
      ghost var bit := if srcLo >= 0x8000_0000 then 1 else 0;
      DivStepKeeps(hi * W + lo, div, i, srcHi, srcLo, q, t, rest);
      hide DivInv;
      srcHi, srcLo, q := DivStep(srcHi, srcLo, q, div);
      t, rest := 2 * t + bit, rest - bit * Pow2(31 - i);
      i := i + 1;
    }
    assert Pow2(0) == 1;
    quot, rem := q, srcHi;
  }

  /** After i rounds: t is what has been taken in of the dividend n, q and hi its quotient and
      remainder, lo the rest of the low word moved to the top. */
  predicate DivInv(n: int, div: int, i: nat, hi: int, lo: int, q: int, t: int, rest: int)
    requires i <= 32
  {
    && 0 <= hi < div && 0 <= q < Pow2(i) && t == q * div + hi
    && 0 <= rest < Pow2(32 - i) && lo == rest * Pow2(i) && IsWord(lo)
    && n == t * Pow2(32 - i) + rest
  }

  /** The body of the loop in div_unsigned. */
  method DivStep(hi: int, lo: int, q: int, div: int) returns (hi1: int, lo1: int, q1: int)
    requires 0 <= hi < div < W && IsWord(lo) && 0 <= q < 0x8000_0000
    ensures var r := 2 * hi + if lo >= 0x8000_0000 then 1 else 0;
            && hi1 == (if r >= div then r - div else r) && q1 == (if r >= div then 2 * q + 1 else 2 * q)
            && lo1 == Twice(lo)
  {
    TwiceIs(hi);
    TwiceIs(q);
    hide Twice;
    var cbit := hi >= 0x8000_0000;
    hi1 := Twice(hi);
    if lo >= 0x8000_0000 {
      hi1 := hi1 + 1;
    }
    lo1 := Twice(lo);
    q1 := Twice(q);
    if cbit || div <= hi1 {
      q1 := q1 + 1;
      hi1 := if hi1 >= div then hi1 - div else hi1 - div + W;
    }
  }

  lemma DivStepKeeps(n: int, div: int, i: nat, hi: int, lo: int, q: int, t: int, rest: int)
    requires i < 32 && div < W && DivInv(n, div, i, hi, lo, q, t, rest)
    ensures q < 0x8000_0000
    ensures var bit := if lo >= 0x8000_0000 then 1 else 0;
            var r := 2 * hi + bit;
            DivInv(n, div, i + 1, if r >= div then r - div else r, Twice(lo),
                   if r >= div then 2 * q + 1 else 2 * q, 2 * t + bit, rest - bit * Pow2(31 - i))
  {
    var h, p := Pow2(31 - i), Pow2(i);
    DoublePow(31 - i);
    DoublePow(i);
    PowAdds(31 - i, i);
    Pow32();
    hide Pow2, Twice;
    NextBit(lo, rest, h, p);
    QuotientFits(i);
    var bit := if lo >= 0x8000_0000 then 1 else 0;
    TakeBit(t, q, hi, div, bit);
    SplitOff(t, h, bit);
    TwiceIs(lo);
  }

  lemma DoublePow(n: nat)
    ensures Pow2(n + 1) == 2 * Pow2(n)
  {
  }

  lemma {:induction false} QuotientFits(i: nat)
    requires i < 32
    ensures Pow2(i) <= 0x8000_0000
    decreases 32 - i
  {
    Pow32();
    if i < 31 {
      QuotientFits(i + 1);
    }
  }

  lemma SplitOff(t: int, p: int, bit: int)
    ensures t * (2 * p) + bit * p == (2 * t + bit) * p
  {
  }

  lemma DivOverflows(hi: nat, lo: nat, div: nat)
    requires IsWord(hi) && IsWord(lo) && IsWord(div)
    ensures div <= hi <==> div == 0 || (hi * W + lo) / div >= W
  {
    if div > 0 {
      var n := hi * W + lo;
      var q, r := n / div, n % div;
      assert n == q * div + r;
      if q >= W {
        AtLeast(q, W, div);
      } else {
        AtLeast(W - 1, q, div);
      }
    }
  }

  lemma AtLeast(x: int, y: int, p: int)
    requires p >= 0 && x >= y
    ensures x * p >= y * p
  {
  }

  // --------------------------------------------------------------------- multiplication

  /** mul_unsigned: all sums are 32 bits wide. */
  function MulUnsigned(a: nat, b: nat): (int, int)
    requires IsWord(a) && IsWord(b)
  {
    var r0 := (a % 0x1_0000) * (b % 0x1_0000);
    var r1 := (a / 0x1_0000) * (b % 0x1_0000);
    var r2 := (a % 0x1_0000) * (b / 0x1_0000);
    var r3 := (a / 0x1_0000) * (b / 0x1_0000);
    Combine(r0, r1, r2, r3)
  }

  function Combine(r0: int, r1: int, r2: int, r3: int): (int, int) {
    var lo1 := (r0 + r1 * 0x1_0000 % W) % W;
    var c1 := if lo1 < r0 then (r3 + 1) % W else r3;
    var lo2 := (lo1 + r2 * 0x1_0000 % W) % W;
    var c2 := if lo2 < lo1 then (c1 + 1) % W else c1;
    ((c2 + (r1 / 0x1_0000 + r2 / 0x1_0000)) % W, lo2)
  }

  lemma SmallProduct(x: nat, y: nat)
    requires x < 0x1_0000 && y < 0x1_0000
    ensures 0 <= x * y <= 0xFFFE_0001
  {
    assert x * y <= 0xFFFF * y by { AtLeast(0xFFFF, x, y); }
  }

  /** Adding a 16-bit-shifted product to the low word with a carry. */
  lemma AddShifted(low: int, r: int)
    requires IsWord(low) && IsWord(r)
    ensures var sum := (low + r * 0x1_0000 % W) % W;
            low + r * 0x1_0000 == (r / 0x1_0000 + if sum < low then 1 else 0) * W + sum
  {
    var h, l := r / 0x1_0000, r % 0x1_0000;
    assert r * 0x1_0000 == W * h + 0x1_0000 * l;
    assert r * 0x1_0000 % W == 0x1_0000 * l;
  }

  lemma CombineIsExact(r0: int, r1: int, r2: int, r3: int)
    requires IsWord(r0) && IsWord(r1) && IsWord(r2) && IsWord(r3)
    requires r0 + (r1 + r2) * 0x1_0000 + r3 * W < W * W
    ensures var (hi, lo) := Combine(r0, r1, r2, r3);
            IsWord(hi) && IsWord(lo) && hi * W + lo == r0 + (r1 + r2) * 0x1_0000 + r3 * W
  {
    AddShifted(r0, r1);
    var lo1 := (r0 + r1 * 0x1_0000 % W) % W;
    AddShifted(lo1, r2);
    var lo2 := (lo1 + r2 * 0x1_0000 % W) % W;
    var c1, c2 := if lo1 < r0 then 1 else 0, if lo2 < lo1 then 1 else 0;
    HighFits(r1 / 0x1_0000 + r2 / 0x1_0000 + r3 + c1 + c2, lo2);
    Wraps(r3 + c1);
    Wraps(r3 + c1 + c2);
    Wraps(r3 + c1 + c2 + (r1 / 0x1_0000 + r2 / 0x1_0000));
  }

  lemma HighFits(high: int, low: int)
    requires 0 <= low && high * W + low < W * W
    ensures high < W
  {
  }

  lemma Wraps(x: int)
    requires IsWord(x)
    ensures x % W == x
  {
  }

  /** The exact 64-bit product. */
  lemma MulIsExact(a: nat, b: nat)
    requires IsWord(a) && IsWord(b)
    ensures var (hi, lo) := MulUnsigned(a, b);
            IsWord(hi) && IsWord(lo) && hi * W + lo == a * b
  {
    var a1, a0, b1, b0 := a / 0x1_0000, a % 0x1_0000, b / 0x1_0000, b % 0x1_0000;
    SmallProduct(a0, b0);
    SmallProduct(a1, b0);
    SmallProduct(a0, b1);
    SmallProduct(a1, b1);
    Halves(a, b, a1, a0, b1, b0);
    FullProduct(a, b);
    hide Combine;
    CombineIsExact(a0 * b0, a1 * b0, a0 * b1, a1 * b1);
  }

  lemma FullProduct(a: nat, b: nat)
    requires IsWord(a) && IsWord(b)
    ensures 0 <= a * b <= (W - 1) * (W - 1) < W * W
  {
    assert a <= W - 1 && b <= W - 1;
    hide *;
    AtLeast(W - 1, a, b);
    AtLeast(W - 1, b, W - 1);
    AtLeast(a, 0, b);
    assert (W - 1) * b == b * (W - 1);
  }

  lemma Halves(a: int, b: int, a1: int, a0: int, b1: int, b0: int)
    requires a == a1 * 0x1_0000 + a0 && b == b1 * 0x1_0000 + b0
    ensures a * b == a0 * b0 + (a1 * b0 + a0 * b1) * 0x1_0000 + (a1 * b1) * W
  {
    assert a * b == (a1 * 0x1_0000) * b + a0 * b;
    assert a0 * b == a0 * (b1 * 0x1_0000) + a0 * b0;
    assert (a1 * 0x1_0000) * b == (a1 * 0x1_0000) * (b1 * 0x1_0000) + (a1 * 0x1_0000) * b0;
    assert a0 * (b1 * 0x1_0000) == (a0 * b1) * 0x1_0000;
    assert (a1 * 0x1_0000) * b0 == (a1 * b0) * 0x1_0000;
    assert (a1 * 0x1_0000) * (b1 * 0x1_0000) == (a1 * b1) * W;
  }

  // ------------------------------------------------------------------ long multiply

  /** Result words and flags of MULU.L or MULS.L; C is always cleared and X left alone. */
  datatype Product = Product(hi: int, lo: int, n: bool, z: bool, v: bool)

  function SignedWord(v: int): int { if v >= 0x8000_0000 then v - W else v }

  /** m68k_mull with a 64-bit type: the product modulo two to the 64. */
  function Wide(reg: nat, src: nat, signed: bool, long: bool): Product {
    var p := if signed then SignedWord(reg) * SignedWord(src) else reg * src;
    var a := p % (W * W);
    var top := a / 0x8000_0000;
    Product(a / W, a % W, a >= 0x8000_0000 * W, a == 0,
            !long && if signed then top != 0 && top != 0x1_FFFF_FFFF else a / W != 0)
  }

  /** The absolute value of a signed word; the most negative one is its own negative. */
  function Magnitude(v: nat): nat
    requires IsWord(v)
  {
    if v >= 0x8000_0000 then W - v else v
  }

  /** The two-word negation: ~hi and -lo, with a carry when lo is zero. */
  function Negated(hi: int, lo: int): (int, int) {
    var l := -lo % W;
    (if l == 0 then (W - 1 - hi + 1) % W else W - 1 - hi, l)
  }

  /** m68k_mull without a 64-bit type. */
  function Narrow(reg: nat, src: nat, signed: bool, long: bool): Product
    requires IsWord(reg) && IsWord(src)
  {
    var (hi0, lo0) := if signed then MulUnsigned(Magnitude(src), Magnitude(reg)) else MulUnsigned(src, reg);
    var (hi, lo) := if signed && (src >= 0x8000_0000) != (reg >= 0x8000_0000) then Negated(hi0, lo0) else (hi0, lo0);
    Product(hi, lo, hi >= 0x8000_0000, hi == 0 && lo == 0,
            !long && if signed
                     then (hi != 0 || lo >= 0x8000_0000) && (hi != W - 1 || lo < 0x8000_0000)
                     else hi != 0)
  }

  lemma NegatedIs(hi: int, lo: int)
    requires IsWord(hi) && IsWord(lo)
    ensures var (h, l) := Negated(hi, lo);
            && IsWord(h) && IsWord(l)
            && h * W + l == if hi == 0 && lo == 0 then 0 else W * W - (hi * W + lo)
  {
    assert -lo % W == if lo == 0 then 0 else W - lo;
  }

  lemma SignedProduct(a: nat, b: nat)
    requires IsWord(a) && IsWord(b)
    ensures SignedWord(a) * SignedWord(b) ==
            if (a >= 0x8000_0000) != (b >= 0x8000_0000) then -(Magnitude(b) * Magnitude(a))
              else Magnitude(b) * Magnitude(a)
  {
    var x, y := SignedWord(a), SignedWord(b);
    assert x * y == (-x) * (-y);
    assert (-x) * y == -(x * y) && x * (-y) == -(x * y);
    assert x * y == y * x;
  }

  /** Cutting a product to 64 bits. */
  lemma Cut64(p: int, m: int)
    requires 0 <= m < W * W && (p == m || (p == -m && m > 0) || p == 0 == m)
    ensures p % (W * W) == if p < 0 then W * W - m else m
  {
  }

  lemma Words(a: int, hi: int, lo: int)
    requires IsWord(hi) && IsWord(lo) && a == hi * W + lo
    ensures a / W == hi && a % W == lo
    ensures a / 0x8000_0000 == 2 * hi + if lo >= 0x8000_0000 then 1 else 0
    ensures (a >= 0x8000_0000 * W <==> hi >= 0x8000_0000) && (a == 0 <==> hi == 0 && lo == 0)
  {
  }

  /** The two builds of the instruction give the same registers and the same flags. */
  lemma BuildsAgree(reg: nat, src: nat, signed: bool, long: bool)
    requires IsWord(reg) && IsWord(src)
    ensures Wide(reg, src, signed, long) == Narrow(reg, src, signed, long)
  {
    hide MulUnsigned, Negated;
    var x, y := if signed then Magnitude(src) else src, if signed then Magnitude(reg) else reg;
    MulIsExact(x, y);
    FullProduct(x, y);
    var (hi0, lo0) := MulUnsigned(x, y);
    NegatedIs(hi0, lo0);
    var p := if signed then SignedWord(reg) * SignedWord(src) else reg * src;
    if signed {
      SignedProduct(reg, src);
    } else {
      assert reg * src == src * reg;
    }
    Cut64(p, x * y);
    var (hi, lo) := if signed && (src >= 0x8000_0000) != (reg >= 0x8000_0000) then Negated(hi0, lo0) else (hi0, lo0);
    Words(p % (W * W), hi, lo);
  }

  /** The product is exact: as an unsigned or two's complement 64-bit number, and V tells whether it
      fails to fit the low word alone. */
  lemma ProductIsExact(reg: nat, src: nat, signed: bool, long: bool)
    requires IsWord(reg) && IsWord(src)
    ensures var r := Narrow(reg, src, signed, long);
            var p := if signed then SignedWord(reg) * SignedWord(src) else reg * src;
            && IsWord(r.hi) && IsWord(r.lo)
            && p == (if signed then SignedWord(r.hi) else r.hi) * W + r.lo
            && (r.z <==> p == 0) && (signed ==> (r.n <==> p < 0)) && (r.n <==> r.hi >= 0x8000_0000)
            && (r.v <==> !long && if signed then !(-0x8000_0000 <= p < 0x8000_0000) else p >= W)
  {
    hide MulUnsigned, Negated;
    var x, y := if signed then Magnitude(src) else src, if signed then Magnitude(reg) else reg;
    MulIsExact(x, y);
    FullProduct(x, y);
    var (hi0, lo0) := MulUnsigned(x, y);
    NegatedIs(hi0, lo0);
    if signed {
      SignedProduct(reg, src);
      SmallMagnitudes(x, y);
    } else {
      assert reg * src == src * reg;
    }
  }

  lemma SmallMagnitudes(x: nat, y: nat)
    requires x <= 0x8000_0000 && y <= 0x8000_0000
    ensures x * y <= 0x4000_0000 * W
  {
    AtLeast(0x8000_0000, x, y);
    AtLeast(0x8000_0000, y, 0x8000_0000);
  }

  // ------------------------------------------------------- the code, step by step

  /** Data registers and flags. */
  class Multiplier {
    var d: seq<int>
    var c: bool
    var z: bool
    var n: bool
    var v: bool

    /** m68k_mull as it is built where there is no 64-bit type; dl and dh are the registers named
        in the extension word. */
    method Mull(src: nat, dl: nat, dh: nat, signed: bool, long: bool)
      requires IsWord(src) && |d| == 8 && dl < 8 && dh < 8 && 0 <= d[dl] && IsWord(d[dl])
      modifies this
      ensures var r := Wide(old(d[dl]), src, signed, long);
              && d == (if long then old(d)[dh := r.hi] else old(d))[dl := r.lo]
              && !c && z == r.z && n == r.n && v == r.v
    {
      BuildsAgree(d[dl], src, signed, long);
      hide MulUnsigned, Wide, Negated, Magnitude;
      var hi, lo;
      if signed {
        var sign := (src >= 0x8000_0000) != (d[dl] >= 0x8000_0000);
        hi, lo := Mul(Magnitude(src), Magnitude(d[dl]));
        if sign {
          var m := Negated(hi, lo);
          hi, lo := m.0, m.1;
        }
      } else {
        hi, lo := Mul(src, d[dl]);
      }
      v, c := false, false;
      z := hi == 0 && lo == 0;
      n := hi >= 0x8000_0000;
      if long {
        d := d[dh := hi];
      } else if signed {
        v := (hi != 0 || lo >= 0x8000_0000) && (hi != W - 1 || lo < 0x8000_0000);
      } else {
        v := hi != 0;
      }
      d := d[dl := lo];
    }
  }

  /** mul_unsigned, statement by statement. */
  method Mul(src1: nat, src2: nat) returns (hi: int, lo: int)
    requires IsWord(src1) && IsWord(src2)
    ensures (hi, lo) == MulUnsigned(src1, src2) && hi * W + lo == src1 * src2
  {
    MulIsExact(src1, src2);
    var r0 := (src1 % 0x1_0000) * (src2 % 0x1_0000);
    var r1 := (src1 / 0x1_0000) * (src2 % 0x1_0000);
    var r2 := (src1 % 0x1_0000) * (src2 / 0x1_0000);
    var r3 := (src1 / 0x1_0000) * (src2 / 0x1_0000);
    lo := (r0 + r1 * 0x1_0000 % W) % W;
    if lo < r0 {
      r3 := (r3 + 1) % W;
    }
    r0 := lo;
    lo := (r0 + r2 * 0x1_0000 % W) % W;
    if lo < r0 {
      r3 := (r3 + 1) % W;
    }
    hi := (r3 + (r1 / 0x1_0000 + r2 / 0x1_0000)) % W;
  }
}
