/**
 The extended and decimal additions and subtractions that gen_opcode in src/gencpu.c emits, with
 the flags of genflags_normal.  They are made to be chained over the limbs of long numbers.
 */
module ExtendedArith {

  import opened Cpu

  const U32 := 0x1_0000_0000

  // ------------------------------------------------------------------ one instruction

  predicate Xor(a: bool, b: bool) { a != b }

  /** The flag_addx and flag_zn cases after newv has been computed. */
  function AddFlags(size: Size, f: Flags, src: nat, dst: nat, r: int): Flags {
    var s, o, n := Negative(size, src), Negative(size, dst), Negative(size, r);
    var c := Xor(s, Xor(s, o) && Xor(o, n));
    Flags(c, f.z && r == 0, n, Xor(s, n) && Xor(o, n), c)
  }

  /** The flag_subx and flag_zn cases. */
  function SubFlags(size: Size, f: Flags, src: nat, dst: nat, r: int): Flags {
    var s, o, n := Negative(size, src), Negative(size, dst), Negative(size, r);
    var c := Xor(s, Xor(s, n) && Xor(o, n));
    Flags(c, f.z && r == 0, n, Xor(s, o) && Xor(o, n), c)
  }

  function One(x: bool): nat { if x then 1 else 0 }

  /** A sum computed as a 32-bit word and cut to size. */
  function Cut(size: Size, t: int): int { t % U32 % Base(size) }

  /** ADDX: the operands are sign-extended, added as 32-bit words, and cut to size. */
  function Addx(size: Size, f: Flags, src: nat, dst: nat): (int, Flags)
    requires InRange(size, src) && InRange(size, dst)
  {
    var r := Cut(size, Signed(size, dst) + Signed(size, src) + One(f.x));
    (r, AddFlags(size, f, src, dst, r))
  }

  function Subx(size: Size, f: Flags, src: nat, dst: nat): (int, Flags)
    requires InRange(size, src) && InRange(size, dst)
  {
    var r := Cut(size, Signed(size, dst) - Signed(size, src) - One(f.x));
    (r, SubFlags(size, f, src, dst, r))
  }

  /** Cutting a 32-bit sum of sign-extended operands to size is the same as reducing the sum. */
  lemma CutReduces(size: Size, t: int, r: int)
    requires InRange(size, r)
    requires r == t || r == t + Base(size) || r == t + 2 * Base(size) || r == t - Base(size)
    ensures Cut(size, t) == r
  {
    match size {
      case Byte => CutByte(t, (r - t) / 0x100);
      case Word => CutWord(t, (r - t) / 0x1_0000);
      case Long =>
    }
  }

  lemma CutByte(t: int, k: int)
    requires -2 <= k <= 2 && 0 <= t + k * 0x100 < 0x100
    ensures t % U32 % 0x100 == t + k * 0x100
  {
    assert t % U32 == if t < 0 then t + U32 else t;
  }

  lemma CutWord(t: int, k: int)
    requires -2 <= k <= 2 && 0 <= t + k * 0x1_0000 < 0x1_0000
    ensures t % U32 % 0x1_0000 == t + k * 0x1_0000
  {
    assert t % U32 == if t < 0 then t + U32 else t;
  }

  /** The sign-bit formulas give the true carry and the true signed overflow. */
  lemma AddxIsExact(size: Size, f: Flags, src: nat, dst: nat)
    requires InRange(size, src) && InRange(size, dst)
    ensures var (r, g) := Addx(size, f, src, dst);
            && InRange(size, r) && g.x == g.c
            && r + (if g.x then Base(size) else 0) == dst + src + One(f.x)
            && g.z == (f.z && r == 0) && g.n == Negative(size, r)
            && (g.v <==> Signed(size, r) != Signed(size, dst) + Signed(size, src) + One(f.x))
  {
    hide AddFlags, Base, Half, Cut;
    var u := dst + src + One(f.x);
    CutReduces(size, Signed(size, dst) + Signed(size, src) + One(f.x), if u >= Base(size) then u - Base(size) else u);
    AddFlagsAreExact(size, f, src, dst, Addx(size, f, src, dst).0);
  }

  lemma AddFlagsAreExact(size: Size, f: Flags, src: nat, dst: nat, r: nat)
    requires InRange(size, src) && InRange(size, dst) && InRange(size, r)
    requires var u := dst + src + One(f.x); r == if u >= Base(size) then u - Base(size) else u
    ensures var g := AddFlags(size, f, src, dst, r);
            && g.x == g.c == (dst + src + One(f.x) >= Base(size))
            && g.z == (f.z && r == 0) && g.n == Negative(size, r)
            && (g.v <==> Signed(size, r) != Signed(size, dst) + Signed(size, src) + One(f.x))
  {
    hide Base, Half;
  }

  lemma SubxIsExact(size: Size, f: Flags, src: nat, dst: nat)
    requires InRange(size, src) && InRange(size, dst)
    ensures var (r, g) := Subx(size, f, src, dst);
            && InRange(size, r) && g.x == g.c
            && r + src + One(f.x) == dst + (if g.x then Base(size) else 0)
            && g.z == (f.z && r == 0) && g.n == Negative(size, r)
            && (g.v <==> Signed(size, r) != Signed(size, dst) - Signed(size, src) - One(f.x))
  {
    hide SubFlags, Base, Half, Cut;
    var u := dst - src - One(f.x);
    CutReduces(size, Signed(size, dst) - Signed(size, src) - One(f.x), if u < 0 then u + Base(size) else u);
    SubFlagsAreExact(size, f, src, dst, Subx(size, f, src, dst).0);
  }

  lemma SubFlagsAreExact(size: Size, f: Flags, src: nat, dst: nat, r: nat)
    requires InRange(size, src) && InRange(size, dst) && InRange(size, r)
    requires var u := dst - src - One(f.x); r == if u < 0 then u + Base(size) else u
    ensures var g := SubFlags(size, f, src, dst, r);
            && g.x == g.c == (dst - src - One(f.x) < 0)
            && g.z == (f.z && r == 0) && g.n == Negative(size, r)
            && (g.v <==> Signed(size, r) != Signed(size, dst) - Signed(size, src) - One(f.x))
  {
    hide Base, Half;
  }

  // --------------------------------------------------------------------------- chains

  /** The number with these limbs, the least significant first. */
  function Value(base: nat, limbs: seq<int>): int {
    if limbs == [] then 0 else limbs[0] + base * Value(base, limbs[1..])
  }

  function Pow(base: nat, n: nat): nat {
    if n == 0 then 1 else base * Pow(base, n - 1)
  }

  predicate Limbs(size: Size, a: seq<int>) { forall i :: 0 <= i < |a| ==> InRange(size, a[i]) }

  predicate AllZero(a: seq<int>) { forall i :: 0 <= i < |a| ==> a[i] == 0 }

  /** A chain of ADDX over the limbs of two numbers, least significant limbs first. */
  function AddChain(size: Size, f: Flags, src: seq<int>, dst: seq<int>): (seq<int>, Flags)
    requires |src| == |dst| && Limbs(size, src) && Limbs(size, dst)
    decreases |src|
  {
    if src == [] then ([], f)
    else
      var (r, g) := Addx(size, f, src[0], dst[0]);
      var (rs, h) := AddChain(size, g, src[1..], dst[1..]);
      ([r] + rs, h)
  }

  function SubChain(size: Size, f: Flags, src: seq<int>, dst: seq<int>): (seq<int>, Flags)
    requires |src| == |dst| && Limbs(size, src) && Limbs(size, dst)
    decreases |src|
  {
    if src == [] then ([], f)
    else
      var (r, g) := Subx(size, f, src[0], dst[0]);
      var (rs, h) := SubChain(size, g, src[1..], dst[1..]);
      ([r] + rs, h)
  }

  /** A limb and its carry together with the limbs after it and theirs. */
  lemma AddStep(b: nat, p: nat, r: int, rs: int, d: int, ds: int, s: int, ss: int, x: bool, c: bool, k: bool)
    requires r + (if c then b else 0) == d + s + One(x)
    requires rs + (if k then p else 0) == ds + ss + One(c)
    ensures r + b * rs + (if k then b * p else 0) == d + b * ds + (s + b * ss) + One(x)
  {
    assert b * (rs + (if k then p else 0)) == b * (ds + ss + One(c));
  }

  lemma SubStep(b: nat, p: nat, r: int, rs: int, d: int, ds: int, s: int, ss: int, x: bool, c: bool, k: bool)
    requires r + s + One(x) == d + (if c then b else 0)
    requires rs + ss + One(c) == ds + (if k then p else 0)
    ensures r + b * rs + (s + b * ss) + One(x) == d + b * ds + (if k then b * p else 0)
  {
    assert b * (rs + ss + One(c)) == b * (ds + (if k then p else 0));
  }

  lemma Unfold(base: nat, a: seq<int>)
    requires a != []
    ensures Value(base, a) == a[0] + base * Value(base, a[1..])
    ensures Pow(base, |a|) == base * Pow(base, |a| - 1)
  {
  }

  lemma NoLimbs(base: nat)
    ensures AllZero([]) && Value(base, []) == 0 && Pow(base, 0) == 1
  {
  }

  /** The exact multi-precision sum, for any number of limbs: what is carried out at the end is
      in C and X, and Z tells whether the whole result is zero. */
  lemma {:induction false} AddChainIsExact(size: Size, f: Flags, src: seq<int>, dst: seq<int>)
    requires |src| == |dst| && Limbs(size, src) && Limbs(size, dst)
    ensures var (r, g) := AddChain(size, f, src, dst);
            && |r| == |src| && Limbs(size, r)
            && Value(Base(size), r) + (if g.x then Pow(Base(size), |r|) else 0)
               == Value(Base(size), dst) + Value(Base(size), src) + One(f.x)
            && (src != [] ==> g.c == g.x) && g.z == (f.z && AllZero(r))
    decreases |src|
  {
    hide Addx, Base, AllZero, Value, Pow, One;
    var b := Base(size);
    if src == [] {
      NoLimbs(b);
      OneIs(f.x);
    } else {
      var (r, g) := Addx(size, f, src[0], dst[0]);
      AddxIsExact(size, f, src[0], dst[0]);
      AddChainIsExact(size, g, src[1..], dst[1..]);
      var (rs, h) := AddChain(size, g, src[1..], dst[1..]);
      JoinLimbs(size, r, rs);
      Unfold(b, src);
      Unfold(b, dst);
      Unfold(b, [r] + rs);
      AddStep(b, Pow(b, |rs|), r, Value(b, rs), dst[0], Value(b, dst[1..]), src[0], Value(b, src[1..]), f.x, g.x, h.x);
    }
  }

  lemma OneIs(x: bool)
    ensures One(x) == if x then 1 else 0
  {
  }

  lemma JoinLimbs(size: Size, r: int, rs: seq<int>)
    requires InRange(size, r) && Limbs(size, rs)
    ensures Limbs(size, [r] + rs) && (AllZero([r] + rs) <==> r == 0 && AllZero(rs))
    ensures Value(Base(size), [r] + rs) == r + Base(size) * Value(Base(size), rs)
  {
    hide Base;
    var a := [r] + rs;
    assert a[1..] == rs;
    assert forall i :: 0 <= i < |rs| ==> rs[i] == a[i + 1];
    assert forall i :: 1 <= i < |a| ==> a[i] == rs[i - 1];
    if AllZero(a) {
      assert a[0] == 0;
      forall i | 0 <= i < |rs| ensures rs[i] == 0 {
        assert a[i + 1] == 0;
      }
    }
  }

  /** The exact multi-precision difference; what is borrowed at the end is in C and X. */
  lemma {:induction false} SubChainIsExact(size: Size, f: Flags, src: seq<int>, dst: seq<int>)
    requires |src| == |dst| && Limbs(size, src) && Limbs(size, dst)
    ensures var (r, g) := SubChain(size, f, src, dst);
            && |r| == |src| && Limbs(size, r)
            && Value(Base(size), r) + Value(Base(size), src) + One(f.x)
               == Value(Base(size), dst) + (if g.x then Pow(Base(size), |r|) else 0)
            && (src != [] ==> g.c == g.x) && g.z == (f.z && AllZero(r))
    decreases |src|
  {
    hide Subx, Base, AllZero, Value, Pow, One;
    var b := Base(size);
    if src == [] {
      NoLimbs(b);
      OneIs(f.x);
    } else {
      var (r, g) := Subx(size, f, src[0], dst[0]);
      SubxIsExact(size, f, src[0], dst[0]);
      SubChainIsExact(size, g, src[1..], dst[1..]);
      var (rs, h) := SubChain(size, g, src[1..], dst[1..]);
      JoinLimbs(size, r, rs);
      Unfold(b, src);
      Unfold(b, dst);
      Unfold(b, [r] + rs);
      SubStep(b, Pow(b, |rs|), r, Value(b, rs), dst[0], Value(b, dst[1..]), src[0], Value(b, src[1..]), f.x, g.x, h.x);
    }
  }

  /** Z after a chain that starts with Z set is the test for a zero number. */
  lemma {:induction false} ZeroValue(base: nat, a: seq<int>)
    requires base > 0 && forall i :: 0 <= i < |a| ==> 0 <= a[i]
    ensures Value(base, a) >= 0 && (Value(base, a) == 0 <==> AllZero(a))
  {
    if a != [] {
      ZeroValue(base, a[1..]);
      assert AllZero(a) <==> a[0] == 0 && AllZero(a[1..]) by {
        assert forall i :: 0 <= i < |a| - 1 ==> a[1..][i] == a[i + 1];
        assert forall i :: 1 <= i < |a| ==> a[i] == a[1..][i - 1];
      }
      Product(base, Value(base, a[1..]));
    }
  }

  lemma Product(a: int, b: int)
    requires a > 0 && b >= 0
    ensures a * b >= 0 && (a * b == 0 <==> b == 0)
  {
  }

  /** Subtracting what was added, from the same X, gives back the old limbs and the same X. */
  lemma {:induction false} SubUndoesAdd(size: Size, f: Flags, e: Flags, src: seq<int>, dst: seq<int>)
    requires |src| == |dst| && Limbs(size, src) && Limbs(size, dst) && f.x == e.x
    ensures var (r, g) := AddChain(size, f, src, dst);
            && |r| == |src| && Limbs(size, r)
            && SubChain(size, e, src, r).0 == dst && SubChain(size, e, src, r).1.x == g.x
    decreases |src|
  {
    hide Addx, Subx, Base;
    AddChainIsExact(size, f, src, dst);
    if src != [] {
      var (r, g) := Addx(size, f, src[0], dst[0]);
      AddxIsExact(size, f, src[0], dst[0]);
      SubxIsExact(size, e, src[0], r);
      var (d, k) := Subx(size, e, src[0], r);
      SubUndoesAdd(size, g, k, src[1..], dst[1..]);
      var rs := AddChain(size, f, src, dst).0;
      assert rs[0] == r && rs[1..] == AddChain(size, g, src[1..], dst[1..]).0;
      assert [d] + dst[1..] == dst;
    }
  }

  // -------------------------------------------------------------------------- decimal

  /** A byte of two decimal digits. */
  predicate Bcd(v: int) { 0 <= v < 0xA0 && v % 16 <= 9 }

  function Decimal(v: int): int { v / 16 * 10 + v % 16 }

  /** (v & 0x1F0) > 0x90 */
  predicate PastNinety(v: int) { v % 0x200 / 16 * 16 > 0x90 }

  function LowNibble(v: int): int { v % 0x10 }

  function LowByte(v: int): int { v % 0x100 }

  function LowWord(v: int): int { v % 0x1_0000 }

  /** ABCD on the four digits: the result byte and the carry. */
  function AddDigits(sl: nat, sh: nat, dl: nat, dh: nat, x: bool): (int, bool) {
    var lo := sl + dl + One(x);
    var newv := 16 * sh + 16 * dh + if lo > 9 then lo + 6 else lo;
    var c := PastNinety(newv);
    (LowByte(if c then newv + 0x60 else newv), c)
  }

  /** SBCD on the four digits; newv_lo, newv_hi and newv are 16 bits wide. */
  function SubDigits(sl: nat, sh: nat, dl: nat, dh: nat, x: bool): (int, bool) {
    var lo0 := LowWord(dl - sl - One(x));
    var hi0 := LowWord(16 * dh - 16 * sh);
    var lo := if lo0 > 9 then LowWord(lo0 - 6) else lo0;
    var hi := if lo0 > 9 then LowWord(hi0 - 0x10) else hi0;
    var newv := LowWord(hi + LowNibble(lo));
    var c := PastNinety(hi);
    (LowByte(if c then newv - 0x60 else newv), c)
  }

  function Abcd(f: Flags, src: nat, dst: nat): (int, Flags) {
    var (r, c) := AddDigits(src % 16, src / 16, dst % 16, dst / 16, f.x);
    (r, Flags(c, f.z && r == 0, r >= 0x80, Overflow(src, dst, r), c))
  }

  function Sbcd(f: Flags, src: nat, dst: nat): (int, Flags) {
    var (r, c) := SubDigits(src % 16, src / 16, dst % 16, dst / 16, f.x);
    (r, Flags(c, f.z && r == 0, r >= 0x80, Overflow(src, dst, r), c))
  }

  /** The flag_sv case, which both decimal instructions use. */
  predicate Overflow(src: nat, dst: nat, r: int) {
    Xor(src >= 0x80, dst >= 0x80) && Xor(r >= 0x80, dst >= 0x80)
  }

  lemma AddDigitsIs(sl: nat, sh: nat, dl: nat, dh: nat, x: bool)
    requires sl <= 9 && sh <= 9 && dl <= 9 && dh <= 9
    ensures var k := One(sl + dl + One(x) > 9);
            var c := One(sh + dh + k > 9);
            AddDigits(sl, sh, dl, dh, x) == (16 * (sh + dh + k - 10 * c) + (sl + dl + One(x) - 10 * k), c == 1)
  {
    hide PastNinety, LowByte;
    var k := One(sl + dl + One(x) > 9);
    var tens, digit := sh + dh + k, sl + dl + One(x) - 10 * k;
    TensTest(tens, digit);
    ByteIs(16 * tens + digit);
    ByteIs(16 * tens + digit + 0x60);
  }

  lemma TensTest(high: int, low: int)
    requires 0 <= low < 16 && 0 <= high < 32
    ensures PastNinety(16 * high + low) <==> high > 9
  {
  }

  lemma ByteIs(v: int)
    requires 0 <= v < 0x200
    ensures LowByte(v) == if v < 0x100 then v else v - 0x100
  {
  }

  lemma Nibbles(high: int, low: int)
    requires 0 <= low < 16
    ensures (16 * high + low) / 16 == high && (16 * high + low) % 16 == low
  {
  }

  lemma SubDigitsIs(sl: nat, sh: nat, dl: nat, dh: nat, x: bool)
    requires sl <= 9 && sh <= 9 && dl <= 9 && dh <= 9
    ensures var k := One(dl - sl - One(x) < 0);
            var c := One(dh - sh - k < 0);
            SubDigits(sl, sh, dl, dh, x) == (16 * (dh - sh - k + 10 * c) + (dl - sl - One(x) + 10 * k), c == 1)
  {
    hide PastNinety, LowByte, LowWord, LowNibble;
    var low, high := dl - sl - One(x), dh - sh;
    LowHalf(low);
    HighHalf(high, low < 0);
    var k := One(low < 0);
    var tens, digit := high - k, low + 10 * k;
    if tens < 0 {
      Borrowed(16 * tens + 0x1_0000 + digit);
    } else {
      Kept(16 * tens + digit);
    }
  }

  lemma Borrowed(v: int)
    requires 0x1_0000 - 0xA0 <= v < 0x1_0000
    ensures LowWord(v) == v && LowByte(v - 0x60) == v - 0x60 - 0xFF00
  {
  }

  lemma Kept(v: int)
    requires 0 <= v < 0x100
    ensures LowWord(v) == v && LowByte(v) == v
  {
  }

  lemma WordIs(v: int)
    requires -0x1_0000 <= v < 0x1_0000
    ensures LowWord(v) == if v < 0 then v + 0x1_0000 else v
  {
  }

  /** The low digit after the correction by six. */
  lemma LowHalf(low: int)
    requires -10 <= low <= 9
    ensures var lo0 := LowWord(low);
            && (lo0 > 9 <==> low < 0)
            && LowNibble(if lo0 > 9 then LowWord(lo0 - 6) else lo0) == if low < 0 then low + 10 else low
  {
    hide LowWord;
    WordIs(low);
    if low < 0 {
      WordIs(low + 0x1_0000 - 6);
      assert low + 0x1_0000 - 6 == 0x10 * 0xFFF + (low + 10);
    }
  }

  /** The high digit with its borrow; the test looks at nine bits of it. */
  lemma HighHalf(high: int, borrow: bool)
    requires -9 <= high <= 9
    ensures var h := if borrow then LowWord(LowWord(16 * high) - 0x10) else LowWord(16 * high);
            var t := high - One(borrow);
            && (PastNinety(h) <==> t < 0)
            && h == if t < 0 then 16 * t + 0x1_0000 else 16 * t
  {
    hide LowWord, PastNinety;
    WordIs(16 * high);
    WordIs(LowWord(16 * high) - 0x10);
    NineBits(high - One(borrow));
  }

  lemma NineBits(t: int)
    requires -10 <= t <= 9
    ensures PastNinety(if t < 0 then 16 * t + 0x1_0000 else 16 * t) <==> t < 0
  {
    if t < 0 {
      assert 16 * t + 0x1_0000 == 0x200 * 0x7F + 16 * (t + 32);
      assert (16 * t + 0x1_0000) % 0x200 == 16 * (t + 32);
    }
  }

  /** The decimal sum of two digit pairs, with X as carry in and out. */
  lemma AbcdIsExact(f: Flags, src: nat, dst: nat)
    requires Bcd(src) && Bcd(dst)
    ensures var (r, g) := Abcd(f, src, dst);
            && Bcd(r) && g.c == g.x && g.z == (f.z && r == 0)
            && Decimal(r) + (if g.x then 100 else 0) == Decimal(dst) + Decimal(src) + One(f.x)
  {
    hide AddDigits;
    var sl, sh, dl, dh := src % 16, src / 16, dst % 16, dst / 16;
    AddDigitsIs(sl, sh, dl, dh, f.x);
    var k := One(sl + dl + One(f.x) > 9);
    Nibbles(sh + dh + k - 10 * One(sh + dh + k > 9), sl + dl + One(f.x) - 10 * k);
  }

  /** The decimal difference; the 16-bit wrap-around of the two halves does no harm. */
  lemma SbcdIsExact(f: Flags, src: nat, dst: nat)
    requires Bcd(src) && Bcd(dst)
    ensures var (r, g) := Sbcd(f, src, dst);
            && Bcd(r) && g.c == g.x && g.z == (f.z && r == 0)
            && Decimal(r) + Decimal(src) + One(f.x) == Decimal(dst) + (if g.x then 100 else 0)
  {
    hide SubDigits;
    var sl, sh, dl, dh := src % 16, src / 16, dst % 16, dst / 16;
    SubDigitsIs(sl, sh, dl, dh, f.x);
    var k := One(dl - sl - One(f.x) < 0);
    Nibbles(dh - sh - k + 10 * One(dh - sh - k < 0), dl - sl - One(f.x) + 10 * k);
  }

  predicate BcdString(a: seq<int>) { forall i :: 0 <= i < |a| ==> Bcd(a[i]) }

  /** The decimal number that a string of digit pairs stands for, least significant pair first. */
  function DecimalValue(a: seq<int>): int {
    if a == [] then 0 else Decimal(a[0]) + 100 * DecimalValue(a[1..])
  }

  function AbcdChain(f: Flags, src: seq<int>, dst: seq<int>): (seq<int>, Flags)
    requires |src| == |dst| && BcdString(src) && BcdString(dst)
    decreases |src|
  {
    if src == [] then ([], f)
    else
      var (r, g) := Abcd(f, src[0], dst[0]);
      var (rs, h) := AbcdChain(g, src[1..], dst[1..]);
      ([r] + rs, h)
  }

  function SbcdChain(f: Flags, src: seq<int>, dst: seq<int>): (seq<int>, Flags)
    requires |src| == |dst| && BcdString(src) && BcdString(dst)
    decreases |src|
  {
    if src == [] then ([], f)
    else
      var (r, g) := Sbcd(f, src[0], dst[0]);
      var (rs, h) := SbcdChain(g, src[1..], dst[1..]);
      ([r] + rs, h)
  }

  /** Strings of decimal digits of any length are added exactly; the result is again a string of
      decimal digits, and Z, if set at the start, tells whether all of it is zero. */
  lemma {:induction false} AbcdChainIsExact(f: Flags, src: seq<int>, dst: seq<int>)
    requires |src| == |dst| && BcdString(src) && BcdString(dst)
    ensures var (r, g) := AbcdChain(f, src, dst);
            && |r| == |src| && BcdString(r)
            && DecimalValue(r) + (if g.x then Pow(100, |r|) else 0) == DecimalValue(dst) + DecimalValue(src) + One(f.x)
            && (src != [] ==> g.c == g.x) && g.z == (f.z && AllZero(r))
    decreases |src|
  {
    hide Abcd, Decimal, AllZero, DecimalValue, Pow, One;
    if src == [] {
      NoLimbs(100);
      NoDigits();
      OneIs(f.x);
    } else {
      var (r, g) := Abcd(f, src[0], dst[0]);
      AbcdIsExact(f, src[0], dst[0]);
      AbcdChainIsExact(g, src[1..], dst[1..]);
      var (rs, h) := AbcdChain(g, src[1..], dst[1..]);
      JoinPairs(r, rs);
      UnfoldDecimal(src);
      UnfoldDecimal(dst);
      AddStep(100, Pow(100, |rs|), Decimal(r), DecimalValue(rs), Decimal(dst[0]), DecimalValue(dst[1..]),
              Decimal(src[0]), DecimalValue(src[1..]), f.x, g.x, h.x);
    }
  }

  lemma {:induction false} SbcdChainIsExact(f: Flags, src: seq<int>, dst: seq<int>)
    requires |src| == |dst| && BcdString(src) && BcdString(dst)
    ensures var (r, g) := SbcdChain(f, src, dst);
            && |r| == |src| && BcdString(r)
            && DecimalValue(r) + DecimalValue(src) + One(f.x) == DecimalValue(dst) + (if g.x then Pow(100, |r|) else 0)
            && (src != [] ==> g.c == g.x) && g.z == (f.z && AllZero(r))
    decreases |src|
  {
    hide Sbcd, Decimal, AllZero, DecimalValue, Pow, One;
    if src == [] {
      NoLimbs(100);
      NoDigits();
      OneIs(f.x);
    } else {
      var (r, g) := Sbcd(f, src[0], dst[0]);
      SbcdIsExact(f, src[0], dst[0]);
      SbcdChainIsExact(g, src[1..], dst[1..]);
      var (rs, h) := SbcdChain(g, src[1..], dst[1..]);
      JoinPairs(r, rs);
      UnfoldDecimal(src);
      UnfoldDecimal(dst);
      SubStep(100, Pow(100, |rs|), Decimal(r), DecimalValue(rs), Decimal(dst[0]), DecimalValue(dst[1..]),
              Decimal(src[0]), DecimalValue(src[1..]), f.x, g.x, h.x);
    }
  }

  lemma NoDigits()
    ensures DecimalValue([]) == 0
  {
  }

  lemma UnfoldDecimal(a: seq<int>)
    requires a != []
    ensures DecimalValue(a) == Decimal(a[0]) + 100 * DecimalValue(a[1..])
    ensures Pow(100, |a|) == 100 * Pow(100, |a| - 1)
  {
  }

  lemma JoinPairs(r: int, rs: seq<int>)
    requires Bcd(r) && BcdString(rs)
    ensures BcdString([r] + rs) && (AllZero([r] + rs) <==> r == 0 && AllZero(rs))
    ensures DecimalValue([r] + rs) == Decimal(r) + 100 * DecimalValue(rs)
  {
    hide Bcd, Decimal;
    var a := [r] + rs;
    assert a[1..] == rs;
    assert forall i :: 1 <= i < |a| ==> a[i] == rs[i - 1];
    if AllZero(a) {
      assert a[0] == 0;
      forall i | 0 <= i < |rs| ensures rs[i] == 0 {
        assert a[i + 1] == 0;
      }
    }
  }

  // ------------------------------------------------------- the code, step by step

  /** The flags that the emitted code works on. */
  class Alu {
    var c: bool
    var z: bool
    var n: bool
    var v: bool
    var x: bool

    ghost function F(): Flags
      reads this
    {
      Flags(c, z, n, v, x)
    }

    /** ADDX; the flags are set in the order in which the code sets them. */
    method AddX(size: Size, src: nat, dst: nat) returns (newv: int)
      requires InRange(size, src) && InRange(size, dst)
      modifies this
      ensures (newv, F()) == Addx(size, old(F()), src, dst)
    {
      hide Base, Half, Cut, Signed, Negative;
      newv := Cut(size, Signed(size, dst) + Signed(size, src) + if x then 1 else 0);
      var flgs, flgo, flgn := Negative(size, src), Negative(size, dst), Negative(size, newv);
      v := (flgs != flgn) && (flgo != flgn);
      c := flgs != ((flgs != flgo) && (flgo != flgn));
      x := c;
      z := z && newv == 0;
      n := flgn;
    }

    /** SUBX */
    method SubX(size: Size, src: nat, dst: nat) returns (newv: int)
      requires InRange(size, src) && InRange(size, dst)
      modifies this
      ensures (newv, F()) == Subx(size, old(F()), src, dst)
    {
      hide Base, Half, Cut, Signed, Negative;
      newv := Cut(size, Signed(size, dst) - Signed(size, src) - if x then 1 else 0);
      var flgs, flgo, flgn := Negative(size, src), Negative(size, dst), Negative(size, newv);
      v := (flgs != flgo) && (flgo != flgn);
      c := flgs != ((flgs != flgn) && (flgo != flgn));
      x := c;
      z := z && newv == 0;
      n := flgn;
    }

    /** ABCD */
    method AbcdOp(src: nat, dst: nat) returns (r: int)
      modifies this
      ensures (r, F()) == Abcd(old(F()), src, dst)
    {
      hide PastNinety, LowByte;
      var lo := src % 16 + dst % 16 + if x then 1 else 0;
      var hi := 16 * (src / 16) + 16 * (dst / 16);
      if lo > 9 {
        lo := lo + 6;
      }
      var newv := hi + lo;
      c := PastNinety(newv);
      x := c;
      if c {
        newv := newv + 0x60;
      }
      r := LowByte(newv);
      z := z && r == 0;
      n := r >= 0x80;
      v := ((src >= 0x80) != (dst >= 0x80)) && ((r >= 0x80) != (dst >= 0x80));
    }

    /** SBCD */
    method SbcdOp(src: nat, dst: nat) returns (r: int)
      modifies this
      ensures (r, F()) == Sbcd(old(F()), src, dst)
    {
      hide PastNinety, LowByte, LowWord, LowNibble;
      var lo := LowWord(dst % 16 - src % 16 - if x then 1 else 0);
      var hi := LowWord(16 * (dst / 16) - 16 * (src / 16));
      if lo > 9 {
        lo := LowWord(lo - 6);
        hi := LowWord(hi - 0x10);
      }
      var newv := LowWord(hi + LowNibble(lo));
      c := PastNinety(hi);
      x := c;
      if c {
        newv := newv - 0x60;
      }
      r := LowByte(newv);
      z := z && r == 0;
      n := r >= 0x80;
      v := ((src >= 0x80) != (dst >= 0x80)) && ((r >= 0x80) != (dst >= 0x80));
    }
  }
}
