/**
 The definitions that MD5 is proved against, tied to what RFC 1321 says of them: byte order, the bits of the
 auxiliary functions, the schedule of the operations, and the table made from the sine.
 */
module Md5Standard {

  import opened Powers
  import opened Md5

  // ------------------------------------------------------------------- byte order

  /** Words are read low-order byte first (section 2 of RFC 1321), the order in which bytes are written. */
  lemma WordsAreLowByteFirst(block: seq<Md5.Byte>, i: nat)
    requires |block| == 64 && i < 16
    ensures Bytes(Decode(block)[i], 4) == block[4 * i..4 * i + 4]
    ensures Bytes(1, 4) == [1, 0, 0, 0]
  {
    BytesOfFour(block[4 * i], block[4 * i + 1], block[4 * i + 2], block[4 * i + 3]);
  }

  lemma BytesOfFour(a: Md5.Byte, b: Md5.Byte, c: Md5.Byte, d: Md5.Byte)
    ensures Bytes(a + 0x100 * b + 0x1_0000 * c + 0x100_0000 * d, 4) == [a, b, c, d]
  {
    LowByte(a, b + 0x100 * c + 0x1_0000 * d);
    LowByte(b, c + 0x100 * d);
    LowByte(c, d);
    LowByte(d, 0);
    assert Bytes(d, 1) == [d];
    assert Bytes(c + 0x100 * d, 2) == [c, d];
    assert Bytes(b + 0x100 * c + 0x1_0000 * d, 3) == [b, c, d];
  }

  lemma LowByte(a: Md5.Byte, rest: nat)
    ensures (a + 0x100 * rest) % 0x100 == a && (a + 0x100 * rest) / 0x100 == rest
  {
  }

  /** The digest is written in the order A, B, C, D (section 3.5), and the four start values are 01 23 45 67, 89 ab cd
      ef, fe dc ba 98, 76 54 32 10, low-order byte first (section 3.3). */
  lemma StartValues()
    ensures Output(INIT) ==
            [0x01, 0x23, 0x45, 0x67] + [0x89, 0xab, 0xcd, 0xef] + [0xfe, 0xdc, 0xba, 0x98] + [0x76, 0x54, 0x32, 0x10]
  {
    WordOf(INIT.a, 0x01, 0x23, 0x45, 0x67);
    WordOf(INIT.b, 0x89, 0xab, 0xcd, 0xef);
    WordOf(INIT.c, 0xfe, 0xdc, 0xba, 0x98);
    WordOf(INIT.d, 0x76, 0x54, 0x32, 0x10);
    hide *;
    OutputIs(INIT, [0x01, 0x23, 0x45, 0x67], [0x89, 0xab, 0xcd, 0xef], [0xfe, 0xdc, 0xba, 0x98], [0x76, 0x54, 0x32, 0x10]);
  }

  lemma WordOf(x: Md5.Word, a: Md5.Byte, b: Md5.Byte, c: Md5.Byte, d: Md5.Byte)
    requires x == a + 0x100 * b + 0x1_0000 * c + 0x100_0000 * d
    ensures Bytes(x, 4) == [a, b, c, d]
  {
    BytesOfFour(a, b, c, d);
  }

  lemma OutputIs(q: State, a: seq<Md5.Byte>, b: seq<Md5.Byte>, c: seq<Md5.Byte>, d: seq<Md5.Byte>)
    requires Bytes(q.a, 4) == a && Bytes(q.b, 4) == b && Bytes(q.c, 4) == c && Bytes(q.d, 4) == d
    ensures Output(q) == a + b + c + d
  {
    hide Bytes;
  }

  /** Padding is one bit and then zeros up to eight bytes before the end of a block, and then the length in bits
      modulo 2^64, low-order byte first (sections 3.1 and 3.2). */
  lemma PaddedMessage(m: seq<Md5.Byte>)
    ensures var p, z := Pad(m), |Pad(m)| - |m| - 9;
            && |p| % 64 == 0 && 0 <= z < 64
            && p[..|m|] == m && p[|m|] == 0x80 && (forall i :: |m| < i < |m| + 1 + z ==> p[i] == 0)
            && p[|p| - 8..] == Bytes(8 * |m| % 0x1_0000_0000_0000_0000, 8)
  {
    PaddedLength(|m|);
    LengthField(|m|);
    PadIs(m);
    hide Pad, Bytes, BitsLow, BitsHigh, ZeroCount, Zeros;
    FourParts(m, Zeros(ZeroCount(|m|)), Bytes(BitsLow(|m|), 4) + Bytes(BitsHigh(|m|), 4));
  }

  lemma PadIs(m: seq<Md5.Byte>)
    ensures Pad(m) == m + [0x80] + Zeros(ZeroCount(|m|)) + (Bytes(BitsLow(|m|), 4) + Bytes(BitsHigh(|m|), 4))
    ensures forall i :: 0 <= i < ZeroCount(|m|) ==> Zeros(ZeroCount(|m|))[i] == 0
  {
    hide Bytes, BitsLow, BitsHigh, ZeroCount;
  }

  lemma FourParts(m: seq<Md5.Byte>, zeros: seq<Md5.Byte>, last: seq<Md5.Byte>)
    requires |last| == 8 && forall i :: 0 <= i < |zeros| ==> zeros[i] == 0
    ensures var p := m + [0x80] + zeros + last;
            && |p| == |m| + 9 + |zeros| && p[..|m|] == m && p[|m|] == 0x80 && p[|p| - 8..] == last
            && forall i :: |m| < i < |m| + 1 + |zeros| ==> p[i] == 0
  {
  }

  lemma PaddedLength(n: nat)
    ensures (n + 9 + ZeroCount(n)) % 64 == 0
  {
    var q, r := n / 64, n % 64;
    assert n == 64 * q + r;
    Whole(if r < 56 then q + 1 else q + 2);
    assert n + 9 + ZeroCount(n) == 64 * if r < 56 then q + 1 else q + 2;
  }

  lemma Whole(q: nat)
    ensures 64 * q % 64 == 0
  {
  }

  lemma LengthField(n: nat)
    ensures Bytes(BitsLow(n), 4) + Bytes(BitsHigh(n), 4) == Bytes(8 * n % 0x1_0000_0000_0000_0000, 8)
  {
    var x := 8 * n % 0x1_0000_0000_0000_0000;
    TwoWords(8 * n);
    BytesJoin(x, 4, 4);
    assert Pow2(32) == WORDS by { WordBits(); }
    BytesCut(x);
    hide Bytes;
  }

  lemma TwoWords(v: nat)
    ensures v % 0x1_0000_0000_0000_0000 % WORDS == v % WORDS
    ensures v % 0x1_0000_0000_0000_0000 / WORDS == v / WORDS % WORDS
  {
    var q, r := v / 0x1_0000_0000_0000_0000, v % 0x1_0000_0000_0000_0000;
    assert v == WORDS * (WORDS * q) + r;
    AddWords(WORDS * q, r);
    SmallWord(q, r / WORDS);
  }

  lemma AddWords(q: nat, r: nat)
    ensures (WORDS * q + r) / WORDS == q + r / WORDS && (WORDS * q + r) % WORDS == r % WORDS
  {
  }

  lemma SmallWord(q: nat, r: nat)
    requires r < WORDS
    ensures (WORDS * q + r) % WORDS == r
  {
  }

  /** The first a bytes and those after them. */
  lemma {:induction false} BytesJoin(x: nat, a: nat, b: nat)
    ensures x / Pow2(8 * a) >= 0 && Bytes(x, a + b) == Bytes(x, a) + Bytes(x / Pow2(8 * a), b)
    decreases a
  {
    if a > 0 {
      BytesJoin(x / 256, a - 1, b);
      EightMore(a - 1);
      Nested(x, Pow2(8 * (a - 1)));
      assert Bytes(x, a + b) == [x % 256] + Bytes(x / 256, a + b - 1);
    } else {
      assert x / 1 == x;
    }
  }

  lemma EightMore(a: nat)
    ensures Pow2(8 * (a + 1)) == 256 * Pow2(8 * a)
  {
    var p := 8 * a;
    assert Pow2(p + 8) == 2 * Pow2(p + 7) && Pow2(p + 7) == 2 * Pow2(p + 6) && Pow2(p + 6) == 2 * Pow2(p + 5);
    assert Pow2(p + 5) == 2 * Pow2(p + 4) && Pow2(p + 4) == 2 * Pow2(p + 3) && Pow2(p + 3) == 2 * Pow2(p + 2);
    assert Pow2(p + 2) == 2 * Pow2(p + 1) && Pow2(p + 1) == 2 * Pow2(p);
  }

  lemma Nested(x: nat, p: nat)
    requires p > 0
    ensures x / (256 * p) == x / 256 / p
  {
    var q, r := x / 256 / p, x / 256 % p;
    assert x / 256 == p * q + r;
    assert 256 * p * q == 256 * (p * q);
    Quotient(x, 256 * p, q, 256 * r + x % 256);
  }

  lemma Quotient(x: nat, m: nat, q: nat, r: nat)
    requires m > 0 && x == m * q + r && r < m
    ensures x / m == q && x % m == r
  {
    var d := x / m - q;
    assert m * d == r - x % m by {
      assert x == m * (x / m) + x % m;
      assert m * d == m * (x / m) - m * q;
    }
    NoMultiple(m, d);
  }

  lemma NoMultiple(m: int, d: int)
    requires m > 0 && -m < m * d < m
    ensures d == 0
  {
  }

  /** n bytes only see the value below 256^n. */
  lemma {:induction false} BytesOfRest(q: nat, y: nat, n: nat)
    ensures Pow2(8 * n) * q + y >= 0 && Bytes(Pow2(8 * n) * q + y, n) == Bytes(y, n)
    decreases n
  {
    if n > 0 {
      var p := Pow2(8 * (n - 1));
      EightMore(n - 1);
      assert Pow2(8 * n) * q == 256 * (p * q);
      Below(p * q, y);
      BytesOfRest(q, y / 256, n - 1);
    } else {
      assert Pow2(0) * q == q;
    }
  }

  lemma BytesCut(x: nat)
    ensures Bytes(x % WORDS, 4) == Bytes(x, 4)
  {
    assert Pow2(8 * 4) == WORDS by { WordBits(); }
    BytesOfRest(x / WORDS, x % WORDS, 4);
    assert x == WORDS * (x / WORDS) + x % WORDS;
    hide Bytes;
  }

  lemma Below(q: nat, y: nat)
    ensures (256 * q + y) % 256 == y % 256 && (256 * q + y) / 256 == q + y / 256
  {
  }

  /** A message is absorbed block by block. */
  lemma OneBlockAfterTheOther(q: State, block: seq<Md5.Byte>, rest: seq<Md5.Byte>)
    requires |block| == 64
    ensures Absorb(q, block + rest) == Absorb(Compress(q, Decode(block)), rest)
    ensures Absorb(q, []) == q
  {
    assert (block + rest)[..64] == block && (block + rest)[64..] == rest;
    hide Compress, Decode;
  }

  // ------------------------------------------------------------------------ bits

  /** Bit k of a number. */
  function Bit(w: nat, k: nat): bool { if k == 0 then w % 2 == 1 else Bit(w / 2, k - 1) }

  lemma {:induction false} BitsOfWordOps(n: nat, x: nat, y: nat, k: nat)
    requires k < n
    ensures Bit(AndN(n, x, y), k) == (Bit(x, k) && Bit(y, k)) && Bit(OrN(n, x, y), k) == (Bit(x, k) || Bit(y, k))
    ensures Bit(XorN(n, x, y), k) == (Bit(x, k) != Bit(y, k)) && Bit(NotN(n, x), k) == !Bit(x, k)
  {
    Parts(n, x, y);
    hide AndN, OrN, XorN, NotN;
    if k > 0 {
      BitsOfWordOps(n - 1, x / 2, y / 2, k - 1);
    }
  }

  /** The auxiliary functions act on each bit by itself: F selects y or z by x, G selects x or y by z, H is the parity,
      and I is y exclusive-or (x or not z) (section 3.4). */
  lemma BitsOfAuxiliary(x: Md5.Word, y: Md5.Word, z: Md5.Word, k: nat)
    requires k < 32
    ensures Bit(F(x, y, z), k) == if Bit(x, k) then Bit(y, k) else Bit(z, k)
    ensures Bit(G(x, y, z), k) == if Bit(z, k) then Bit(x, k) else Bit(y, k)
    ensures Bit(H(x, y, z), k) == ((Bit(x, k) != Bit(y, k)) != Bit(z, k))
    ensures Bit(I(x, y, z), k) == (Bit(y, k) != (Bit(x, k) || !Bit(z, k)))
  {
    WordBits();
    BitsOfWordOps(32, x, y, k);
    BitsOfWordOps(32, x, z, k);
    BitsOfWordOps(32, z, x, k);
    BitsOfWordOps(32, Not(x), z, k);
    BitsOfWordOps(32, And(x, y), And(Not(x), z), k);
    BitsOfWordOps(32, y, Not(z), k);
    BitsOfWordOps(32, And(x, z), And(y, Not(z)), k);
    BitsOfWordOps(32, Xor(x, y), z, k);
    BitsOfWordOps(32, x, Not(z), k);
    BitsOfWordOps(32, y, Or(x, Not(z)), k);
    hide AndN, OrN, XorN, NotN, Bit;
  }

  lemma {:induction false} BitOfJoin(h: nat, l: nat, s: nat, k: nat)
    requires h < Pow2(s)
    ensures Bit(l * Pow2(s) + h, k) == if k < s then Bit(h, k) else Bit(l, k - s)
    decreases s
  {
    if s > 0 {
      var p := Pow2(s - 1);
      assert l * Pow2(s) == 2 * (l * p);
      HalfOfJoin(l * p, h);
      Halved(h, p);
      if k > 0 {
        BitOfJoin(h / 2, l, s - 1, k - 1);
      }
    } else {
      assert l * 1 + 0 == l;
    }
  }

  lemma HalfOfJoin(a: nat, h: nat)
    ensures (2 * a + h) / 2 == a + h / 2 && (2 * a + h) % 2 == h % 2
  {
  }

  /** A rotation to the left by s moves bit k - s, counted around, to bit k. */
  lemma BitsOfRotation(w: Md5.Word, s: nat, k: nat)
    requires 0 < s < 32 && k < 32
    ensures Bit(RotL(w, s), k) == Bit(w, (k + 32 - s) % 32)
  {
    hide *;
    var h, l := Halves(w, s);
    BitOfJoin(h, l, s, k);
    if k < s {
      BitOfJoin(l, h, 32 - s, k + 32 - s);
      SmallMod(k + 32 - s);
    } else {
      BitOfJoin(l, h, 32 - s, k - s);
      BigMod(k - s);
    }
  }

  lemma Halves(w: Md5.Word, s: nat) returns (h: nat, l: nat)
    requires 0 < s < 32
    ensures RotL(w, s) == l * Pow2(s) + h && w == h * Pow2(32 - s) + l && h < Pow2(s) && l < Pow2(32 - s)
  {
    hide *;
    var q := Pow2(32 - s);
    h, l := w / q, w % q;
    WholeWord(s);
    RotationIs(w, s, h, l);
  }

  lemma WholeWord(s: nat)
    requires 0 < s < 32
    ensures Pow2(s) * Pow2(32 - s) == WORDS
  {
    WordBits();
    hide Pow2;
    PowersMultiply(s, 32 - s);
    assert s + (32 - s) == 32;
  }

  lemma SmallMod(k: nat)
    requires k < 32
    ensures k % 32 == k
  {
  }

  lemma BigMod(k: nat)
    requires k < 32
    ensures (k + 32) % 32 == k
  {
  }

  lemma RotationIs(w: Md5.Word, s: nat, h: nat, l: nat)
    requires 0 < s < 32 && h == w / Pow2(32 - s) && l == w % Pow2(32 - s) && Pow2(s) * Pow2(32 - s) == WORDS
    ensures RotL(w, s) == l * Pow2(s) + h && w == h * Pow2(32 - s) + l && h < Pow2(s) && l < Pow2(32 - s)
  {
    var p, q := Pow2(s), Pow2(32 - s);
    hide Pow2;
    DivMod(w, q);
    Bounded(h, l, p, q);
    Rotated(w, h, l, p, q);
    assert q * h == h * q;
  }

  lemma DivMod(w: nat, q: nat)
    requires q > 0
    ensures w == q * (w / q) + w % q && 0 <= w % q < q && w / q >= 0
  {
  }

  lemma {:induction false} PowersMultiply(a: nat, b: nat)
    ensures Pow2(a + b) == Pow2(a) * Pow2(b)
  {
    if a > 0 {
      PowersMultiply(a - 1, b);
      DoubleTimes(Pow2(a - 1), Pow2(b));
    }
  }

  lemma Bounded(h: nat, l: nat, p: nat, q: nat)
    requires p > 0 && q > 0 && p * q == WORDS && q * h + l < WORDS && l < q
    ensures h < p && l * p + h < WORDS
  {
    Larger(q, h, p);
    Larger(p, q - 1, l);
    assert p * (q - 1) == p * q - p;
    assert l * p == p * l;
  }

  lemma Larger(x: nat, a: nat, b: nat)
    ensures a >= b ==> x * a >= x * b
  {
  }

  lemma Rotated(w: nat, h: nat, l: nat, p: nat, q: nat)
    requires p > 0 && q > 0 && p * q == WORDS && w == q * h + l && l * p + h < WORDS && h == w / q
    ensures (w * p + w / q) % WORDS == l * p + h
  {
    assert w * p == q * h * p + l * p;
    assert q * h * p == (p * q) * h;
    SmallWord(h, l * p + h);
  }

  // -------------------------------------------------------------------- operations

  /** Operation i replaces A by B + ((A + f(B, C, D) + X[k] + T[i]) <<< s), all sums modulo 2^32, and then the
      registers change their roles (section 3.4). */
  lemma OneOperation(q: State, x: seq<Md5.Word>, i: nat)
    requires |x| == 16 && i < 64
    ensures var f := if i < 16 then F(q.b, q.c, q.d) else if i < 32 then G(q.b, q.c, q.d)
                     else if i < 48 then H(q.b, q.c, q.d) else I(q.b, q.c, q.d);
            var r, sum := Operation(q, x, i), (q.a + f + x[K(i)] + T(i)) % 0x1_0000_0000;
            && r.a == q.d && r.c == q.b && r.d == q.c && r.b == (q.b + RotL(sum, Shift(i))) % 0x1_0000_0000
  {
    var f := Auxiliary(i, q.b, q.c, q.d);
    hide F, G, H, I, T, K, Shift, RotL;
    ThreeSums(q.a, f, x[K(i)], T(i));
  }

  lemma ThreeSums(a: nat, f: nat, x: nat, t: nat)
    ensures ((((a + f) % WORDS) + x) % WORDS + t) % WORDS == (a + f + x + t) % WORDS
  {
    DropWords(a + f, x);
    DropWords(a + f + x, t);
  }

  lemma DropWords(a: nat, b: nat)
    ensures (a % WORDS + b) % WORDS == (a + b) % WORDS
  {
    AddWords(a / WORDS, a % WORDS + b);
    assert a == WORDS * (a / WORDS) + a % WORDS;
  }

  /** The words and the shift amounts of the four rounds (section 3.4): the words start at 0, 1, 5 and 0 and advance
      by 1, 5, 3 and 7; four shift amounts alternate. */
  lemma Rounds(i: nat)
    requires i < 16
    ensures K(i) == i && K(16 + i) == (1 + 5 * i) % 16 && K(32 + i) == (5 + 3 * i) % 16 && K(48 + i) == 7 * i % 16
    ensures Shift(i) == [7, 12, 17, 22][i % 4] && Shift(16 + i) == [5, 9, 14, 20][i % 4]
    ensures Shift(32 + i) == [4, 11, 16, 23][i % 4] && Shift(48 + i) == [6, 10, 15, 21][i % 4]
  {
    RoundWords(i);
    RoundShifts(i);
    hide *;
  }

  lemma RoundWords(i: nat)
    requires i < 16
    ensures K(i) == i && K(16 + i) == (1 + 5 * i) % 16 && K(32 + i) == (5 + 3 * i) % 16 && K(48 + i) == 7 * i % 16
  {
    Sixteens(1 + 5 * i, 5);
    Sixteens(5 + 3 * i, 6);
    Sixteens(7 * i, 21);
  }

  lemma Sixteens(x: nat, n: nat)
    ensures (x + 16 * n) % 16 == x % 16
  {
  }

  lemma RoundShifts(i: nat)
    requires i < 16
    ensures Shift(i) == [7, 12, 17, 22][i % 4] && Shift(16 + i) == [5, 9, 14, 20][i % 4]
    ensures Shift(32 + i) == [4, 11, 16, 23][i % 4] && Shift(48 + i) == [6, 10, 15, 21][i % 4]
  {
    Fours(i, 4);
    Fours(i, 8);
    Fours(i, 12);
  }

  lemma Fours(x: nat, n: nat)
    ensures (4 * n + x) % 4 == x % 4
  {
  }

  /** A block: 64 operations in order, and the old state is added (section 3.4). */
  lemma OneBlock(q: State, x: seq<Md5.Word>, i: nat)
    requires |x| == 16 && i < 64
    ensures Operations(q, x, i, 64) == Operations(Operation(q, x, i), x, i + 1, 64) && Operations(q, x, 64, 64) == q
    ensures var r, c := Operations(q, x, 0, 64), Compress(q, x);
            && c.a == (q.a + r.a) % 0x1_0000_0000 && c.b == (q.b + r.b) % 0x1_0000_0000
            && c.c == (q.c + r.c) % 0x1_0000_0000 && c.d == (q.d + r.d) % 0x1_0000_0000
  {
    hide Operation;
  }

  // --------------------------------------------------------------- the table of sines

  /** 2^64, the scale of the sines below. */
  const SCALE := 0x1_0000_0000_0000_0000

  function Factorial(k: nat): (f: nat)
    ensures f > 0
  {
    if k == 0 then 1 else k * Factorial(k - 1)
  }

  /** The k-th term of the exponential series at 1. */
  function Term(k: nat): nat { SCALE / Factorial(k) }

  /** The series of the cosine and of the sine at 1. */
  function Cosine1(): int {
    Term(0) - Term(2) + Term(4) - Term(6) + Term(8) - Term(10) + Term(12) - Term(14) + Term(16) - Term(18) + Term(20)
  }

  function Sine1(): int {
    Term(1) - Term(3) + Term(5) - Term(7) + Term(9) - Term(11) + Term(13) - Term(15) + Term(17) - Term(19) + Term(21)
  }

  /** What they come to. */
  const COSINE1 := 9966818358784711824
  const SINE1 := 15522399902203605025

  /** The sine of n, by sin(n) = 2 cos(1) sin(n - 1) - sin(n - 2). */
  function Sine(n: nat): int {
    if n == 0 then 0 else if n == 1 then SINE1 else 2 * COSINE1 * Sine(n - 1) / SCALE - Sine(n - 2)
  }

  function Size(x: int): nat { if x < 0 then -x else x }

  /** The cosine and the sine of 1 are those of the series. */
  lemma SeriesAre()
    ensures Cosine1() == COSINE1 && Sine1() == SINE1
  {
    assert Factorial(0) == 1;
    assert Factorial(1) == 1;
    assert Factorial(2) == 2;
    assert Factorial(3) == 6;
    assert Factorial(4) == 24;
    assert Factorial(5) == 120;
    assert Factorial(6) == 720;
    assert Factorial(7) == 5040;
    assert Factorial(8) == 40320;
    assert Factorial(9) == 362880;
    assert Factorial(10) == 3628800;
    assert Factorial(11) == 39916800;
    assert Factorial(12) == 479001600;
    assert Factorial(13) == 6227020800;
    assert Factorial(14) == 87178291200;
    assert Factorial(15) == 1307674368000;
    assert Factorial(16) == 20922789888000;
    assert Factorial(17) == 355687428096000;
    assert Factorial(18) == 6402373705728000;
    assert Factorial(19) == 121645100408832000;
    assert Factorial(20) == 2432902008176640000;
    assert Factorial(21) == 51090942171709440000;
  }

  lemma SineStarts()
    ensures Sine(0) == 0 && Sine(1) == SINE1
  {
  }

  /** The entry of the table for the sine of i + 1. */
  predicate SineFits(i: nat) { i < 64 && T(i) == Size(Sine(i + 1)) / 0x1_0000_0000 }

  lemma NextSine(n: nat, a: int, b: int, c: int)
    requires n < 64 && Sine(n) == a && Sine(n + 1) == b && c == 2 * COSINE1 * b / SCALE - a
    requires T(n) == Size(b) / 0x1_0000_0000
    ensures Sine(n + 2) == c && SineFits(n)
  {
    hide T;
  }

  lemma FirstSines()
    ensures Sine(8) == 18250438372675540811 && Sine(9) == 7602244225299530294
    ensures forall i :: 0 <= i < 8 ==> SineFits(i)
  {
    SineStarts();
    hide SineFits, Sine;
    NextSine(0, 0, 15522399902203605025, 16773576919535988474);
    NextSine(1, 15522399902203605025, 16773576919535988474, 2603204672360199831);
    NextSine(2, 16773576919535988474, 2603204672360199831, -13960541945290126220);
    NextSine(3, 2603204672360199831, -13960541945290126220, -17689030680778479888);
    NextSine(4, -13960541945290126220, -17689030680778479888, -5154306185503637726);
    NextSine(5, -17689030680778479888, -5154306185503637726, 12119263646422417959);
    NextSine(6, -5154306185503637726, 12119263646422417959, 18250438372675540811);
    NextSine(7, 12119263646422417959, 18250438372675540811, 7602244225299530294);
  }

  lemma SecondSines()
    ensures Sine(16) == -5310878800492617649 && Sine(17) == -17734653485808442239
    ensures forall i :: 8 <= i < 16 ==> SineFits(i)
  {
    FirstSines();
    hide SineFits, Sine;
    NextSine(8, 18250438372675540811, 7602244225299530294, -10035418203271369440);
    NextSine(9, 7602244225299530294, -10035418203271369440, -18446563416456779436);
    NextSine(10, -10035418203271369440, -18446563416456779436, -9898023295237564984);
    NextSine(11, -18446563416456779436, -9898023295237564984, 7750713796549941378);
    NextSine(12, -9898023295237564984, 7750713796549941378, 18273480368037438700);
    NextSine(13, 7750713796549941378, 18273480368037438700, 11995693361623679695);
    NextSine(14, 18273480368037438700, 11995693361623679695, -5310878800492617649);
    NextSine(15, 11995693361623679695, -5310878800492617649, -17734653485808442239);
  }

  lemma ThirdSines()
    ensures Sine(24) == -16704972282625291369 && Sine(25) == -2441458861761182138
    ensures forall i :: 16 <= i < 24 ==> SineFits(i)
  {
    SecondSines();
    hide SineFits, Sine;
    NextSine(16, -5310878800492617649, -17734653485808442239, -13853269543816868739);
    NextSine(17, -17734653485808442239, -13853269543816868739, 2764746529134189872);
    NextSine(18, -13853269543816868739, 2764746529134189872, 16840867393481146163);
    NextSine(19, 2764746529134189872, 16840867393481146163, 15433572441900672336);
    NextSine(20, 16840867393481146163, 15433572441900672336, -163277837197328042);
    NextSine(21, 15433572441900672336, -163277837197328042, -15610011225770430449);
    NextSine(22, -163277837197328042, -15610011225770430449, -16704972282625291369);
    NextSine(23, -15610011225770430449, -16704972282625291369, -2441458861761182138);
  }

  lemma FourthSines()
    ensures Sine(32) == 10172026864280481193 && Sine(33) == 18445118179665624437
    ensures forall i :: 24 <= i < 32 ==> SineFits(i)
  {
    ThirdSines();
    hide SineFits, Sine;
    NextSine(24, -16704972282625291369, -2441458861761182138, 14066720577241750419);
    NextSine(25, -2441458861761182138, 14066720577241750419, 17642021989534236375);
    NextSine(26, 14066720577241750419, 17642021989534236375, 4997329745001797126);
    NextSine(27, 17642021989534236375, 4997329745001797126, -12241884420718409079);
    NextSine(28, 4997329745001797126, -12241884420718409079, -18225966506372621650);
    NextSine(29, -12241884420718409079, -18225966506372621650, -7453179039418811075);
    NextSine(30, -18225966506372621650, -7453179039418811075, 10172026864280481193);
    NextSine(31, -7453179039418811075, 10172026864280481193, 18445118179665624437);
  }

  lemma FifthSines()
    ensures Sine(40) == 13744911777315421264 && Sine(41) == -2926071775729258558
    ensures forall i :: 32 <= i < 40 ==> SineFits(i)
  {
    FourthSines();
    hide SineFits, Sine;
    NextSine(32, 10172026864280481193, 18445118179665624437, 9759852904686880196);
    NextSine(33, 18445118179665624437, 9759852904686880196, -7898576120993259208);
    NextSine(34, 9759852904686880196, -7898576120993259208, -18295090687182249157);
    NextSine(35, -7898576120993259208, -18295090687182249157, -11871183247709336856);
    NextSine(36, -18295090687182249157, -11871183247709336856, 5467035322941076472);
    NextSine(37, -11871183247709336856, 5467035322941076472, 17778886830204603849);
    NextSine(38, 5467035322941076472, 17778886830204603849, 13744911777315421264);
    NextSine(39, 17778886830204603849, 13744911777315421264, -2926071775729258558);
  }

  lemma SixthSines()
    ensures Sine(48) == -14171797120872089258 && Sine(49) == -17593631095075550562
    ensures forall i :: 40 <= i < 48 ==> SineFits(i)
  {
    FifthSines();
    hide SineFits, Sine;
    NextSine(40, 13744911777315421264, -2926071775729258558, -16906838432439822423);
    NextSine(41, -2926071775729258558, -16906838432439822423, -15343535804245382975);
    NextSine(42, -16906838432439822423, -15343535804245382975, 326542882031538337);
    NextSine(43, -15343535804245382975, 326542882031538337, 15696399548498319157);
    NextSine(44, 326542882031538337, 15696399548498319157, 16635058857730999654);
    NextSine(45, 15696399548498319157, 16635058857730999654, 2279521769670243797);
    NextSine(46, 16635058857730999654, 2279521769670243797, -14171797120872089258);
    NextSine(47, 2279521769670243797, -14171797120872089258, -17593631095075550562);
  }

  lemma SeventhSines()
    ensures Sine(56) == -9620917856884019612 && Sine(57) == 8045819614028792221
    ensures forall i :: 48 <= i < 56 ==> SineFits(i)
  {
    SixthSines();
    hide SineFits, Sine;
    NextSine(48, -14171797120872089258, -17593631095075550562, -4839961777653358829);
    NextSine(49, -17593631095075550562, -4839961777653358829, 12363546077516009930);
    NextSine(50, -4839961777653358829, 12363546077516009930, 18200066686431147301);
    NextSine(51, 12363546077516009930, 18200066686431147301, 7303529917749313787);
    NextSine(52, 18200066686431147301, 7303529917749313787, -10307838575357349203);
    NextSine(53, 7303529917749313787, -10307838575357349203, -18442227819313585867);
    NextSine(54, -10307838575357349203, -18442227819313585867, -9620917856884019612);
    NextSine(55, -18442227819313585867, -9620917856884019612, 8045819614028792221);
  }

  lemma EighthSines()
    ensures Sine(64) == 16971484867765126156 && Sine(65) == 15252297043357160352
    ensures forall i :: 56 <= i < 64 ==> SineFits(i)
  {
    SeventhSines();
    hide SineFits, Sine;
    NextSine(56, -9620917856884019612, 8045819614028792221, 18315267637001744289);
    NextSine(57, 8045819614028792221, 18315267637001744289, 11745743059699521773);
    NextSine(58, 18315267637001744289, 11745743059699521773, -5622763518421043728);
    NextSine(59, 11745743059699521773, -5622763518421043728, -17821727248407810210);
    NextSine(60, -5622763518421043728, -17821727248407810210, -13635477135314549656);
    NextSine(61, -17821727248407810210, -13635477135314549656, 3087167772762315520);
    NextSine(62, -13635477135314549656, 3087167772762315520, 16971484867765126156);
    NextSine(63, 3087167772762315520, 16971484867765126156, 15252297043357160352);
  }

  /** The table is made from the sine: T[i] is the integer part of 2^32 times the size of sin(i), i in radians and counted
      from 1 (section 3.4). */
  lemma TableIsSine(i: nat)
    requires i < 64
    ensures T(i) == Size(Sine(i + 1)) / 0x1_0000_0000
  {
    assert SineFits(i) by { AllFit(i); }
  }

  lemma AllFit(i: nat)
    requires i < 64
    ensures SineFits(i)
  {
    hide SineFits;
    FirstSines();
    SecondSines();
    ThirdSines();
    FourthSines();
    FifthSines();
    SixthSines();
    SeventhSines();
    EighthSines();
  }
}
