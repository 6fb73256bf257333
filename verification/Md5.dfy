/**
 MD5 as in src/frontends/common/md5.c: a context that takes a message in pieces of any size,
 against the message-level definition of RFC 1321.
 */
module Md5 {

  import opened Powers

  /** A 32-bit word. */
  type Word = w: nat | w < 0x1_0000_0000

  const WORDS := 0x1_0000_0000

  // -------------------------------------------------------------------- word arithmetic

  /** Bitwise operations on the n low bits. */
  function AndN(n: nat, x: nat, y: nat): (r: nat)
    ensures r < Pow2(n)
  {
    if n == 0 then 0 else 2 * AndN(n - 1, x / 2, y / 2) + if x % 2 == 1 && y % 2 == 1 then 1 else 0
  }

  function OrN(n: nat, x: nat, y: nat): (r: nat)
    ensures r < Pow2(n)
  {
    if n == 0 then 0 else 2 * OrN(n - 1, x / 2, y / 2) + if x % 2 == 1 || y % 2 == 1 then 1 else 0
  }

  function XorN(n: nat, x: nat, y: nat): (r: nat)
    ensures r < Pow2(n)
  {
    if n == 0 then 0 else 2 * XorN(n - 1, x / 2, y / 2) + if x % 2 != y % 2 then 1 else 0
  }

  function NotN(n: nat, x: nat): (r: nat)
    ensures r < Pow2(n)
  {
    if n == 0 then 0 else 2 * NotN(n - 1, x / 2) + if x % 2 == 1 then 0 else 1
  }

  lemma WordBits()
    ensures Pow2(32) == WORDS
  {
    assert Pow2(8) == 256;
    assert Pow2(16) == 65536;
    assert Pow2(24) == 16777216;
  }

  function And(x: Word, y: Word): Word { WordBits(); AndN(32, x, y) }

  function Or(x: Word, y: Word): Word { WordBits(); OrN(32, x, y) }

  function Xor(x: Word, y: Word): Word { WordBits(); XorN(32, x, y) }

  function Not(x: Word): Word { WordBits(); NotN(32, x) }

  function Add(x: Word, y: Word): Word { (x + y) % WORDS }

  /** x <<< s: the s high bits come back in at the bottom. */
  function RotL(w: Word, s: nat): Word
    requires 0 < s < 32
  {
    (w * Pow2(s) + w / Pow2(32 - s)) % WORDS
  }

  // -------------------------------------------------------- the functions of RFC 1321

  /** Section 3.4 of RFC 1321. */
  function F(x: Word, y: Word, z: Word): Word { Or(And(x, y), And(Not(x), z)) }

  function G(x: Word, y: Word, z: Word): Word { Or(And(x, z), And(y, Not(z))) }

  function H(x: Word, y: Word, z: Word): Word { Xor(Xor(x, y), z) }

  function I(x: Word, y: Word, z: Word): Word { Xor(y, Or(x, Not(z))) }

  datatype State = State(a: Word, b: Word, c: Word, d: Word)

  const INIT := State(0x67452301, 0xefcdab89, 0x98badcfe, 0x10325476)

  /** Table T of section 3.4, entries 1 to 16. */
  function T1(): (t: seq<Word>)
    ensures |t| == 16
  {
    [0xd76aa478, 0xe8c7b756, 0x242070db, 0xc1bdceee,
    0xf57c0faf, 0x4787c62a, 0xa8304613, 0xfd469501,
    0x698098d8, 0x8b44f7af, 0xffff5bb1, 0x895cd7be,
    0x6b901122, 0xfd987193, 0xa679438e, 0x49b40821]
  }

  /** Table T of section 3.4, entries 17 to 32. */
  function T2(): (t: seq<Word>)
    ensures |t| == 16
  {
    [0xf61e2562, 0xc040b340, 0x265e5a51, 0xe9b6c7aa,
    0xd62f105d, 0x02441453, 0xd8a1e681, 0xe7d3fbc8,
    0x21e1cde6, 0xc33707d6, 0xf4d50d87, 0x455a14ed,
    0xa9e3e905, 0xfcefa3f8, 0x676f02d9, 0x8d2a4c8a]
  }

  /** Table T of section 3.4, entries 33 to 48. */
  function T3(): (t: seq<Word>)
    ensures |t| == 16
  {
    [0xfffa3942, 0x8771f681, 0x6d9d6122, 0xfde5380c,
    0xa4beea44, 0x4bdecfa9, 0xf6bb4b60, 0xbebfbc70,
    0x289b7ec6, 0xeaa127fa, 0xd4ef3085, 0x04881d05,
    0xd9d4d039, 0xe6db99e5, 0x1fa27cf8, 0xc4ac5665]
  }

  /** Table T of section 3.4, entries 49 to 64. */
  function T4(): (t: seq<Word>)
    ensures |t| == 16
  {
    [0xf4292244, 0x432aff97, 0xab9423a7, 0xfc93a039,
    0x655b59c3, 0x8f0ccc92, 0xffeff47d, 0x85845dd1,
    0x6fa87e4f, 0xfe2ce6e0, 0xa3014314, 0x4e0811a1,
    0xf7537e82, 0xbd3af235, 0x2ad7d2bb, 0xeb86d391]
  }

  function T(i: nat): Word
    requires i < 64
  {
    if i < 16 then T1()[i] else if i < 32 then T2()[i - 16] else if i < 48 then T3()[i - 32] else T4()[i - 48]
  }

  /** The word of the block that operation i uses. */
  function K(i: nat): (k: nat)
    requires i < 64
    ensures k < 16
  {
    if i < 16 then i else if i < 32 then (1 + 5 * i) % 16 else if i < 48 then (5 + 3 * i) % 16 else 7 * i % 16
  }

  /** The rotation of operation i. */
  function Shift(i: nat): (s: nat)
    requires i < 64
    ensures 0 < s < 32
  {
    if i < 16 then [7, 12, 17, 22][i % 4]
    else if i < 32 then [5, 9, 14, 20][i % 4]
    else if i < 48 then [4, 11, 16, 23][i % 4]
    else [6, 10, 15, 21][i % 4]
  }

  function Auxiliary(i: nat, x: Word, y: Word, z: Word): Word {
    if i < 16 then F(x, y, z) else if i < 32 then G(x, y, z) else if i < 48 then H(x, y, z) else I(x, y, z)
  }

  /** b + ((a + f + X[k] + T[i]) <<< s) */
  function Mix(a: Word, f: Word, x: Word, t: Word, s: nat, b: Word): Word
    requires 0 < s < 32
  {
    Add(b, RotL(Add(Add(Add(a, f), x), t), s))
  }

  /** Operation i on the four registers, which then change roles. */
  function Operation(q: State, x: seq<Word>, i: nat): State
    requires |x| == 16 && i < 64
  {
    State(q.d, Mix(q.a, Auxiliary(i, q.b, q.c, q.d), x[K(i)], T(i), Shift(i), q.b), q.b, q.c)
  }

  function Operations(q: State, x: seq<Word>, i: nat, n: nat): State
    requires |x| == 16 && i <= n <= 64
    decreases n - i
  {
    if i == n then q else Operations(Operation(q, x, i), x, i + 1, n)
  }

  /** One block: 64 operations, and then the old registers are added. */
  function Compress(q: State, x: seq<Word>): State
    requires |x| == 16
  {
    var r := Operations(q, x, 0, 64);
    State(Add(q.a, r.a), Add(q.b, r.b), Add(q.c, r.c), Add(q.d, r.d))
  }

  // ------------------------------------------------------------- the code's transform

  lemma {:induction false} OptimisedF(n: nat, x: nat, y: nat, z: nat)
    ensures XorN(n, z, AndN(n, x, XorN(n, y, z))) == OrN(n, AndN(n, x, y), AndN(n, NotN(n, x), z))
  {
    if n > 0 {
      OptimisedF(n - 1, x / 2, y / 2, z / 2);
      var a, b, c, d := XorN(n, y, z), AndN(n, x, y), AndN(n, NotN(n, x), z), AndN(n, x, XorN(n, y, z));
      Parts(n, y, z);
      Parts(n, x, a);
      Parts(n, z, d);
      Parts(n, x, y);
      Parts(n, NotN(n, x), z);
      Parts(n, b, c);
      hide *;
      SameParts(XorN(n, z, d), OrN(n, b, c));
    }
  }

  /** Each operation works on the lowest bit and on the rest. */
  lemma Parts(n: nat, x: nat, y: nat)
    requires n > 0
    ensures AndN(n, x, y) / 2 == AndN(n - 1, x / 2, y / 2) && (AndN(n, x, y) % 2 == 1 <==> x % 2 == 1 && y % 2 == 1)
    ensures OrN(n, x, y) / 2 == OrN(n - 1, x / 2, y / 2) && (OrN(n, x, y) % 2 == 1 <==> x % 2 == 1 || y % 2 == 1)
    ensures XorN(n, x, y) / 2 == XorN(n - 1, x / 2, y / 2) && (XorN(n, x, y) % 2 == 1 <==> x % 2 != y % 2)
    ensures NotN(n, x) / 2 == NotN(n - 1, x / 2) && (NotN(n, x) % 2 == 1 <==> x % 2 == 0)
  {
    Doubled(AndN(n - 1, x / 2, y / 2));
    Doubled(OrN(n - 1, x / 2, y / 2));
    Doubled(XorN(n - 1, x / 2, y / 2));
    Doubled(NotN(n - 1, x / 2));
  }

  lemma {:induction false} AndCommutes(n: nat, x: nat, y: nat)
    ensures AndN(n, x, y) == AndN(n, y, x)
  {
    if n > 0 {
      AndCommutes(n - 1, x / 2, y / 2);
    }
  }

  /** The optimised form of F. */
  function F1(x: Word, y: Word, z: Word): (r: Word)
    ensures r == F(x, y, z)
  {
    OptimisedF(32, x, y, z);
    Xor(z, And(x, Xor(y, z)))
  }

  function F2(x: Word, y: Word, z: Word): (r: Word)
    ensures r == G(x, y, z)
  {
    AndCommutes(32, x, z);
    AndCommutes(32, y, Not(z));
    F1(z, x, y)
  }

  function F3(x: Word, y: Word, z: Word): (r: Word)
    ensures r == H(x, y, z)
  {
    Xor(Xor(x, y), z)
  }

  function F4(x: Word, y: Word, z: Word): (r: Word)
    ensures r == I(x, y, z)
  {
    Xor(y, Or(x, Not(z)))
  }

  /** MD5STEP: the function value and the table entry plus the data are added first, and x last. */
  function Step(w: Word, f: Word, x: Word, data: Word, t: Word, s: nat): (r: Word)
    requires 0 < s < 32
    ensures r == Mix(w, f, data, t, s, x)
  {
    SumOrder(w, f, data, t);
    Add(RotL(Add(w, Add(f, Add(data, t))), s), x)
  }

  lemma SumOrder(a: Word, b: Word, c: Word, d: Word)
    ensures Add(a, Add(b, Add(c, d))) == Add(Add(Add(a, b), c), d)
  {
    hide Add;
    AddAssociates(b, c, d);
    AddAssociates(a, Add(b, c), d);
    AddAssociates(a, b, c);
  }

  lemma AddAssociates(a: Word, b: Word, c: Word)
    ensures Add(a, Add(b, c)) == Add(Add(a, b), c)
  {
  }

  lemma {:induction false} OperationsSplit(q: State, x: seq<Word>, i: nat, m: nat, n: nat)
    requires |x| == 16 && i <= m <= n <= 64
    ensures Operations(q, x, i, n) == Operations(Operations(q, x, i, m), x, m, n)
    decreases m - i
  {
    hide Operation;
    if i < m {
      OperationsSplit(Operation(q, x, i), x, i + 1, m, n);
    }
  }

  lemma FourOperations(q: State, x: seq<Word>, i: nat)
    requires |x| == 16 && i + 4 <= 64
    ensures Operations(q, x, i, i + 4) ==
            Operation(Operation(Operation(Operation(q, x, i), x, i + 1), x, i + 2), x, i + 3)
  {
    hide Operation;
    var q1 := Operation(q, x, i);
    var q2 := Operation(q1, x, i + 1);
    var q3 := Operation(q2, x, i + 2);
    var q4 := Operation(q3, x, i + 3);
    assert Operations(q4, x, i + 4, i + 4) == q4;
    assert Operations(q3, x, i + 3, i + 4) == Operations(q4, x, i + 4, i + 4);
    assert Operations(q2, x, i + 2, i + 4) == Operations(q3, x, i + 3, i + 4);
    assert Operations(q1, x, i + 1, i + 4) == Operations(q2, x, i + 2, i + 4);
    assert Operations(q, x, i, i + 4) == Operations(q1, x, i + 1, i + 4);
  }

  /** Operations 1 to 8 of MD5Transform. */
  method FirstEight(q: State, x: seq<Word>) returns (p: State)
    requires |x| == 16
    ensures p == Operations(q, x, 0, 8)
  {
    hide F, G, H, I, Mix, Operations, F1, F2, F3, F4, Step, Pow2;
    var a, b, c, d := q.a, q.b, q.c, q.d;
    a := Step(a, F1(b, c, d), b, x[0], 0xd76aa478, 7);
    d := Step(d, F1(a, b, c), a, x[1], 0xe8c7b756, 12);
    c := Step(c, F1(d, a, b), d, x[2], 0x242070db, 17);
    b := Step(b, F1(c, d, a), c, x[3], 0xc1bdceee, 22);
    FourOperations(q, x, 0);
    assert State(a, b, c, d) == Operations(q, x, 0, 4);
    a := Step(a, F1(b, c, d), b, x[4], 0xf57c0faf, 7);
    d := Step(d, F1(a, b, c), a, x[5], 0x4787c62a, 12);
    c := Step(c, F1(d, a, b), d, x[6], 0xa8304613, 17);
    b := Step(b, F1(c, d, a), c, x[7], 0xfd469501, 22);
    FourOperations(Operations(q, x, 0, 4), x, 4);
    OperationsSplit(q, x, 0, 4, 8);
    p := State(a, b, c, d);
  }

  /** Operations 9 to 16 of MD5Transform. */
  method SecondEight(q: State, x: seq<Word>) returns (p: State)
    requires |x| == 16
    ensures p == Operations(q, x, 8, 16)
  {
    hide F, G, H, I, Mix, Operations, F1, F2, F3, F4, Step, Pow2;
    var a, b, c, d := q.a, q.b, q.c, q.d;
    a := Step(a, F1(b, c, d), b, x[8], 0x698098d8, 7);
    d := Step(d, F1(a, b, c), a, x[9], 0x8b44f7af, 12);
    c := Step(c, F1(d, a, b), d, x[10], 0xffff5bb1, 17);
    b := Step(b, F1(c, d, a), c, x[11], 0x895cd7be, 22);
    FourOperations(q, x, 8);
    assert State(a, b, c, d) == Operations(q, x, 8, 12);
    a := Step(a, F1(b, c, d), b, x[12], 0x6b901122, 7);
    d := Step(d, F1(a, b, c), a, x[13], 0xfd987193, 12);
    c := Step(c, F1(d, a, b), d, x[14], 0xa679438e, 17);
    b := Step(b, F1(c, d, a), c, x[15], 0x49b40821, 22);
    FourOperations(Operations(q, x, 8, 12), x, 12);
    OperationsSplit(q, x, 8, 12, 16);
    p := State(a, b, c, d);
  }

  /** Operations 17 to 24 of MD5Transform. */
  method ThirdEight(q: State, x: seq<Word>) returns (p: State)
    requires |x| == 16
    ensures p == Operations(q, x, 16, 24)
  {
    hide F, G, H, I, Mix, Operations, F1, F2, F3, F4, Step, Pow2;
    var a, b, c, d := q.a, q.b, q.c, q.d;
    a := Step(a, F2(b, c, d), b, x[1], 0xf61e2562, 5);
    d := Step(d, F2(a, b, c), a, x[6], 0xc040b340, 9);
    c := Step(c, F2(d, a, b), d, x[11], 0x265e5a51, 14);
    b := Step(b, F2(c, d, a), c, x[0], 0xe9b6c7aa, 20);
    FourOperations(q, x, 16);
    assert State(a, b, c, d) == Operations(q, x, 16, 20);
    a := Step(a, F2(b, c, d), b, x[5], 0xd62f105d, 5);
    d := Step(d, F2(a, b, c), a, x[10], 0x02441453, 9);
    c := Step(c, F2(d, a, b), d, x[15], 0xd8a1e681, 14);
    b := Step(b, F2(c, d, a), c, x[4], 0xe7d3fbc8, 20);
    FourOperations(Operations(q, x, 16, 20), x, 20);
    OperationsSplit(q, x, 16, 20, 24);
    p := State(a, b, c, d);
  }

  /** Operations 25 to 32 of MD5Transform. */
  method FourthEight(q: State, x: seq<Word>) returns (p: State)
    requires |x| == 16
    ensures p == Operations(q, x, 24, 32)
  {
    hide F, G, H, I, Mix, Operations, F1, F2, F3, F4, Step, Pow2;
    var a, b, c, d := q.a, q.b, q.c, q.d;
    a := Step(a, F2(b, c, d), b, x[9], 0x21e1cde6, 5);
    d := Step(d, F2(a, b, c), a, x[14], 0xc33707d6, 9);
    c := Step(c, F2(d, a, b), d, x[3], 0xf4d50d87, 14);
    b := Step(b, F2(c, d, a), c, x[8], 0x455a14ed, 20);
    FourOperations(q, x, 24);
    assert State(a, b, c, d) == Operations(q, x, 24, 28);
    a := Step(a, F2(b, c, d), b, x[13], 0xa9e3e905, 5);
    d := Step(d, F2(a, b, c), a, x[2], 0xfcefa3f8, 9);
    c := Step(c, F2(d, a, b), d, x[7], 0x676f02d9, 14);
    b := Step(b, F2(c, d, a), c, x[12], 0x8d2a4c8a, 20);
    FourOperations(Operations(q, x, 24, 28), x, 28);
    OperationsSplit(q, x, 24, 28, 32);
    p := State(a, b, c, d);
  }

  /** Operations 33 to 40 of MD5Transform. */
  method FifthEight(q: State, x: seq<Word>) returns (p: State)
    requires |x| == 16
    ensures p == Operations(q, x, 32, 40)
  {
    hide F, G, H, I, Mix, Operations, F1, F2, F3, F4, Step, Pow2;
    var a, b, c, d := q.a, q.b, q.c, q.d;
    a := Step(a, F3(b, c, d), b, x[5], 0xfffa3942, 4);
    d := Step(d, F3(a, b, c), a, x[8], 0x8771f681, 11);
    c := Step(c, F3(d, a, b), d, x[11], 0x6d9d6122, 16);
    b := Step(b, F3(c, d, a), c, x[14], 0xfde5380c, 23);
    FourOperations(q, x, 32);
    assert State(a, b, c, d) == Operations(q, x, 32, 36);
    a := Step(a, F3(b, c, d), b, x[1], 0xa4beea44, 4);
    d := Step(d, F3(a, b, c), a, x[4], 0x4bdecfa9, 11);
    c := Step(c, F3(d, a, b), d, x[7], 0xf6bb4b60, 16);
    b := Step(b, F3(c, d, a), c, x[10], 0xbebfbc70, 23);
    FourOperations(Operations(q, x, 32, 36), x, 36);
    OperationsSplit(q, x, 32, 36, 40);
    p := State(a, b, c, d);
  }

  /** Operations 41 to 48 of MD5Transform. */
  method SixthEight(q: State, x: seq<Word>) returns (p: State)
    requires |x| == 16
    ensures p == Operations(q, x, 40, 48)
  {
    hide F, G, H, I, Mix, Operations, F1, F2, F3, F4, Step, Pow2;
    var a, b, c, d := q.a, q.b, q.c, q.d;
    a := Step(a, F3(b, c, d), b, x[13], 0x289b7ec6, 4);
    d := Step(d, F3(a, b, c), a, x[0], 0xeaa127fa, 11);
    c := Step(c, F3(d, a, b), d, x[3], 0xd4ef3085, 16);
    b := Step(b, F3(c, d, a), c, x[6], 0x04881d05, 23);
    FourOperations(q, x, 40);
    assert State(a, b, c, d) == Operations(q, x, 40, 44);
    a := Step(a, F3(b, c, d), b, x[9], 0xd9d4d039, 4);
    d := Step(d, F3(a, b, c), a, x[12], 0xe6db99e5, 11);
    c := Step(c, F3(d, a, b), d, x[15], 0x1fa27cf8, 16);
    b := Step(b, F3(c, d, a), c, x[2], 0xc4ac5665, 23);
    FourOperations(Operations(q, x, 40, 44), x, 44);
    OperationsSplit(q, x, 40, 44, 48);
    p := State(a, b, c, d);
  }

  /** Operations 49 to 56 of MD5Transform. */
  method SeventhEight(q: State, x: seq<Word>) returns (p: State)
    requires |x| == 16
    ensures p == Operations(q, x, 48, 56)
  {
    hide F, G, H, I, Mix, Operations, F1, F2, F3, F4, Step, Pow2;
    var a, b, c, d := q.a, q.b, q.c, q.d;
    a := Step(a, F4(b, c, d), b, x[0], 0xf4292244, 6);
    d := Step(d, F4(a, b, c), a, x[7], 0x432aff97, 10);
    c := Step(c, F4(d, a, b), d, x[14], 0xab9423a7, 15);
    b := Step(b, F4(c, d, a), c, x[5], 0xfc93a039, 21);
    FourOperations(q, x, 48);
    assert State(a, b, c, d) == Operations(q, x, 48, 52);
    a := Step(a, F4(b, c, d), b, x[12], 0x655b59c3, 6);
    d := Step(d, F4(a, b, c), a, x[3], 0x8f0ccc92, 10);
    c := Step(c, F4(d, a, b), d, x[10], 0xffeff47d, 15);
    b := Step(b, F4(c, d, a), c, x[1], 0x85845dd1, 21);
    FourOperations(Operations(q, x, 48, 52), x, 52);
    OperationsSplit(q, x, 48, 52, 56);
    p := State(a, b, c, d);
  }

  /** Operations 57 to 64 of MD5Transform. */
  method EighthEight(q: State, x: seq<Word>) returns (p: State)
    requires |x| == 16
    ensures p == Operations(q, x, 56, 64)
  {
    hide F, G, H, I, Mix, Operations, F1, F2, F3, F4, Step, Pow2;
    var a, b, c, d := q.a, q.b, q.c, q.d;
    a := Step(a, F4(b, c, d), b, x[8], 0x6fa87e4f, 6);
    d := Step(d, F4(a, b, c), a, x[15], 0xfe2ce6e0, 10);
    c := Step(c, F4(d, a, b), d, x[6], 0xa3014314, 15);
    b := Step(b, F4(c, d, a), c, x[13], 0x4e0811a1, 21);
    FourOperations(q, x, 56);
    assert State(a, b, c, d) == Operations(q, x, 56, 60);
    a := Step(a, F4(b, c, d), b, x[4], 0xf7537e82, 6);
    d := Step(d, F4(a, b, c), a, x[11], 0xbd3af235, 10);
    c := Step(c, F4(d, a, b), d, x[2], 0x2ad7d2bb, 15);
    b := Step(b, F4(c, d, a), c, x[9], 0xeb86d391, 21);
    FourOperations(Operations(q, x, 56, 60), x, 60);
    OperationsSplit(q, x, 56, 60, 64);
    p := State(a, b, c, d);
  }

  /** MD5Transform */
  method Transform(q: State, x: seq<Word>) returns (p: State)
    requires |x| == 16
    ensures p == Compress(q, x)
  {
    hide Operations, Add;
    var r1 := FirstEight(q, x);
    var r2 := SecondEight(r1, x);
    var r3 := ThirdEight(r2, x);
    var r4 := FourthEight(r3, x);
    var r5 := FifthEight(r4, x);
    var r6 := SixthEight(r5, x);
    var r7 := SeventhEight(r6, x);
    var r8 := EighthEight(r7, x);
    OperationsSplit(q, x, 0, 8, 16);
    OperationsSplit(q, x, 0, 16, 24);
    OperationsSplit(q, x, 0, 24, 32);
    OperationsSplit(q, x, 0, 32, 40);
    OperationsSplit(q, x, 0, 40, 48);
    OperationsSplit(q, x, 0, 48, 56);
    OperationsSplit(q, x, 0, 56, 64);
    p := State(Add(q.a, r8.a), Add(q.b, r8.b), Add(q.c, r8.c), Add(q.d, r8.d));
  }

  // ------------------------------------------------------ the digest of a whole message

  type Byte = b: nat | b < 256

  function FromBytes(b0: nat, b1: nat, b2: nat, b3: nat): Word
    requires b0 < 256 && b1 < 256 && b2 < 256 && b3 < 256
  {
    b0 + 0x100 * b1 + 0x1_0000 * b2 + 0x100_0000 * b3
  }

  /** A block as sixteen words, low-order byte first. */
  function Decode(block: seq<Byte>): (x: seq<Word>)
    requires |block| == 64
    ensures |x| == 16
  {
    seq(16, i requires 0 <= i < 16 =>
      FromBytes(block[4 * i], block[4 * i + 1], block[4 * i + 2], block[4 * i + 3]))
  }

  /** The n low bytes of x, low-order byte first. */
  function Bytes(x: nat, n: nat): (s: seq<Byte>)
    ensures |s| == n
  {
    if n == 0 then [] else [x % 256] + Bytes(x / 256, n - 1)
  }

  /** All complete blocks of m in turn; what is left over is not looked at. */
  function Absorb(q: State, m: seq<Byte>): State
    decreases |m|
  {
    if |m| < 64 then q else Absorb(Compress(q, Decode(m[..64])), m[64..])
  }

  function Zeros(n: nat): (s: seq<Byte>)
    ensures |s| == n
  {
    seq(n, i => 0)
  }

  /** The message length in bits as two words, modulo two to the 64. */
  function BitsLow(n: nat): Word { 8 * n % WORDS }

  function BitsHigh(n: nat): Word { 8 * n / WORDS % WORDS }

  /** Sections 3.1 and 3.2 of RFC 1321: a one bit, zeros up to 56 modulo 64 bytes, and the length
      in bits, low-order word first. */
  function Padding(n: nat): (p: seq<Byte>)
    ensures |p| == 9 + ZeroCount(n)
  {
    [0x80] + Zeros(ZeroCount(n)) + Bytes(BitsLow(n), 4) + Bytes(BitsHigh(n), 4)
  }

  /** Zero bytes needed to reach 56 modulo 64 after the 0x80. */
  function ZeroCount(n: nat): (z: nat)
    ensures z < 64
  {
    if n % 64 < 56 then 55 - n % 64 else 119 - n % 64
  }

  /** The padded length is whole blocks. */
  lemma PaddingIsWhole(n: nat)
    ensures (n + |Padding(n)|) % 64 == 0
  {
    var r := n % 64;
    assert n == 64 * (n / 64) + r;
    assert n + |Padding(n)| == 64 * (n / 64 + if r < 56 then 1 else 2);
  }

  function Pad(m: seq<Byte>): seq<Byte> { m + Padding(|m|) }

  /** Section 3.5: the four registers, low-order byte first. */
  function Output(q: State): seq<Byte> { Bytes(q.a, 4) + Bytes(q.b, 4) + Bytes(q.c, 4) + Bytes(q.d, 4) }

  function Digest(m: seq<Byte>): seq<Byte> { Output(Absorb(INIT, Pad(m))) }

  lemma {:induction false} AbsorbJoins(q: State, a: seq<Byte>, b: seq<Byte>)
    requires |a| % 64 == 0
    ensures Absorb(q, a + b) == Absorb(Absorb(q, a), b)
    decreases |a|
  {
    hide Compress, Decode;
    if a == [] {
      assert a + b == b;
    } else {
      assert (a + b)[..64] == a[..64] && (a + b)[64..] == a[64..] + b;
      AbsorbJoins(Compress(q, Decode(a[..64])), a[64..], b);
    }
  }

  lemma AbsorbBlock(q: State, block: seq<Byte>)
    requires |block| == 64
    ensures Absorb(q, block) == Compress(q, Decode(block))
  {
    assert block[..64] == block && block[64..] == [];
  }

  // ------------------------------------------------------- the code, step by step

  /** Adding eight times len to the count: the low words, a carry if their sum wraps around, and
      the high words. */
  lemma BitsAdd(n: nat, len: nat)
    requires len < WORDS
    ensures var low := (BitsLow(n) + 8 * len % WORDS) % WORDS;
            var carried := if low < BitsLow(n) then (BitsHigh(n) + 1) % WORDS else BitsHigh(n);
            BitsLow(n + len) == low && BitsHigh(n + len) == (carried + len / 0x2000_0000) % WORDS
  {
    var q, l, h, e := 8 * n / WORDS, 8 * n % WORDS, len / 0x2000_0000, 8 * len % WORDS;
    assert 8 * len == WORDS * h + e;
    var c := if l + e >= WORDS then 1 else 0;
    Quotient(8 * (n + len), q + h + c, l + e - WORDS * c);
    Quotient(l + e, c, l + e - WORDS * c);
    HighWord(q, c, h);
  }

  lemma Quotient(x: nat, q: nat, r: nat)
    requires x == WORDS * q + r && r < WORDS
    ensures x / WORDS == q && x % WORDS == r
  {
  }

  lemma HighWord(q: nat, c: nat, h: nat)
    requires c <= 1
    ensures (q + h + c) % WORDS == ((if c == 1 then (q % WORDS + 1) % WORDS else q % WORDS) + h) % WORDS
  {
    ModAdd(q + c, h);
    ModAdd(q, c);
  }

  lemma ModAdd(x: nat, y: nat)
    ensures (x + y) % WORDS == (x % WORDS + y) % WORDS
  {
    var q := x / WORDS;
    assert x + y == WORDS * q + (x % WORDS + y);
    var r := (x % WORDS + y) / WORDS;
    Quotient(x + y, q + r, (x % WORDS + y) % WORDS);
  }

  /** struct uade_MD5Context.  The message so far is `blocks`, which have been transformed,
      followed by `rest`, which is held in `input`. */
  class Context {
    var buf: State
    var bits0: Word
    var bits1: Word
    const input: array<Byte>
    ghost var blocks: seq<Byte>
    ghost var rest: seq<Byte>

    ghost predicate Valid()
      reads this, input
    {
      && input.Length == 64
      && Whole(blocks) && |rest| < 64
      && buf == Absorb(INIT, blocks)
      && bits0 == BitsLow(|blocks| + |rest|) && bits1 == BitsHigh(|blocks| + |rest|)
      && input[..|rest|] == rest
    }

    ghost function Message(): seq<Byte>
      reads this
    {
      blocks + rest
    }

    /** uade_MD5Init */
    constructor ()
      ensures Valid() && Message() == [] && fresh(input)
    {
      buf := INIT;
      bits0, bits1 := 0, 0;
      input := new Byte[64](i => 0);
      blocks, rest := [], [];
    }

    /** memcpy to ctx->in + at */
    method CopyIn(at: nat, data: seq<Byte>)
      requires input.Length == 64 && at + |data| <= 64
      modifies input
      ensures input[..at + |data|] == old(input[..at]) + data
    {
      var i := 0;
      while i < |data|
        invariant 0 <= i <= |data|
        invariant forall k :: 0 <= k < at ==> input[k] == old(input[k])
        invariant forall k :: at <= k < at + i ==> input[k] == data[k - at]
      {
        input[at + i] := data[i];
        i := i + 1;
      }
    }

    /** MD5Transform of the buffered block. */
    method Flush()
      requires input.Length == 64
      modifies `buf
      ensures buf == Compress(old(buf), Decode(input[..]))
    {
      hide Compress, Decode;
      buf := Transform(buf, Decode(input[..]));
    }

    /** The two-word bit count of uade_MD5Update. */
    method CountBits(len: nat, ghost n: nat)
      requires len < WORDS && bits0 == BitsLow(n) && bits1 == BitsHigh(n)
      modifies `bits0, `bits1
      ensures bits0 == BitsLow(n + len) && bits1 == BitsHigh(n + len)
    {
      BitsAdd(n, len);
      hide BitsLow, BitsHigh;
      var t := bits0;
      bits0 := (t + 8 * len % WORDS) % WORDS;
      if bits0 < t {
        bits1 := (bits1 + 1) % WORDS;
      }
      bits1 := (bits1 + len / 0x2000_0000) % WORDS;
    }

    /** uade_MD5Update */
    method Update(data: seq<Byte>)
      requires Valid() && |data| < WORDS
      modifies this, input
      ensures Valid() && Message() == old(Message()) + data
    {
      hide Absorb, Compress, Decode, BitsLow, BitsHigh, Whole;
      BytesHeld(blocks, rest);
      var t := bits0 / 8 % 64;
      CountBits(|data|, |blocks| + |rest|);
      var pos := 0;
      if t != 0 {
        if |data| < 64 - t {
          CopyIn(t, data);
          rest := rest + data;
          assert Message() == old(Message()) + data;
          return;
        }
        FillUp(data[..64 - t]);
        pos := 64 - t;
      }
      TakeRest(data, pos, old(Message()));
    }

    /** The leading piece that completes a block. */
    method FillUp(piece: seq<Byte>)
      requires input.Length == 64 && |rest| + |piece| == 64 && input[..|rest|] == rest
      requires Whole(blocks) && buf == Absorb(INIT, blocks)
      modifies `buf, `blocks, `rest, input
      ensures blocks == old(Message()) + piece && rest == [] && Whole(blocks) && buf == Absorb(INIT, blocks)
    {
      hide Absorb, Whole;
      CopyIn(64 - |piece|, piece);
      TakeBlock();
      rest := [];
    }

    /** Whole chunks, and what is left over. */
    method TakeRest(data: seq<Byte>, start: nat, ghost m: seq<Byte>)
      requires start <= |data| && input.Length == 64 && Whole(blocks) && buf == Absorb(INIT, blocks)
      requires blocks == m + data[..start]
      requires bits0 == BitsLow(|m| + |data|) && bits1 == BitsHigh(|m| + |data|)
      modifies `buf, `blocks, `rest, input
      ensures Valid() && Message() == m + data
    {
      hide Absorb, Whole, BitsLow, BitsHigh;
      var pos := WholeBlocks(data, start);
      CopyIn(0, data[pos..]);
      rest := data[pos..];
      JoinPieces(m, data, start, pos);
    }

    /** The loop over 64-byte chunks. */
    method WholeBlocks(data: seq<Byte>, start: nat) returns (pos: nat)
      requires start <= |data| && input.Length == 64 && Whole(blocks) && buf == Absorb(INIT, blocks)
      modifies `buf, `blocks, input
      ensures start <= pos <= |data| < pos + 64
      ensures blocks == old(blocks) + data[start..pos] && Whole(blocks) && buf == Absorb(INIT, blocks)
    {
      hide Absorb, Whole;
      pos := start;
      while |data| - pos >= 64
        invariant start <= pos <= |data|
        invariant Whole(blocks) && buf == Absorb(INIT, blocks)
        invariant blocks == old(blocks) + data[start..pos]
      {
        CopyIn(0, data[pos..pos + 64]);
        TakeBlock();
        pos := pos + 64;
      }
    }

    /** MD5Transform of the full buffer. */
    method TakeBlock()
      requires input.Length == 64 && Whole(blocks) && buf == Absorb(INIT, blocks)
      modifies `buf, `blocks
      ensures blocks == old(blocks) + input[..64] && Whole(blocks) && buf == Absorb(INIT, blocks)
    {
      hide Absorb, Compress, Decode, Whole;
      assert input[..64] == input[..];
      Flush();
      OneMoreBlock(blocks, input[..]);
      blocks := blocks + input[..];
    }

    /** memset of ctx->in from at to end. */
    method Clear(at: nat, end: nat)
      requires input.Length == 64 && at <= end <= 64
      modifies input
      ensures input[..end] == old(input[..at]) + Zeros(end - at)
    {
      var i := at;
      while i < end
        invariant at <= i <= end
        invariant forall k :: 0 <= k < at ==> input[k] == old(input[k])
        invariant forall k :: at <= k < i ==> input[k] == 0
      {
        input[i] := 0;
        i := i + 1;
      }
    }

    /** uade_MD5Final.  The last statement of the original clears as many bytes as a pointer has,
        which is the first two registers. */
    method Final() returns (digest: seq<Byte>)
      requires Valid()
      modifies this, input
      ensures digest == Digest(old(Message()))
      ensures buf.a == buf.b == 0 && bits0 == old(bits0) && bits1 == old(bits1)
    {
      hide Absorb, Compress, Decode, BitsLow, BitsHigh, Whole, Bytes, Output;
      PadOut();
      CopyIn(56, Bytes(bits0, 4) + Bytes(bits1, 4));
      TakeBlock();
      PadShape(old(Message()), blocks);
      digest := Output(buf);
      buf := buf.(a := 0, b := 0);
    }

    /** The part of uade_MD5Final that pads to 56 modulo 64 bytes. */
    method PadOut()
      requires Valid()
      modifies `buf, `blocks, input
      ensures Whole(blocks) && buf == Absorb(INIT, blocks)
      ensures blocks + input[..56] == Message0(old(Message()))
    {
      hide Absorb, Compress, Decode, BitsLow, BitsHigh, Whole;
      BytesHeld(blocks, rest);
      PadCount(blocks, rest);
      var count := bits0 / 8 % 64;
      input[count] := 0x80;
      assert input[..count + 1] == rest + [0x80];
      if 63 - count < 8 {
        Clear(count + 1, 64);
        TakeBlock();
        Clear(0, 56);
        assert Zeros(63 - count) + Zeros(56) == Zeros(119 - count);
      } else {
        Clear(count + 1, 56);
      }
    }
  }

  /** A message with its padding up to the length. */
  function Message0(m: seq<Byte>): seq<Byte> { m + [0x80] + Zeros(ZeroCount(|m|)) }

  lemma PadShape(m: seq<Byte>, p: seq<Byte>)
    requires p == Message0(m) + (Bytes(BitsLow(|m|), 4) + Bytes(BitsHigh(|m|), 4))
    ensures p == Pad(m)
  {
  }

  lemma PadCount(blocks: seq<Byte>, rest: seq<Byte>)
    requires Whole(blocks) && |rest| < 64
    ensures ZeroCount(|blocks| + |rest|) == if 63 - |rest| < 8 then 119 - |rest| else 55 - |rest|
  {
    assert (|blocks| + |rest|) % 64 == |rest| by {
      assert |blocks| == 64 * (|blocks| / 64);
    }
  }

  lemma JoinPieces(m: seq<Byte>, data: seq<Byte>, a: nat, b: nat)
    requires a <= b <= |data|
    ensures m + data[..a] + data[a..b] + data[b..] == m + data
  {
  }

  predicate Whole(s: seq<Byte>) { |s| % 64 == 0 }

  lemma OneMoreBlock(m: seq<Byte>, block: seq<Byte>)
    requires Whole(m) && |block| == 64
    ensures Whole(m + block) && Absorb(INIT, m + block) == Compress(Absorb(INIT, m), Decode(block))
  {
    hide Compress, Decode, Absorb;
    AbsorbJoins(INIT, m, block);
    AbsorbBlock(Absorb(INIT, m), block);
  }

  /** The bytes held over are the message length modulo 64, as the bit count has it. */
  lemma BytesHeld(blocks: seq<Byte>, rest: seq<Byte>)
    requires Whole(blocks) && |rest| < 64
    ensures BitsLow(|blocks| + |rest|) / 8 % 64 == |rest|
  {
    var n, k := |blocks| + |rest|, |blocks| / 64;
    var q, r := k / 0x80_0000, k % 0x80_0000;
    assert n == 64 * k + |rest|;
    Quotient(8 * n, q, 8 * (64 * r + |rest|));
  }

  function Concat(pieces: seq<seq<Byte>>): seq<Byte> {
    if pieces == [] then [] else Concat(pieces[..|pieces| - 1]) + pieces[|pieces| - 1]
  }

  /** However a message is cut into pieces, the digest is that of the whole message. */
  method DigestPieces(pieces: seq<seq<Byte>>) returns (digest: seq<Byte>)
    requires forall p :: p in pieces ==> |p| < WORDS
    ensures digest == Digest(Concat(pieces))
  {
    hide Digest;
    var ctx := new Context();
    var i := 0;
    while i < |pieces|
      invariant 0 <= i <= |pieces|
      invariant fresh(ctx) && fresh(ctx.input) && ctx.Valid() && ctx.Message() == Concat(pieces[..i])
    {
      ctx.Update(pieces[i]);
      assert pieces[..i + 1][..i] == pieces[..i];
      i := i + 1;
    }
    assert pieces[..i] == pieces;
    digest := ctx.Final();
  }
}
