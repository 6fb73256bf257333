/**
 The rotations through X and the arithmetic left shift that gen_opcode in src/gencpu.c emits,
 against one-bit steps.  The operand is the low bits of a 32-bit word.
 */
module Rotate {

  import opened Cpu
  import opened Words

  // ------------------------------------------------------------------ one-bit rotations

  /** X above the operand's bits: the register that ROXL and ROXR rotate. */
  function Extended(n: nat, val: Word, x: bool): (w: seq<bool>)
    requires n <= 32
    ensures |w| == n + 1
  {
    val[..n] + [x]
  }

  /** One step to the left: the top bit comes back in at the bottom. */
  function LeftOne(w: seq<bool>): (r: seq<bool>)
    requires w != []
    ensures |r| == |w|
  {
    [w[|w| - 1]] + w[..|w| - 1]
  }

  function RightOne(w: seq<bool>): (r: seq<bool>)
    requires w != []
    ensures |r| == |w|
  {
    w[1..] + [w[0]]
  }

  function Left(w: seq<bool>, k: nat): (r: seq<bool>)
    requires w != []
    ensures |r| == |w|
  {
    if k == 0 then w else LeftOne(Left(w, k - 1))
  }

  function Right(w: seq<bool>, k: nat): (r: seq<bool>)
    requires w != []
    ensures |r| == |w|
  {
    if k == 0 then w else RightOne(Right(w, k - 1))
  }

  lemma LeftOneAt(high: seq<bool>, low: seq<bool>, b: bool)
    ensures LeftOne(high + (low + [b])) == ([b] + high) + low
  {
    assert high + (low + [b]) == (high + low) + [b];
    assert [b] + (high + low) == ([b] + high) + low;
  }

  /** Where the bits are after k <= |w| steps. */
  lemma {:induction false} LeftAt(w: seq<bool>, k: nat)
    requires w != [] && k <= |w|
    ensures Left(w, k) == w[|w| - k..] + w[..|w| - k]
  {
    if k > 0 {
      LeftAt(w, k - 1);
      LeftOneAt(w[|w| - k + 1..], w[..|w| - k], w[|w| - k]);
      assert Left(w, k - 1) == w[|w| - k + 1..] + (w[..|w| - k] + [w[|w| - k]]);
      assert [w[|w| - k]] + w[|w| - k + 1..] == w[|w| - k..];
    }
  }

  lemma {:induction false} RightAt(w: seq<bool>, k: nat)
    requires w != [] && k <= |w|
    ensures Right(w, k) == w[k..] + w[..k]
  {
    if k > 0 {
      RightAt(w, k - 1);
    }
  }

  /** As many steps as there are bits change nothing. */
  lemma {:induction false} FullTurn(w: seq<bool>, k: nat)
    requires w != []
    ensures Left(w, k + |w|) == Left(w, k) && Right(w, k + |w|) == Right(w, k)
  {
    if k == 0 {
      LeftAt(w, |w|);
      RightAt(w, |w|);
    } else {
      FullTurn(w, k - 1);
    }
  }

  /** k steps right undo k steps left. */
  lemma {:induction false} RightUndoesLeft(w: seq<bool>, k: nat)
    requires w != []
    ensures Right(Left(w, k), k) == w
  {
    if k > 0 {
      var v := Left(w, k - 1);
      RightUndoesLeft(w, k - 1);
      RightFirst(LeftOne(v), k - 1);
      assert RightOne(LeftOne(v)) == v;
    }
  }

  lemma {:induction false} RightFirst(w: seq<bool>, k: nat)
    requires w != []
    ensures Right(w, k + 1) == Right(RightOne(w), k)
  {
    if k > 0 {
      RightFirst(w, k - 1);
    }
  }

  // ---------------------------------------------------------------- the emitted code

  /** force_range_for_rox: the subtractions that bring a count of at most 63 into 0 .. n. */
  function ForceRange(size: Size, cnt: nat): nat {
    match size
    case Long => if cnt >= 33 then cnt - 33 else cnt
    case Word =>
      var c := if cnt >= 34 then cnt - 34 else cnt;
      if c >= 17 then c - 17 else c
    case Byte =>
      var c := if cnt >= 36 then cnt - 36 else cnt;
      var d := if c >= 18 then c - 18 else c;
      if d >= 9 then d - 9 else d
  }

  function Bit(x: bool): Word { Range(0, if x then 1 else 0) }

  /** ROXL by 1 <= cnt <= n: the new operand and X. */
  function Roxl(n: nat, val: Word, x: bool, cnt: nat): (Word, bool)
    requires 1 <= cnt <= n <= 32
  {
    var loval := Shr(val, n - cnt);
    var v := Or(Shl(Or(Shl(val, 1), Bit(x)), cnt - 1), Shr(loval, 1));
    (And(v, Ones(n)), loval[0])
  }

  /** ROXR by 1 <= cnt <= n. */
  function Roxr(n: nat, val: Word, x: bool, cnt: nat): (Word, bool)
    requires 1 <= cnt <= n <= 32
  {
    var hival := Shl(Or(Shl(val, 1), Bit(x)), n - cnt);
    var v := Shr(val, cnt - 1);
    (And(Or(Shr(v, 1), hival), Ones(n)), v[0])
  }

  /** The operand fits its size. */
  predicate Fits(n: nat, val: Word)
    requires n <= 32
  {
    forall i :: n <= i < 32 ==> !val[i]
  }

  lemma RoxlBit(n: nat, val: Word, x: bool, cnt: nat, i: nat)
    requires 1 <= cnt <= n <= 32 && Fits(n, val) && i < 32
    ensures Roxl(n, val, x, cnt).0[i] ==
            (i < n && if i >= cnt then val[i - cnt] else if i == cnt - 1 then x else val[i + n + 1 - cnt])
  {
    var a := Or(Shl(val, 1), Bit(x));
    assert Shl(a, cnt - 1)[i] == (i >= cnt - 1 && a[i - (cnt - 1)]);
    var loval := Shr(val, n - cnt);
    assert Shr(loval, 1)[i] == (i + 1 < 32 && loval[i + 1]);
  }

  /** ROXL by cnt is cnt one-bit steps, X included. */
  lemma RoxlIsLeft(n: nat, val: Word, x: bool, cnt: nat)
    requires 1 <= cnt <= n <= 32 && Fits(n, val)
    ensures var (v, c) := Roxl(n, val, x, cnt);
            Fits(n, v) && Extended(n, v, c) == Left(Extended(n, val, x), cnt)
  {
    var w := Extended(n, val, x);
    LeftAt(w, cnt);
    var (v, c) := Roxl(n, val, x, cnt);
    assert c == val[n - cnt];
    forall i | 0 <= i < 32
      ensures v[i] == (i < n && if i >= cnt then val[i - cnt]
                                else if i == cnt - 1 then x else val[i + n + 1 - cnt]) {
      RoxlBit(n, val, x, cnt, i);
    }
    hide Roxl, Left;
    JoinLeft(n, val, x, cnt, v, c);
  }

  lemma JoinLeft(n: nat, val: Word, x: bool, cnt: nat, v: Word, c: bool)
    requires 1 <= cnt <= n <= 32 && c == val[n - cnt]
    requires forall i :: 0 <= i < n ==> v[i] == if i >= cnt then val[i - cnt] else if i == cnt - 1 then x
             else val[i + n + 1 - cnt]
    ensures var w := Extended(n, val, x);
            Extended(n, v, c) == w[n + 1 - cnt..] + w[..n + 1 - cnt]
  {
    var w, r := Extended(n, val, x), Extended(n, v, c);
    assert forall i :: 0 <= i < n ==> w[i] == val[i];
    forall i | 0 <= i <= n ensures r[i] == (w[n + 1 - cnt..] + w[..n + 1 - cnt])[i] {
      if i < cnt {
        assert (w[n + 1 - cnt..] + w[..n + 1 - cnt])[i] == w[n + 1 - cnt + i];
      } else {
        assert (w[n + 1 - cnt..] + w[..n + 1 - cnt])[i] == w[i - cnt];
      }
    }
  }

  lemma RoxrBit(n: nat, val: Word, x: bool, cnt: nat, i: nat)
    requires 1 <= cnt <= n <= 32 && Fits(n, val) && i < 32
    ensures Roxr(n, val, x, cnt).0[i] ==
            (i < n && if i < n - cnt then val[i + cnt] else if i == n - cnt then x else val[i - (n - cnt) - 1])
  {
    var a := Or(Shl(val, 1), Bit(x));
    assert Shl(a, n - cnt)[i] == (i >= n - cnt && a[i - (n - cnt)]);
    var v := Shr(val, cnt - 1);
    assert Shr(v, 1)[i] == (i + 1 < 32 && v[i + 1]);
  }

  lemma RoxrIsRight(n: nat, val: Word, x: bool, cnt: nat)
    requires 1 <= cnt <= n <= 32 && Fits(n, val)
    ensures var (v, c) := Roxr(n, val, x, cnt);
            Fits(n, v) && Extended(n, v, c) == Right(Extended(n, val, x), cnt)
  {
    var w := Extended(n, val, x);
    RightAt(w, cnt);
    var (v, c) := Roxr(n, val, x, cnt);
    assert c == val[cnt - 1];
    hide Roxr;
    forall i | 0 <= i < 32
      ensures v[i] == (i < n && if i < n - cnt then val[i + cnt]
                                else if i == n - cnt then x else val[i - (n - cnt) - 1]) {
      RoxrBit(n, val, x, cnt, i);
    }
    forall i | 0 <= i <= n ensures Extended(n, v, c)[i] == (w[cnt..] + w[..cnt])[i] {
    }
  }

  /** A count of up to 63 is brought into range by whole turns. */
  lemma ForcedCount(size: Size, w: seq<bool>, cnt: nat)
    requires cnt < 64 && |w| == Bits(size) + 1
    ensures ForceRange(size, cnt) <= Bits(size)
    ensures Left(w, ForceRange(size, cnt)) == Left(w, cnt) && Right(w, ForceRange(size, cnt)) == Right(w, cnt)
  {
    hide ForceRange, Bits, Left, Right;
    var r := ForceRange(size, cnt);
    var q := RangeIsRemainder(size, cnt);
    WholeTurns(w, r, q);
  }

  lemma RangeIsRemainder(size: Size, cnt: nat) returns (q: nat)
    requires cnt < 64
    ensures ForceRange(size, cnt) <= Bits(size) && ForceRange(size, cnt) + q * (Bits(size) + 1) == cnt
  {
    q := (cnt - ForceRange(size, cnt)) / (Bits(size) + 1);
  }

  lemma {:induction false} WholeTurns(w: seq<bool>, r: nat, q: nat)
    requires w != []
    ensures Left(w, r + q * |w|) == Left(w, r) && Right(w, r + q * |w|) == Right(w, r)
  {
    hide Left, Right;
    if q > 0 {
      WholeTurns(w, r, q - 1);
      FullTurn(w, r + (q - 1) * |w|);
      assert r + q * |w| == r + (q - 1) * |w| + |w|;
    }
  }

  /** The whole instruction with a count in a register; `immediate` leaves out the range test. */
  function RoxlOp(size: Size, val: Word, f: Flags, count: nat, immediate: bool): (Word, Flags)
    requires immediate ==> 1 <= count <= 8
  {
    var n := Bits(size);
    var cnt := if immediate then count else ForceRange(size, count % 64);
    if 1 <= cnt <= n then
      var (v, x) := Roxl(n, val, f.x, cnt);
      (v, Flags(x, v[..n] == Zero()[..n], v[n - 1], false, x))
    else (val, Flags(f.x, val[..n] == Zero()[..n], val[n - 1], false, f.x))
  }

  function RoxrOp(size: Size, val: Word, f: Flags, count: nat, immediate: bool): (Word, Flags)
    requires immediate ==> 1 <= count <= 8
  {
    var n := Bits(size);
    var cnt := if immediate then count else ForceRange(size, count % 64);
    if 1 <= cnt <= n then
      var (v, x) := Roxr(n, val, f.x, cnt);
      (v, Flags(x, v[..n] == Zero()[..n], v[n - 1], false, x))
    else (val, Flags(f.x, val[..n] == Zero()[..n], val[n - 1], false, f.x))
  }

  /** For every size and every count: as many one-bit rotations of X and the operand as the count
      says, modulo 64 when it is in a register. */
  lemma RoxlRotates(size: Size, val: Word, f: Flags, count: nat, immediate: bool)
    requires Fits(Bits(size), val) && (immediate ==> 1 <= count <= 8)
    ensures var (v, g) := RoxlOp(size, val, f, count, immediate);
            && Fits(Bits(size), v) && g.c == g.x && !g.v && g.n == v[Bits(size) - 1] && (g.z <==> v == Zero())
            && Extended(Bits(size), v, g.x) == Left(Extended(Bits(size), val, f.x),
                                                    if immediate then count else count % 64)
  {
    ZeroTest(Bits(size), RoxlOp(size, val, f, count, immediate).0);
    hide Roxl, Left;
    var n := Bits(size);
    var w := Extended(n, val, f.x);
    ForcedCount(size, w, count % 64);
    var cnt := if immediate then count else ForceRange(size, count % 64);
    if 1 <= cnt <= n {
      RoxlIsLeft(n, val, f.x, cnt);
    } else {
      assert Left(w, 0) == w by { NoSteps(w); }
    }
  }

  lemma RoxrRotates(size: Size, val: Word, f: Flags, count: nat, immediate: bool)
    requires Fits(Bits(size), val) && (immediate ==> 1 <= count <= 8)
    ensures var (v, g) := RoxrOp(size, val, f, count, immediate);
            && Fits(Bits(size), v) && g.c == g.x && !g.v && g.n == v[Bits(size) - 1] && (g.z <==> v == Zero())
            && Extended(Bits(size), v, g.x) == Right(Extended(Bits(size), val, f.x),
                                                     if immediate then count else count % 64)
  {
    ZeroTest(Bits(size), RoxrOp(size, val, f, count, immediate).0);
    hide Roxr, Right;
    var n := Bits(size);
    var w := Extended(n, val, f.x);
    ForcedCount(size, w, count % 64);
    var cnt := if immediate then count else ForceRange(size, count % 64);
    if 1 <= cnt <= n {
      RoxrIsRight(n, val, f.x, cnt);
    } else {
      assert Right(w, 0) == w by { NoSteps(w); }
    }
  }

  lemma NoSteps(w: seq<bool>)
    requires w != []
    ensures Left(w, 0) == w && Right(w, 0) == w
  {
  }

  /** ROXR by the same count undoes ROXL, X included. */
  lemma RoxrUndoesRoxl(size: Size, val: Word, f: Flags, count: nat, immediate: bool)
    requires Fits(Bits(size), val) && (immediate ==> 1 <= count <= 8)
    ensures var (v, g) := RoxlOp(size, val, f, count, immediate);
            var (u, h) := RoxrOp(size, v, g, count, immediate);
            u == val && h.x == f.x
  {
    hide RoxlOp, RoxrOp, Left, Right;
    var n := Bits(size);
    RoxlRotates(size, val, f, count, immediate);
    var (v, g) := RoxlOp(size, val, f, count, immediate);
    RoxrRotates(size, v, g, count, immediate);
    var (u, h) := RoxrOp(size, v, g, count, immediate);
    var w := Extended(n, val, f.x);
    RightUndoesLeft(w, if immediate then count else count % 64);
    assert Extended(n, u, h.x) == w;
    assert u[..n] == val[..n] && h.x == f.x by {
      assert w[..n] == val[..n] && w[n] == f.x;
      assert Extended(n, u, h.x)[..n] == u[..n] && Extended(n, u, h.x)[n] == h.x;
    }
    forall i | 0 <= i < 32 ensures u[i] == val[i] {
      if i < n {
        assert u[..n][i] == val[..n][i];
      }
    }
  }

  // ---------------------------------------------------------------- arithmetic shift

  /** One step of ASL on the operand's bits: C and X take the top bit, V is set for good when the
      sign changes. */
  datatype Shifted = Shifted(bits: seq<bool>, c: bool, v: bool)

  function AslOne(s: Shifted): Shifted
    requires s.bits != []
  {
    var n := |s.bits|;
    var r := [false] + s.bits[..n - 1];
    Shifted(r, s.bits[n - 1], s.v || r[n - 1] != s.bits[n - 1])
  }

  function AslSteps(bits: seq<bool>, k: nat): (s: Shifted)
    requires bits != []
    ensures |s.bits| == |bits|
  {
    if k == 0 then Shifted(bits, false, false) else AslOne(AslSteps(bits, k - 1))
  }

  predicate BitOr0(bits: seq<bool>, i: int) { 0 <= i < |bits| && bits[i] }

  /** The bits are `bits`, k places up. */
  predicate Up(s: Shifted, bits: seq<bool>, k: nat) {
    |s.bits| == |bits| && forall i :: 0 <= i < |bits| ==> s.bits[i] == BitOr0(bits, i - k)
  }

  /** Where the bits are after k steps. */
  lemma {:induction false} AslBits(bits: seq<bool>, k: nat)
    requires bits != []
    ensures Up(AslSteps(bits, k), bits, k)
    ensures AslSteps(bits, k).c == (k > 0 && BitOr0(bits, |bits| - k))
  {
    if k > 0 {
      hide Up, BitOr0, AslOne;
      AslBits(bits, k - 1);
      OneMoreShift(AslSteps(bits, k - 1), bits, k);
    }
  }

  lemma OneMoreShift(s: Shifted, bits: seq<bool>, k: nat)
    requires k > 0 && bits != [] && s.bits != [] && Up(s, bits, k - 1)
    ensures Up(AslOne(s), bits, k) && AslOne(s).c == BitOr0(bits, |bits| - k)
  {
    hide BitOr0;
    var t := AslOne(s);
    assert t.c == s.bits[|bits| - 1];
    forall i | 0 <= i < |bits| ensures t.bits[i] == BitOr0(bits, i - k) {
      if i > 0 {
        assert t.bits[i] == s.bits[i - 1] == BitOr0(bits, i - 1 - (k - 1));
      } else {
        Outside(bits, i - k);
      }
    }
  }

  lemma Outside(bits: seq<bool>, i: int)
    requires i < 0
    ensures !BitOr0(bits, i)
  {
  }

  /** Bit i differs from the one below it. */
  predicate Edge(bits: seq<bool>, i: int) { BitOr0(bits, i) != BitOr0(bits, i - 1) }

  /** Some of the top k bits differs from the one below it. */
  predicate EdgeAbove(bits: seq<bool>, k: nat) { exists i :: |bits| - k <= i < |bits| && Edge(bits, i) }

  /** The sign changes at some step exactly when there is an edge among the bits shifted past. */
  lemma {:induction false} AslOverflow(bits: seq<bool>, k: nat)
    requires bits != []
    ensures AslSteps(bits, k).v <==> EdgeAbove(bits, k)
  {
    if k > 0 {
      AslOverflow(bits, k - 1);
      OneMoreSign(bits, k);
      OneMoreEdge(bits, k);
    }
  }

  lemma OneMoreSign(bits: seq<bool>, k: nat)
    requires bits != [] && k > 0
    ensures AslSteps(bits, k).v <==> AslSteps(bits, k - 1).v || Edge(bits, |bits| - k)
  {
    var n, a, b := |bits|, AslSteps(bits, k - 1), AslSteps(bits, k);
    assert b == AslOne(a);
    assert Edge(bits, n - k) == (BitOr0(bits, n - k) != BitOr0(bits, n - k - 1));
    hide *;
    SignAfterOne(a);
    TopBit(bits, k - 1);
    TopBit(bits, k);
    assert n - 1 - (k - 1) == n - k && n - 1 - k == n - k - 1;
  }

  lemma TopBit(bits: seq<bool>, k: nat)
    requires bits != []
    ensures AslSteps(bits, k).bits[|bits| - 1] == BitOr0(bits, |bits| - 1 - k)
  {
    AslBits(bits, k);
  }

  lemma SignAfterOne(s: Shifted)
    requires s.bits != []
    ensures var t := AslOne(s);
            |t.bits| == |s.bits| && (t.v <==> s.v || t.bits[|t.bits| - 1] != s.bits[|s.bits| - 1])
  {
  }

  lemma OneMoreEdge(bits: seq<bool>, k: nat)
    requires k > 0 && bits != []
    ensures EdgeAbove(bits, k) <==> EdgeAbove(bits, k - 1) || Edge(bits, |bits| - k)
  {
    hide Edge;
    if EdgeAbove(bits, k) {
      var i :| |bits| - k <= i < |bits| && Edge(bits, i);
      assert i == |bits| - k || EdgeAbove(bits, k - 1);
    }
    if EdgeAbove(bits, k - 1) {
      var i :| |bits| - (k - 1) <= i < |bits| && Edge(bits, i);
      assert EdgeAbove(bits, k);
    }
  }

  /** Without an edge all the bits are the same. */
  lemma {:induction false} NoEdges(bits: seq<bool>, lo: int, i: int)
    requires lo <= i < |bits| && forall k :: lo < k < |bits| ==> !Edge(bits, k)
    ensures BitOr0(bits, i) == BitOr0(bits, lo)
    decreases i - lo
  {
    if i > lo {
      NoEdges(bits, lo, i - 1);
      assert !Edge(bits, i);
    }
  }

  /** V by the mask of the top cnt + 1 bits: neither all ones nor all zeros. */
  lemma MaskFindsEdges(bits: seq<bool>, cnt: nat)
    requires cnt < |bits|
    ensures EdgeAbove(bits, cnt) <==>
            (exists i :: |bits| - 1 - cnt <= i < |bits| && !bits[i])
              && (exists i :: |bits| - 1 - cnt <= i < |bits| && bits[i])
  {
    var lo := |bits| - 1 - cnt;
    if i :| lo < i < |bits| && Edge(bits, i) {
      assert bits[i] != bits[i - 1];
    } else {
      forall i | lo <= i < |bits| ensures bits[i] == bits[lo] {
        NoEdges(bits, lo, i);
      }
    }
  }

  /** With the count at least the size, any one bit in the operand makes an edge. */
  lemma AnyBitMakesEdge(bits: seq<bool>, cnt: nat)
    requires bits != [] && cnt >= |bits|
    ensures EdgeAbove(bits, cnt) <==> exists i :: 0 <= i < |bits| && bits[i]
  {
    if i :| |bits| - cnt <= i < |bits| && Edge(bits, i) {
      assert BitOr0(bits, i) || BitOr0(bits, i - 1);
      var k := if BitOr0(bits, i) then i else i - 1;
      assert 0 <= k < |bits| && bits[k];
    } else {
      forall i | 0 <= i < |bits| ensures !bits[i] {
        if |bits| - cnt <= 0 {
          NoEdges(bits, -1, i);
        }
      }
    }
  }

  /** ASL by a count of at most 63 as the code does it. */
  function Asl(n: nat, val: Word, f: Flags, cnt: nat): (Word, Flags)
    requires 1 <= n <= 32 && cnt < 64
  {
    if cnt >= n then
      var c := cnt == n && val[0];
      (Zero(), Flags(c, true, false, val != Zero(), c))
    else if cnt > 0 then
      var mask := And(Shl(Ones(n), n - 1 - cnt), Ones(n));
      var v := Shl(val, cnt - 1);
      var r := And(Shl(v, 1), Ones(n));
      (r, Flags(v[n - 1], r == Zero(), r[n - 1], And(val, mask) != mask && And(val, mask) != Zero(), v[n - 1]))
    else (val, Flags(false, val == Zero(), val[n - 1], false, f.x))
  }

  /** For every size and count: the operand, C and V are those of that many single steps, X is C
      unless the count is zero. */
  lemma AslIsSteps(n: nat, val: Word, f: Flags, cnt: nat)
    requires 1 <= n <= 32 && cnt < 64 && Fits(n, val)
    ensures var (r, g) := Asl(n, val, f, cnt);
            var s := AslSteps(val[..n], cnt);
            && Fits(n, r) && r[..n] == s.bits && g.c == s.c && g.v == s.v
            && g.x == (if cnt == 0 then f.x else s.c)
            && g.n == r[n - 1] && (g.z <==> forall i :: 0 <= i < n ==> !r[i])
  {
    hide *;
    AslBits(val[..n], cnt);
    AslOverflow(val[..n], cnt);
    AslResult(n, val, f, cnt);
    AslSign(n, val, f, cnt);
    LowBits(n, Asl(n, val, f, cnt).0, AslSteps(val[..n], cnt), val[..n], cnt);
  }

  lemma LowBits(n: nat, r: Word, s: Shifted, bits: seq<bool>, k: nat)
    requires n == |bits| <= 32 && Up(s, bits, k) && forall i :: 0 <= i < 32 ==> r[i] == (i < n && BitOr0(bits, i - k))
    ensures Fits(n, r) && r[..n] == s.bits
    ensures r == Zero() <==> forall i :: 0 <= i < n ==> !r[i]
  {
    if forall i :: 0 <= i < n ==> !r[i] {
      assert r == Zero();
    }
  }

  /** The operand and the carry. */
  lemma AslResult(n: nat, val: Word, f: Flags, cnt: nat)
    requires 1 <= n <= 32 && cnt < 64 && Fits(n, val)
    ensures var (r, g) := Asl(n, val, f, cnt);
            && (forall i :: 0 <= i < 32 ==> r[i] == (i < n && BitOr0(val[..n], i - cnt)))
            && g.c == (cnt > 0 && BitOr0(val[..n], n - cnt)) && g.x == (if cnt == 0 then f.x else g.c)
            && g.n == r[n - 1] && (g.z <==> r == Zero())
  {
    var (r, g) := Asl(n, val, f, cnt);
    if 0 < cnt < n {
      var v := Shl(val, cnt - 1);
      assert v[n - 1] == val[n - cnt];
      forall i | 0 <= i < 32 ensures r[i] == (i < n && BitOr0(val[..n], i - cnt)) {
        assert Shl(v, 1)[i] == (i >= 1 && v[i - 1]);
      }
    }
  }

  /** V by the mask. */
  lemma AslSign(n: nat, val: Word, f: Flags, cnt: nat)
    requires 1 <= n <= 32 && cnt < 64 && Fits(n, val)
    ensures Asl(n, val, f, cnt).1.v <==> EdgeAbove(val[..n], cnt)
  {
    if cnt >= n {
      AnyBitMakesEdge(val[..n], cnt);
      ZeroTest(n, val);
    } else if cnt > 0 {
      MaskFindsEdges(val[..n], cnt);
      MaskTest(n, val, cnt);
    }
  }

  lemma ZeroTest(n: nat, val: Word)
    requires n <= 32 && Fits(n, val)
    ensures val != Zero() <==> exists i :: 0 <= i < n && val[..n][i]
  {
    if forall i :: 0 <= i < n ==> !val[..n][i] {
      forall i | 0 <= i < 32 ensures val[i] == Zero()[i] {
        assert i < n ==> val[..n][i] == val[i];
      }
    } else {
      var i :| 0 <= i < n && val[..n][i];
      assert val[i] != Zero()[i];
    }
  }

  lemma MaskTest(n: nat, val: Word, cnt: nat)
    requires 0 < cnt < n <= 32 && Fits(n, val)
    ensures var mask := And(Shl(Ones(n), n - 1 - cnt), Ones(n));
            && (And(val, mask) != mask <==> exists i :: n - 1 - cnt <= i < n && !val[..n][i])
            && (And(val, mask) != Zero() <==> exists i :: n - 1 - cnt <= i < n && val[..n][i])
  {
    var mask := And(Shl(Ones(n), n - 1 - cnt), Ones(n));
    assert mask == Range(n - 1 - cnt, n);
    var a := And(val, mask);
    if i :| n - 1 - cnt <= i < n && !val[..n][i] {
      assert a[i] != mask[i];
    } else {
      assert forall i :: 0 <= i < n ==> val[..n][i] == val[i];
      assert a == mask;
    }
    if i :| n - 1 - cnt <= i < n && val[..n][i] {
      assert a[i] != Zero()[i];
    } else {
      assert forall i :: 0 <= i < n ==> val[..n][i] == val[i];
      assert a == Zero();
    }
  }

  // ------------------------------------------------------- the code, step by step

  /** A register operand together with the flags. */
  class Operand {
    var val: Word
    var c: bool
    var z: bool
    var n: bool
    var v: bool
    var x: bool

    ghost function F(): Flags
      reads this
    {
      Flags(c, z, n, v, x)
    }

    method ClearCznv()
      modifies `c, `z, `n, `v
      ensures !c && !z && !n && !v
    {
      c, z, n, v := false, false, false, false;
    }

    /** ROXL */
    method RoxL(size: Size, count: nat, immediate: bool)
      requires immediate ==> 1 <= count <= 8
      modifies this
      ensures (val, F()) == RoxlOp(size, old(val), old(F()), count, immediate)
    {
      hide Shl, Shr, Or, And, Bit, Ones;
      var bits := Bits(size);
      var cnt := count % 64;
      ClearCznv();
      if !immediate {
        cnt := ForceRange(size, cnt);
      }
      if cnt > 0 {
        cnt := cnt - 1;
        var loval := Shr(val, bits - 1 - cnt);
        var carry := loval[0];
        val := Or(Shl(Or(Shl(val, 1), Bit(x)), cnt), Shr(loval, 1));
        x := carry;
        val := And(val, Ones(bits));
      }
      c := x;
      z := val[..bits] == Zero()[..bits];
      n := val[bits - 1];
    }

    /** ROXR */
    method RoxR(size: Size, count: nat, immediate: bool)
      requires immediate ==> 1 <= count <= 8
      modifies this
      ensures (val, F()) == RoxrOp(size, old(val), old(F()), count, immediate)
    {
      hide Shl, Shr, Or, And, Bit, Ones;
      var bits := Bits(size);
      var cnt := count % 64;
      ClearCznv();
      if !immediate {
        cnt := ForceRange(size, cnt);
      }
      if cnt > 0 {
        cnt := cnt - 1;
        var hival := Shl(Or(Shl(val, 1), Bit(x)), bits - 1 - cnt);
        val := Shr(val, cnt);
        var carry := val[0];
        val := Or(Shr(val, 1), hival);
        x := carry;
        val := And(val, Ones(bits));
      }
      c := x;
      z := val[..bits] == Zero()[..bits];
      n := val[bits - 1];
    }

    /** ASL */
    method AslOp(size: Size, count: nat)
      modifies this
      ensures (val, F()) == Asl(Bits(size), old(val), old(F()), count % 64)
    {
      hide Shl, And, Ones;
      var bits := Bits(size);
      var cnt := count % 64;
      ClearCznv();
      if cnt >= bits {
        v := val != Zero();
        c := cnt == bits && val[0];
        x := c;
        val := Zero();
        assert !val[bits - 1] by { ZeroBits(); }
      } else if cnt > 0 {
        var mask := And(Shl(Ones(bits), bits - 1 - cnt), Ones(bits));
        v := And(val, mask) != mask && And(val, mask) != Zero();
        val := Shl(val, cnt - 1);
        c := val[bits - 1];
        x := c;
        val := Shl(val, 1);
        val := And(val, Ones(bits));
      }
      z := val == Zero();
      n := val[bits - 1];
    }
  }

  lemma ZeroBits()
    ensures forall i :: 0 <= i < 32 ==> !Zero()[i]
  {
  }

  // ------------------------------------------------------------ where the bits go

  lemma {:induction false} LeftMoves(w: seq<bool>, k: nat, i: nat)
    requires i < |w|
    ensures Left(w, k)[(i + k) % |w|] == w[i]
  {
    if k > 0 {
      LeftMoves(w, k - 1, i);
      NextPlace(i + k - 1, |w|);
      hide Left;
      OneMoves(Left(w, k - 1), (i + k - 1) % |w|);
      assert Left(w, k) == LeftOne(Left(w, k - 1)) by { LeftIs(w, k); }
    } else {
      Small(i, |w|);
    }
  }

  lemma LeftIs(w: seq<bool>, k: nat)
    requires w != [] && k > 0
    ensures Left(w, k) == LeftOne(Left(w, k - 1))
  {
  }

  lemma OneMoves(w: seq<bool>, j: nat)
    requires j < |w|
    ensures LeftOne(w)[if j == |w| - 1 then 0 else j + 1] == w[j]
  {
  }

  lemma Small(i: nat, m: nat)
    requires i < m
    ensures i % m == i
  {
  }

  lemma NextPlace(x: nat, m: nat)
    requires m > 0
    ensures (x + 1) % m == if x % m == m - 1 then 0 else x % m + 1
  {
    var q, r := x / m, x % m;
    assert x == m * q + r;
    if r == m - 1 {
      assert m * (q + 1) == m * q + m;
      Remainder(x + 1, m, q + 1, 0);
    } else {
      Remainder(x + 1, m, q, r + 1);
    }
  }

  lemma Remainder(x: nat, m: nat, q: nat, r: nat)
    requires m > 0 && x == m * q + r && r < m
    ensures x % m == r
  {
    var d := x / m - q;
    assert m * d == r - x % m by {
      assert x == m * (x / m) + x % m;
      assert m * d == m * (x / m) - m * q;
    }
    NoMultiple(m, d);
  }

  lemma NoMultiple(m: int, d: int)
    requires m > 0 && -m < m * d < m
    ensures d == 0
  {
  }

  /** X and the operand form a ring in which X is the place above the highest bit; ROXL by k moves what is at place i to
      place i + k, counted around, and leaves X in C. */
  lemma RoxlMovesBits(size: Size, val: Word, f: Flags, count: nat, immediate: bool, i: nat)
    requires Fits(Bits(size), val) && (immediate ==> 1 <= count <= 8) && i <= Bits(size)
    ensures var (v, g) := RoxlOp(size, val, f, count, immediate);
            var n, k := Bits(size), if immediate then count else count % 64;
            var j := (i + k) % (n + 1);
            g.c == g.x && (if j < n then v[j] else g.x) == (if i < n then val[i] else f.x)
  {
    var n, k := Bits(size), if immediate then count else count % 64;
    RoxlRotates(size, val, f, count, immediate);
    LeftMoves(Extended(n, val, f.x), k, i);
    hide RoxlOp, Left;
  }

  /** ROXR moves it to place i - k. */
  lemma RoxrMovesBits(size: Size, val: Word, f: Flags, count: nat, immediate: bool, i: nat)
    requires Fits(Bits(size), val) && (immediate ==> 1 <= count <= 8) && i <= Bits(size)
    ensures var (v, g) := RoxrOp(size, val, f, count, immediate);
            var n, k := Bits(size), if immediate then count else count % 64;
            var j := (i + k) % (n + 1);
            g.c == g.x && (if i < n then v[i] else g.x) == (if j < n then val[j] else f.x)
  {
    var n, k := Bits(size), if immediate then count else count % 64;
    RoxrRotates(size, val, f, count, immediate);
    RightMoves(Extended(n, val, f.x), k, i);
    hide RoxrOp, Right;
  }

  lemma RightMoves(w: seq<bool>, k: nat, i: nat)
    requires i < |w|
    ensures Right(w, k)[i] == w[(i + k) % |w|]
  {
    hide *;
    LeftMoves(Right(w, k), k, i);
    LeftUndoesRight(w, k);
  }

  lemma {:induction false} LeftUndoesRight(w: seq<bool>, k: nat)
    requires w != []
    ensures Left(Right(w, k), k) == w
  {
    if k > 0 {
      LeftInside(RightOne(Right(w, k - 1)), k - 1);
      OneBack(Right(w, k - 1));
      LeftUndoesRight(w, k - 1);
    }
  }

  lemma {:induction false} LeftInside(w: seq<bool>, k: nat)
    requires w != []
    ensures LeftOne(Left(w, k)) == Left(LeftOne(w), k)
  {
    if k > 0 {
      LeftInside(w, k - 1);
    }
  }

  lemma OneBack(w: seq<bool>)
    requires w != []
    ensures LeftOne(RightOne(w)) == w
  {
  }

  /** ASL by cnt moves bit i to bit i + cnt and clears the bits below; C is the last bit that leaves, X follows it unless the
      count is zero, and V says whether on the way some other bit than the old sign stands in its place. */
  lemma AslMovesBits(n: nat, val: Word, f: Flags, cnt: nat)
    requires 1 <= n <= 32 && cnt < 64 && Fits(n, val)
    ensures var (r, g) := Asl(n, val, f, cnt);
            && (forall i :: 0 <= i < n ==> r[i] == (i >= cnt && val[i - cnt]))
            && g.c == (1 <= cnt <= n && val[n - cnt]) && g.x == (if cnt == 0 then f.x else g.c)
            && (g.v <==> exists i :: 1 <= i <= cnt && SignAfter(n, val, i) != val[n - 1])
  {
    AslResult(n, val, f, cnt);
    AslSign(n, val, f, cnt);
    EdgeOrSign(n, val, cnt);
    hide Asl, EdgeAbove;
  }

  /** The bit in the place of the sign after i single shifts. */
  predicate SignAfter(n: nat, val: Word, i: nat)
    requires 1 <= n <= 32
  {
    i < n && val[n - 1 - i]
  }

  lemma EdgeOrSign(n: nat, val: Word, cnt: nat)
    requires 1 <= n <= 32 && Fits(n, val)
    ensures EdgeAbove(val[..n], cnt) <==> exists i :: 1 <= i <= cnt && SignAfter(n, val, i) != val[n - 1]
  {
    var bits := val[..n];
    if i :| 1 <= i <= cnt && SignAfter(n, val, i) != val[n - 1] {
      var j := EdgeBetween(bits, n - 1 - i, n - 1);
    }
    if j :| n - cnt <= j < n && Edge(bits, j) {
      var i := if SignAfter(n, val, n - 1 - j) != val[n - 1] then n - 1 - j else n - j;
      assert BitOr0(bits, j) == (0 <= j && val[j]) && BitOr0(bits, j - 1) == (0 <= j - 1 && val[j - 1]);
      assert 1 <= i <= cnt && SignAfter(n, val, i) != val[n - 1];
    }
  }

  /** Between two places with different bits there is an edge. */
  lemma {:induction false} EdgeBetween(bits: seq<bool>, lo: int, hi: int) returns (j: int)
    requires lo < hi && BitOr0(bits, lo) != BitOr0(bits, hi)
    ensures lo < j <= hi && Edge(bits, j)
    decreases hi - lo
  {
    if BitOr0(bits, hi - 1) != BitOr0(bits, hi) {
      j := hi;
    } else {
      j := EdgeBetween(bits, lo, hi - 1);
    }
  }
}
