/**
 The Copper of src/custom.c: the instruction-fetch state machine that update_copper_1 runs
 lazily up to a beam position, and prepare_copper_1, which predicts where its next
 dangerous MOVE will happen.
 */
module Copper {
  import opened Powers

  // ------------------------------------------------------------- bits of a number

  /** Bitwise and of two non-negative integers. */
  function And(a: nat, b: nat): (r: nat)
    ensures r <= a && r <= b
  {
    if a == 0 || b == 0 then 0 else (if a % 2 == 1 && b % 2 == 1 then 1 else 0) + 2 * And(a / 2, b / 2)
  }

  /** Bitwise or. */
  function Or(a: nat, b: nat): nat {
    a + b - And(a, b)
  }

  // -------------------------------------------------------------------- the state

  const MAXHPOS := 227          // PAL and NTSC
  const LINE_END := 226         // maxhpos & ~1
  const COP_OFFSET := 4

  datatype CopState = Stop | RDelay1 | Read1 | Read2 | BltWait | Wait1 | Wait1b | Wait2

  /** vdiw: waiting for the start or for the stop of the display window. */
  datatype Diw = WaitingStart | WaitingStop

  datatype Cop = Cop(
    i1: nat, i2: nat, state: CopState, ip: int,
    hpos: int, vpos: int, count: int,
    ignoreNext: bool, doMove: bool, vdiw: Diw)

  /** The chip registers the Copper looks at. */
  datatype Chip = Chip(
    copperDma: bool, copcon: nat, aga: bool, planes: nat, blitterBusy: bool,
    plfstrt: int, plflinelen: int, plffirstline: int, plflastline: int,
    cop1lc: int, cop2lc: int)

  /** A MOVE carried out by the Copper: beam position, register and value. */
  datatype Move = Move(vpos: int, hpos: int, reg: nat, val: nat)

  datatype Machine = Machine(c: Cop, chip: Chip, log: seq<Move>)

  /** What stays fixed while the Copper runs: the current beam line, the chip memory, and the
      effect of a custom register write on the registers above. */
  datatype World = World(vpos: nat, mem: int -> nat, wput: (Chip, int, nat, nat) -> Chip)

  ghost predicate WorldOk(w: World) {
    && (forall a :: w.mem(a) < 0x1_0000)
    && (forall k: Chip, h: int, r: nat, v: nat :: k.planes <= 8 ==> w.wput(k, h, r, v).planes <= 8)
  }

  /** hpos and count are even and count never gets ahead of the beam. */
  predicate Valid(m: Machine) {
    && m.c.i1 < 0x1_0000 && m.c.i2 < 0x1_0000 && m.chip.planes <= 8
    && 0 <= m.c.count <= m.c.hpos <= LINE_END && m.c.hpos % 2 == 0 && m.c.count % 2 == 0
  }

  // ---------------------------------------------------------------- small helpers

  /** The compared parts of the beam position and of the instruction words. */
  function Vp(w: World, i2: nat): nat { And(w.vpos, i2 / 256 % 128 + 128) }
  function Hp(count: int, i2: nat): nat requires count >= 0 { And(count, And(i2, 0xFE)) }
  function VCmp(i1: nat, i2: nat): nat { And(i1, Or(i2, 0x8000)) / 256 }
  function HCmp(i1: nat, i2: nat): nat { And(And(i1, i2), 0xFE) }

  /** copper_adjust_diw */
  function Adjusted(w: World, k: Chip, d: Diw): Diw {
    var d1 := if d == WaitingStart && w.vpos == k.plffirstline then WaitingStop else d;
    if d1 == WaitingStop && w.vpos == k.plflastline then WaitingStart else d1
  }

  function AdjustDiw(w: World, k: Chip, c: Cop): Cop {
    c.(vdiw := Adjusted(w, k, c.vdiw))
  }

  const CYCLES_FOR_PLANE: seq<seq<int>> := [
    [0, -1, 0, -1, 0, -1, 0, -1],
    [0, -1, 0, -1, 0, -1, 0, -1],
    [0, -1, 0, -1, 0, -1, 0, -1],
    [0, -1, 0, -1, 0, -1, 0, -1],
    [0, -1, 0, -1, 0, -1, 0, -1],
    [0, -1, 1, -1, 0, -1, 0, -1],
    [0, -1, 1, -1, 0, -1, 1, -1],
    [1, -1, 1, -1, 1, -1, 1, -1],
    [1, -1, 1, -1, 1, -1, 1, -1]]

  /** copper_in_playfield */
  predicate InPlayfield(k: Chip, d: Diw, hpos: int) {
    var h := hpos - COP_OFFSET;
    d == WaitingStop && h >= k.plfstrt && h < k.plfstrt + k.plflinelen
  }

  /** copper_cant_read */
  predicate CantRead(k: Chip, d: Diw, hpos: int)
    requires k.planes <= 8 && hpos >= 0
  {
    if hpos >= 224 then true
    else if k.aga then false
    else if !InPlayfield(k, d, hpos) then false
    else CYCLES_FOR_PLANE[k.planes][hpos % 8] != 0
  }

  /** dangerous_reg */
  predicate Dangerous(reg: nat) { !(0xE0 <= reg < 0x1C0) }

  /** Registers below this number stop the Copper. */
  function Limit(k: Chip): nat {
    if k.copcon / 2 % 2 == 1 then (if k.aga then 0 else 0x40) else 0x80
  }

  /** Entry of waitmasktab. */
  const WAITMASK := 0xFFFF_FF00

  /** The count at which a WAIT that starts looking at count + 2 is expected to match. */
  function NextCount(count: int, hcmp: nat): int
    requires count >= 0
  {
    var t := count + 2;
    var next := Or(And(t, WAITMASK), hcmp);
    if next < t then t else next
  }

  // ------------------------------------------------------- one round of the main loop

  /** The start of a round: end of line and Copper DMA. */
  function Top(m: Machine): Machine {
    var c := if m.c.hpos == LINE_END then m.c.(hpos := 0, count := 0, vpos := m.c.vpos + 1) else m.c;
    m.(c := if m.chip.copperDma then c else c.(state := Stop))
  }

  predicate Done(w: World, m: Machine, until: int) {
    m.c.vpos > w.vpos || m.c.hpos > until || m.c.state == Stop
  }

  /** The end of a round: two cycles later. */
  function Advance(m: Machine): Machine {
    var c := m.c.(hpos := m.c.hpos + 2);
    m.(c := if m.chip.planes < 8 || !InPlayfield(m.chip, c.vdiw, c.hpos) then c.(count := c.count + 2) else c)
  }

  function Fetch1(w: World, m: Machine): Machine {
    m.(c := m.c.(i1 := w.mem(m.c.ip), ip := m.c.ip + 2, state := Read2))
  }

  function DoMove(w: World, m: Machine): Machine {
    var c := m.c.(doMove := false);
    var log := m.log + [Move(c.vpos, c.hpos, c.i1, c.i2)];
    if c.i1 < Limit(m.chip) then m.(c := c.(state := Stop))
    else if c.i1 == 0x88 then m.(c := c.(ip := m.chip.cop1lc, state := RDelay1), log := log)
    else if c.i1 == 0x8A then m.(c := c.(ip := m.chip.cop2lc, state := RDelay1), log := log)
    else Fetch1(w, Machine(c, w.wput(m.chip, c.hpos, c.i1, c.i2), log))
  }

  function Decode(w: World, m: Machine): Machine
    requires m.c.count >= 0
  {
    var c := m.c.(i2 := w.mem(m.c.ip), ip := m.c.ip + 2);
    m.(c :=
      if c.ignoreNext then c.(ignoreNext := false, state := Read1)
      else if c.i1 % 2 == 0 then c.(state := Read1, doMove := true)
      else if c.i2 % 2 == 0 then c.(state := if c.i1 == 0xFFFF && c.i2 == 0xFFFE then Stop else Wait1)
      else c.(state := Read1,
              ignoreNext := (Vp(w, c.i2) > VCmp(c.i1, c.i2)
                              || (Vp(w, c.i2) == VCmp(c.i1, c.i2) && Hp(c.count, c.i2) >= HCmp(c.i1, c.i2)))
                            && (c.i2 >= 0x8000 || !m.chip.blitterBusy)))
  }

  /** The comparison of a WAIT.  On an earlier line the rest of the line is skipped at once. */
  function Compare(w: World, m: Machine): Machine
    requires m.c.count >= 0
  {
    var c := m.c;
    if Vp(w, c.i2) < VCmp(c.i1, c.i2) then
      var c1 := if c.hpos - COP_OFFSET < m.chip.plfstrt then AdjustDiw(w, m.chip, c) else c;
      m.(c := c1.(vpos := c.vpos + 1, hpos := 0, count := 0))
    else if Vp(w, c.i2) == VCmp(c.i1, c.i2) && Hp(c.count, c.i2) < HCmp(c.i1, c.i2) then Advance(m)
    else Advance(m.(c := c.(state := if c.i2 >= 0x8000 || !m.chip.blitterBusy then Read1 else BltWait)))
  }

  /** On the right line the position where the WAIT should match lies on this line. */
  predicate CanJump(w: World, m: Machine)
    requires m.c.count >= 0
  {
    Vp(w, m.c.i2) == VCmp(m.c.i1, m.c.i2) && m.chip.planes < 8
      && m.c.hpos + NextCount(m.c.count, HCmp(m.c.i1, m.c.i2)) - m.c.count < LINE_END
  }

  function Jump(w: World, m: Machine): Machine
    requires m.c.count >= 0
  {
    var next := m.c.hpos + NextCount(m.c.count, HCmp(m.c.i1, m.c.i2)) - m.c.count;
    var c := if m.c.hpos - COP_OFFSET < m.chip.plfstrt && next - COP_OFFSET >= m.chip.plfstrt
             then AdjustDiw(w, m.chip, m.c) else m.c;
    m.(c := c.(hpos := next, count := NextCount(m.c.count, HCmp(m.c.i1, m.c.i2))))
  }

  function Waiting(w: World, m: Machine): Machine
    requires m.c.count >= 0
  {
    var m2 := m.(c := m.c.(state := Wait2));
    if CanJump(w, m2) then
      assert NextCount(m2.c.count, HCmp(m2.c.i1, m2.c.i2)) >= 0;
      Compare(w, Jump(w, m2))
    else if m.c.state == Wait1b then Compare(w, m2)
    else Advance(m2)
  }

  function Body(w: World, m0: Machine): Machine
    requires Valid(m0)
  {
    var m := if m0.c.hpos - COP_OFFSET == m0.chip.plfstrt then m0.(c := AdjustDiw(w, m0.chip, m0.c)) else m0;
    match m.c.state
    case RDelay1 => Advance(m.(c := m.c.(state := Read1)))
    case Read1 =>
      if CantRead(m.chip, m.c.vdiw, m.c.hpos) then Advance(m)
      else if m.c.doMove then Advance(DoMove(w, m))
      else Advance(Fetch1(w, m))
    case Read2 => if CantRead(m.chip, m.c.vdiw, m.c.hpos) then Advance(m) else Advance(Decode(w, m))
    case Wait1 => if CantRead(m.chip, m.c.vdiw, m.c.hpos) then Advance(m) else Waiting(w, m)
    case Wait1b => Waiting(w, m)
    case Wait2 => Compare(w, m)
    case _ => Advance(m)
  }

  // ----------------------------------------------------------------- and arithmetic

  /** A multiple of 2^k shares no bit with a number below 2^k. */
  lemma {:induction false} AndHigh(a: nat, q: nat, k: nat)
    requires a < Pow2(k)
    ensures And(a, Pow2(k) * q) == 0
    decreases k
  {
    if k > 0 {
      var p := Pow2(k - 1);
      assert Pow2(k) == 2 * p;
      AndParts(a, 2 * (p * q));
      hide *;
      Halved(a, p);
      AndHigh(a / 2, q, k - 1);
      DoubleTimes(p, q);
      Doubled(p * q);
      SameParts(And(a, 2 * (p * q)), 0);
    } else {
      assert And(0, Pow2(k) * q) == 0;
    }
  }

  /** The mask table entry clears the low byte, so below 256 only the compare value is left. */
  lemma MaskClearsLowByte(t: nat)
    requires t < 256
    ensures And(t, WAITMASK) == 0
  {
    assert Pow2(8) == 256 && WAITMASK == 256 * 0xFF_FFFF;
    AndHigh(t, 0xFF_FFFF, 8);
  }

  lemma {:induction false} AndEven(a: nat, b: nat)
    requires a % 2 == 0 || b % 2 == 0
    ensures And(a, b) % 2 == 0
  {
  }

  lemma NextCountIsMax(c: Cop)
    requires 0 <= c.count <= LINE_END && c.count % 2 == 0
    ensures NextCount(c.count, HCmp(c.i1, c.i2))
            == (if HCmp(c.i1, c.i2) < c.count + 2 then c.count + 2 else HCmp(c.i1, c.i2))
    ensures NextCount(c.count, HCmp(c.i1, c.i2)) % 2 == 0 && HCmp(c.i1, c.i2) <= 254 && HCmp(c.i1, c.i2) % 2 == 0
  {
    hide And;
    MaskClearsLowByte(c.count + 2);
    AndEven(And(c.i1, c.i2), 0xFE);
  }

  // ------------------------------------------------------------------- well-formedness

  /** What one round may do to the position. */
  predicate Moved(m: Machine, r: Machine) {
    && Valid(r)
    && ((r.c.vpos == m.c.vpos && r.c.hpos > m.c.hpos) || (r.c.vpos == m.c.vpos + 1 && r.c.hpos == 0))
  }

  lemma CompareMoves(w: World, m: Machine)
    requires Valid(m) && m.c.hpos < LINE_END
    ensures Moved(m, Compare(w, m))
  {
    hide Vp, VCmp, Hp, HCmp, Adjusted;
  }

  lemma JumpMoves(w: World, m: Machine)
    requires Valid(m) && m.c.hpos < LINE_END && CanJump(w, m)
    ensures Valid(Jump(w, m)) && Jump(w, m).c.vpos == m.c.vpos && m.c.hpos < Jump(w, m).c.hpos < LINE_END
  {
    hide Vp, VCmp, HCmp, NextCount, Adjusted;
    NextCountIsMax(m.c);
  }

  lemma WaitingMoves(w: World, m: Machine)
    requires Valid(m) && m.c.hpos < LINE_END
    ensures Moved(m, Waiting(w, m))
  {
    hide Compare, Jump, CanJump;
    var m2 := m.(c := m.c.(state := Wait2));
    if CanJump(w, m2) {
      JumpMoves(w, m2);
      CompareMoves(w, Jump(w, m2));
    } else {
      CompareMoves(w, m2);
    }
  }

  lemma AdvanceMoves(m: Machine)
    requires Valid(m) && m.c.hpos < LINE_END
    ensures Moved(m, Advance(m))
  {
  }

  lemma FetchMoves(w: World, m: Machine)
    requires WorldOk(w) && Valid(m) && m.c.hpos < LINE_END
    ensures Moved(m, Advance(Fetch1(w, m))) && Moved(m, Advance(DoMove(w, m))) && Moved(m, Advance(Decode(w, m)))
  {
    hide Vp, VCmp, Hp, HCmp;
  }

  /** A round keeps hpos and count even and inside the line, so the loops never step past
      the equality test at the end of the line. */
  lemma BodyMoves(w: World, m: Machine)
    requires WorldOk(w) && Valid(m) && m.c.hpos < LINE_END
    ensures Moved(m, Body(w, m))
  {
    hide Compare, Waiting, Fetch1, DoMove, Decode, Adjusted, CantRead, Advance;
    var m1 := if m.c.hpos - COP_OFFSET == m.chip.plfstrt then m.(c := AdjustDiw(w, m.chip, m.c)) else m;
    CompareMoves(w, m1);
    WaitingMoves(w, m1);
    FetchMoves(w, m1);
    AdvanceMoves(m1);
    AdvanceMoves(m1.(c := m1.c.(state := Read1)));
  }

  // ------------------------------------------------------------------ the main loop

  function LinesLeft(w: World, m: Machine): nat {
    if m.c.vpos > w.vpos then 0 else w.vpos - m.c.vpos + 1
  }

  lemma TopKeepsValid(m: Machine)
    requires Valid(m)
    ensures Valid(Top(m)) && Top(m).c.hpos < LINE_END && Top(Top(m)) == Top(m)
    ensures Top(m) == m.(c := Top(m).c)
    ensures if m.c.hpos == LINE_END then Top(m).c.vpos == m.c.vpos + 1
            else Top(m).c == m.c.(state := Top(m).c.state)
  {
  }

  /** The for (;;) loop of update_copper_1. */
  ghost function Loop(w: World, m: Machine, until: int): (r: Machine)
    requires WorldOk(w) && Valid(m)
    ensures Valid(r)
    decreases LinesLeft(w, m), LINE_END - m.c.hpos
  {
    TopKeepsValid(m);
    if Done(w, Top(m), until) then Top(m)
    else
      BodyMoves(w, Top(m));
      Loop(w, Body(w, Top(m)), until)
  }

  /** On entry a WAIT in its second stage is sent back to look for a jump. */
  function Reenter(m: Machine): Machine {
    if m.c.state == Wait2 then m.(c := m.c.(state := Wait1b)) else m
  }

  /** update_copper_1 */
  ghost function Update(w: World, m: Machine, until: int): (r: Machine)
    requires WorldOk(w) && Valid(m)
    ensures Valid(r)
  {
    Loop(w, Reenter(m), until)
  }

  lemma {:induction false} LoopInTwo(w: World, m: Machine, h1: int, h2: int)
    requires WorldOk(w) && Valid(m) && h1 <= h2
    ensures Loop(w, Loop(w, m, h1), h2) == Loop(w, m, h2)
    decreases LinesLeft(w, m), LINE_END - m.c.hpos
  {
    hide Top, Body;
    TopKeepsValid(m);
    BodyMovesIf(w, Top(m));
    if Done(w, Top(m), h1) {
      assert Loop(w, Top(m), h2) == Loop(w, m, h2);
    } else {
      LoopInTwo(w, Body(w, Top(m)), h1, h2);
    }
  }

  lemma BodyMovesIf(w: World, m: Machine)
    requires WorldOk(w) && Valid(m) && m.c.hpos < LINE_END
    ensures Moved(m, Body(w, m))
  {
    BodyMoves(w, m);
  }

  // ------------------------------------------------------------- the masks of a WAIT

  /** The k-bit number m consists of set bits at the top and clear bits below. */
  predicate TopMask(m: nat, k: nat)
    decreases k
  {
    if k == 0 then m == 0
    else if m % 2 == 1 then m == Pow2(k) - 1
    else TopMask(m / 2, k - 1)
  }

  /** Horizontal compare masks of this kind: 0xFE, 0xFC, 0xF8, ..., 0x80, 0. */
  predicate GoodMask(i2: nat) { TopMask(And(i2, 0xFE), 8) }

  lemma FullMaskIsGood(i2: nat)
    requires And(i2, 0xFE) == 0xFE
    ensures GoodMask(i2)
  {
    assert Pow2(7) == 128;
    assert TopMask(127, 7);
  }

  lemma {:induction false} AndOnes(a: nat, k: nat)
    requires a < Pow2(k)
    ensures And(a, Pow2(k) - 1) == a
    decreases k
  {
    if k > 0 && a > 0 {
      var p := Pow2(k - 1);
      assert Pow2(k) - 1 == 2 * (p - 1) + 1;
      AndParts(a, 2 * (p - 1) + 1);
      hide *;
      Halved(a, p);
      AndOnes(a / 2, k - 1);
      Doubled(p - 1);
      SameParts(And(a, 2 * (p - 1) + 1), a);
    }
  }

  /** Masking with such a mask never reverses an order. */
  lemma {:induction false} TopMaskMonotone(h: nat, t: nat, m: nat, k: nat)
    requires TopMask(m, k) && h <= t < Pow2(k)
    ensures And(h, m) <= And(t, m)
    decreases k
  {
    if k > 0 {
      if m % 2 == 1 {
        AndOnes(h, k);
        AndOnes(t, k);
      } else {
        TopMaskMonotone(h / 2, t / 2, m / 2, k - 1);
        AndParts(h, m);
        AndParts(t, m);
      }
    }
  }

  lemma {:induction false} AndAbsorbs(x: nat, y: nat, z: nat)
    ensures And(And(And(x, y), z), And(y, z)) == And(And(x, y), z)
    decreases x
  {
    if x > 0 && y > 0 && z > 0 {
      AndAbsorbs(x / 2, y / 2, z / 2);
      AndParts(x, y);
      AndParts(y, z);
      AndParts(And(x, y), z);
      AndParts(And(And(x, y), z), And(y, z));
    }
  }

  lemma AndParts(a: nat, b: nat)
    ensures And(a, b) % 2 == (if a % 2 == 1 && b % 2 == 1 then 1 else 0) && And(a, b) / 2 == And(a / 2, b / 2)
  {
  }

  /** After a jump the comparison succeeds at once. */
  lemma JumpHits(w: World, m: Machine)
    requires Valid(m) && m.c.hpos < LINE_END && CanJump(w, m) && GoodMask(m.c.i2)
    ensures Hp(Jump(w, m).c.count, Jump(w, m).c.i2) >= HCmp(m.c.i1, m.c.i2)
  {
    NextCountIsMax(m.c);
    var mask, next := And(m.c.i2, 0xFE), NextCount(m.c.count, HCmp(m.c.i1, m.c.i2));
    assert Pow2(8) == 256;
    TopMaskMonotone(HCmp(m.c.i1, m.c.i2), next, mask, 8);
    AndAbsorbs(m.c.i1, m.c.i2, 0xFE);
  }

  // ------------------------------------------------------------- split invariance

  predicate InWait(c: Cop) { c.state == Wait1 || c.state == Wait1b || c.state == Wait2 }

  /** Every WAIT that the Copper waits in on its way to `until` has one of these horizontal masks. */
  ghost predicate WaitsOnly(w: World, m: Machine, until: int, masks: set<nat>)
    requires WorldOk(w) && Valid(m)
    decreases LinesLeft(w, m), LINE_END - m.c.hpos
  {
    TopKeepsValid(m);
    if Done(w, Top(m), until) then true
    else
      BodyMoves(w, Top(m));
      && (InWait(Top(m).c) ==> And(Top(m).c.i2, 0xFE) in masks)
      && WaitsOnly(w, Body(w, Top(m)), until, masks)
  }

  /** A WAIT in its second stage on the current line has no jump left. */
  predicate Settled(w: World, m: Machine)
    requires m.c.count >= 0
  {
    m.c.state == Wait2 && m.c.vpos == w.vpos ==> !CanJump(w, m)
  }

  lemma CompareSettles(w: World, m: Machine)
    requires Valid(m) && m.c.hpos < LINE_END && m.c.state == Wait2 && m.c.vpos >= w.vpos
    requires !CanJump(w, m) || Hp(m.c.count, m.c.i2) >= HCmp(m.c.i1, m.c.i2)
    ensures Valid(Compare(w, m)) && Settled(w, Compare(w, m))
  {
    CompareMoves(w, m);
    if !(Vp(w, m.c.i2) < VCmp(m.c.i1, m.c.i2)) && Vp(w, m.c.i2) == VCmp(m.c.i1, m.c.i2)
      && Hp(m.c.count, m.c.i2) < HCmp(m.c.i1, m.c.i2) {
      AdvanceSettles(w, m);
    }
  }

  lemma AdvanceSettles(w: World, m: Machine)
    requires Valid(m) && m.c.hpos < LINE_END && !CanJump(w, m)
    ensures Valid(Advance(m)) && !CanJump(w, Advance(m))
  {
    NextCountIsMax(m.c);
    AdvanceMoves(m);
    if Advance(m).c.count <= LINE_END {
      NextCountIsMax(Advance(m).c);
    }
  }

  lemma WaitingSettles(w: World, m: Machine)
    requires Valid(m) && m.c.hpos < LINE_END && m.c.vpos >= w.vpos && GoodMask(m.c.i2)
    ensures Valid(Waiting(w, m)) && Settled(w, Waiting(w, m))
  {
    hide Compare, CanJump, And, Hp, HCmp, GoodMask, NextCount;
    var m2 := m.(c := m.c.(state := Wait2));
    if CanJump(w, m2) {
      JumpMoves(w, m2);
      JumpHits(w, m2);
      JumpKeeps(w, m2);
      CompareSettles(w, Jump(w, m2));
    } else {
      CompareSettles(w, m2);
      AdvanceSettles(w, m2);
    }
  }

  lemma JumpKeeps(w: World, m: Machine)
    requires m.c.count >= 0
    ensures Jump(w, m).c.i1 == m.c.i1 && Jump(w, m).c.i2 == m.c.i2 && Jump(w, m).c.state == m.c.state
    ensures Jump(w, m).c.vpos == m.c.vpos && HCmp(Jump(w, m).c.i1, Jump(w, m).c.i2) == HCmp(m.c.i1, m.c.i2)
  {
  }

  /** A WAIT is decoded in its first stage, and nothing else that is read leads to the second one. */
  lemma ReadingIsNoWait2(w: World, m: Machine)
    requires WorldOk(w) && Valid(m) && m.c.state != Wait2
    ensures Decode(w, m).c.state != Wait2 && DoMove(w, m).c.state != Wait2 && Fetch1(w, m).c.state != Wait2
  {
    hide Vp, VCmp, Hp, HCmp;
  }

  lemma AdvanceKeepsState(m: Machine)
    ensures Advance(m).c.state == m.c.state
  {
  }

  lemma BodySettles(w: World, m: Machine)
    requires WorldOk(w) && Valid(m) && m.c.hpos < LINE_END && m.c.vpos == w.vpos
    requires (InWait(m.c) ==> GoodMask(m.c.i2)) && Settled(w, m)
    ensures Valid(Body(w, m)) && Settled(w, Body(w, m))
  {
    hide Adjusted, CantRead, GoodMask, Compare, Waiting, Advance, Decode, DoMove, Fetch1, CanJump;
    BodyMoves(w, m);
    var m1 := if m.c.hpos - COP_OFFSET == m.chip.plfstrt then m.(c := AdjustDiw(w, m.chip, m.c)) else m;
    DiwIrrelevant(w, m, m1);
    AdvanceKeepsState(m1);
    match m.c.state
    case RDelay1 => AdvanceKeepsState(m1.(c := m1.c.(state := Read1)));
    case Read1 =>
      ReadingIsNoWait2(w, m1);
      AdvanceKeepsState(DoMove(w, m1));
      AdvanceKeepsState(Fetch1(w, m1));
    case Read2 =>
      ReadingIsNoWait2(w, m1);
      AdvanceKeepsState(Decode(w, m1));
    case Wait1 => WaitingSettles(w, m1);
    case Wait1b => WaitingSettles(w, m1);
    case Wait2 => CompareSettles(w, m1);
    case _ =>
  }

  lemma DiwIrrelevant(w: World, m: Machine, m1: Machine)
    requires m.c.count >= 0 && m1 == m.(c := m.c.(vdiw := m1.c.vdiw))
    ensures CanJump(w, m1) == CanJump(w, m)
  {
  }

  predicate AllTop(masks: set<nat>) { forall mask :: mask in masks ==> TopMask(mask, 8) }

  /** The loop leaves no jump to a WAIT in its second stage, as long as it stays on the line. */
  lemma {:induction false} LoopSettles(w: World, m: Machine, until: int, masks: set<nat>)
    requires WorldOk(w) && Valid(m) && m.c.vpos >= w.vpos
    requires WaitsOnly(w, m, until, masks) && AllTop(masks) && Settled(w, m)
    ensures Settled(w, Loop(w, m, until)) && Loop(w, m, until).c.vpos >= w.vpos
    decreases LinesLeft(w, m), LINE_END - m.c.hpos
  {
    hide CanJump, And, TopMask, Body;
    TopKeepsValid(m);
    TopSettles(w, m);
    BodyMovesIf(w, Top(m));
    if !Done(w, Top(m), until) {
      BodySettles(w, Top(m));
      LoopSettles(w, Body(w, Top(m)), until, masks);
    }
  }

  lemma TopSettles(w: World, m: Machine)
    requires Valid(m) && m.c.vpos >= w.vpos && Settled(w, m)
    ensures Settled(w, Top(m)) && Top(m).c.vpos >= w.vpos
  {
  }

  /** Sending a settled WAIT back to its first stage changes nothing but the stage name. */
  lemma ReenterHarmless(w: World, m: Machine, until: int)
    requires WorldOk(w) && Valid(m) && m.c.vpos >= w.vpos && Settled(w, m)
    ensures Reenter(Loop(w, Reenter(m), until)) == Reenter(Loop(w, m, until))
  {
    if m.c.state == Wait2 {
      var t, t' := Top(m), Top(Reenter(m));
      TopKeepsValid(m);
      if !Done(w, t, until) {
        assert t.c.vpos == w.vpos && t.c == m.c && t' == t.(c := t.c.(state := Wait1b));
        SameBody(w, t);
      }
    }
  }

  lemma SameBody(w: World, t: Machine)
    requires Valid(t) && t.c.hpos < LINE_END && t.c.state == Wait2 && !CanJump(w, t)
    ensures Body(w, t.(c := t.c.(state := Wait1b))) == Body(w, t)
  {
    hide Compare, Adjusted;
    var t' := t.(c := t.c.(state := Wait1b));
    var m1 := if t.c.hpos - COP_OFFSET == t.chip.plfstrt then t.(c := AdjustDiw(w, t.chip, t.c)) else t;
    DiwIrrelevant(w, t, m1);
  }

  /** Running the Copper to h1 and later to h2 does the same MOVEs at the same positions and
      ends in the same state as running it to h2 at once, although a WAIT is sent back to its
      first stage on every entry.  (States are compared up to that entry rule, which every
      user of the state applies first.)  Only the WAITs met before h1 matter. */
  lemma SplitInvariance(w: World, m: Machine, h1: int, h2: int, masks: set<nat>)
    requires WorldOk(w) && Valid(m) && m.c.vpos >= w.vpos && h1 <= h2
    requires WaitsOnly(w, Reenter(m), h1, masks) && AllTop(masks)
    ensures Reenter(Update(w, Update(w, m, h1), h2)) == Reenter(Update(w, m, h2))
    ensures Update(w, Update(w, m, h1), h2).log == Update(w, m, h2).log
  {
    hide CanJump, AllTop, WaitsOnly;
    var r := Reenter(m);
    LoopSettles(w, r, h1, masks);
    LoopInTwo(w, r, h1, h2);
    ReenterHarmless(w, Loop(w, r, h1), h2);
  }

  /** Stopping earlier, or allowing more masks, asks for less. */
  lemma {:induction false} WaitsOnlyEases(w: World, m: Machine, h1: int, h2: int, some: set<nat>, more: set<nat>)
    requires WorldOk(w) && Valid(m) && h1 <= h2 && some <= more && WaitsOnly(w, m, h2, some)
    ensures WaitsOnly(w, m, h1, more)
    decreases LinesLeft(w, m), LINE_END - m.c.hpos
  {
    hide And, Body, Top;
    TopKeepsValid(m);
    BodyMovesIf(w, Top(m));
    if !Done(w, Top(m), h1) {
      WaitsOnlyEases(w, Body(w, Top(m)), h1, h2, some, more);
    }
  }

  // ------------------------------------------- masks for which splitting is visible

  function Bit(m: nat, k: nat): nat
    decreases k
  {
    if k == 0 then m % 2 else Bit(m / 2, k - 1)
  }

  /** A mask that is not of the good kind has a clear bit above a set one. */
  lemma {:induction false} HoleAbove(m: nat, k: nat) returns (a: nat, b: nat)
    requires m < Pow2(k) && !TopMask(m, k)
    ensures a < b < k && Bit(m, a) == 1 && Bit(m, b) == 0
    decreases k
  {
    if m % 2 == 1 {
      a := 0;
      b := ClearBit(m, k);
    } else {
      a, b := HoleAbove(m / 2, k - 1);
      a, b := a + 1, b + 1;
    }
  }

  lemma {:induction false} ClearBit(m: nat, k: nat) returns (b: nat)
    requires m < Pow2(k) - 1
    ensures b < k && Bit(m, b) == 0
    decreases k
  {
    if m % 2 == 0 {
      b := 0;
    } else {
      b := ClearBit(m / 2, k - 1);
      b := b + 1;
    }
  }

  /** Above a clear mask bit only the lower bits count. */
  lemma {:induction false} AndDropsClearBit(r: nat, b: nat, m: nat)
    requires r < Pow2(b) && Bit(m, b) == 0
    ensures And(Pow2(b) + r, m) == And(r, m)
    decreases b
  {
    AndParts(Pow2(b) + r, m);
    AndParts(r, m);
    if b > 0 {
      var p, q := Pow2(b - 1), r / 2;
      assert Pow2(b) == 2 * p && Bit(m / 2, b - 1) == 0;
      hide *;
      AndDropsClearBit(q, b - 1, m / 2);
      assert (2 * p + r) / 2 == p + q && (2 * p + r) % 2 == r % 2;
      SameParts(And(2 * p + r, m), And(r, m));
    }
  }

  lemma {:induction false} AndKeepsSetBit(a: nat, m: nat)
    requires Bit(m, a) == 1
    ensures And(Pow2(a), m) == Pow2(a)
    decreases a
  {
    AndParts(Pow2(a), m);
    if a > 0 {
      AndKeepsSetBit(a - 1, m / 2);
    }
  }

  lemma {:induction false} Pow2Grows(a: nat, b: nat)
    requires a < b
    ensures 2 * Pow2(a) <= Pow2(b)
    decreases b
  {
    if a + 1 < b {
      Pow2Grows(a, b - 1);
    }
  }

  lemma SmallPow2(b: nat)
    requires b <= 7
    ensures Pow2(b) <= 128
  {
    assert Pow2(7) == 128;
    if b < 7 {
      Pow2Grows(b, 7);
    }
  }

  lemma EvenIn0xFE(m: nat)
    requires m % 2 == 0 && m < 256
    ensures And(m, 0xFE) == m
  {
    AndParts(m, 0xFE);
    assert Pow2(7) == 128;
    AndOnes(m / 2, 7);
  }

  /** The numbers of the example below: p is a set bit of the mask m, q a clear bit above it. */
  predicate Hole(m: nat, p: nat, q: nat) {
    && m % 2 == 0 && m < 256 && p % 2 == 0 && q % 2 == 0 && 2 <= p && 2 * p <= q <= 128
    && And(m, 0xFE) == m && And(And(p + 1, m), 0xFE) == p
    && And(q + p - 2, m) < p && And(q + p, m) == p
  }

  /** An even mask does not see the lowest bit. */
  lemma AndIgnoresLowBit(p: nat, m: nat)
    requires m % 2 == 0 && p % 2 == 0
    ensures And(p + 1, m) == And(p, m)
  {
    hide And;
    AndParts(p, m);
    AndParts(p + 1, m);
  }

  lemma HoleFacts(m: nat, a: nat, b: nat, p: nat, q: nat)
    requires m % 2 == 0 && m < 256 && 1 <= a < b <= 7 && Bit(m, a) == 1 && Bit(m, b) == 0
    requires p == Pow2(a) && q == Pow2(b) && p % 2 == 0 && q % 2 == 0
    ensures Hole(m, p, q)
  {
    hide And, Pow2, Bit;
    Pow2Grows(a, b);
    SmallPow2(b);
    EvenIn0xFE(m);
    EvenIn0xFE(p);
    AndKeepsSetBit(a, m);
    AndIgnoresLowBit(p, m);
    AndDropsClearBit(p - 2, b, m);
    AndDropsClearBit(p, b, m);
  }

  lemma HoleExists(m: nat) returns (p: nat, q: nat)
    requires m % 2 == 0 && m < 256 && !TopMask(m, 8)
    ensures Hole(m, p, q)
  {
    hide And, TopMask;
    assert Pow2(8) == 256;
    var a, b := HoleAbove(m, 8);
    assert Bit(m, 0) == m % 2;
    p, q := Pow2(a), Pow2(b);
    assert p == 2 * Pow2(a - 1) && q == 2 * Pow2(b - 1);
    HoleFacts(m, a, b, p, q);
  }

  /** A line on which the Copper waits, with horizontal mask m, for count p; the WAIT has been
      fetched from addresses 0 and 2. */
  function HoleWorld(m: nat, p: nat): World {
    World(0, a => if a == 0 then p + 1 else if a == 2 then m else 0, (k: Chip, h: int, r: nat, v: nat) => k)
  }

  function HoleMachine(m: nat, p: nat, pos: int, state: CopState): Machine {
    Machine(Cop(p + 1, m, state, 4, pos, 0, pos, false, false, WaitingStart),
            Chip(true, 0, false, 0, false, -100, 0, -1, -1, 0, 0), [])
  }

  lemma HoleCompares(m: nat, p: nat, q: nat, pos: int, state: CopState)
    requires Hole(m, p, q)
    ensures var c := HoleMachine(m, p, pos, state).c;
            Vp(HoleWorld(m, p), c.i2) == VCmp(c.i1, c.i2) == 0 && HCmp(c.i1, c.i2) == p
  {
    hide And;
  }

  /** From the first stage the WAIT jumps; where it lands the comparison decides. */
  lemma HoleJump(m: nat, p: nat, q: nat, pos: int)
    requires Hole(m, p, q) && p <= pos + 2 && pos % 2 == 0 && 0 <= pos < 200
    ensures var h := HoleMachine(m, p, pos, Wait1b);
            Valid(h) && Body(HoleWorld(m, p), h)
            == HoleMachine(m, p, pos + 4, if And(pos + 2, m) < p then Wait2 else Read1)
  {
    hide And, HCmp, Vp, VCmp, NextCount;
    var h := HoleMachine(m, p, pos, Wait1b);
    HoleCompares(m, p, q, pos, Wait2);
    NextCountIsMax(HoleMachine(m, p, pos, Wait2).c);
    HoleCompares(m, p, q, pos + 2, Wait2);
    var j := HoleMachine(m, p, pos, Wait2);
    assert CanJump(HoleWorld(m, p), j);
    assert Jump(HoleWorld(m, p), j) == HoleMachine(m, p, pos + 2, Wait2);
  }

  /** In the second stage the WAIT only compares. */
  lemma HoleCompare(m: nat, p: nat, q: nat, pos: int)
    requires Hole(m, p, q) && pos % 2 == 0 && 0 <= pos < 200
    ensures var h := HoleMachine(m, p, pos, Wait2);
            Valid(h) && Body(HoleWorld(m, p), h)
            == HoleMachine(m, p, pos + 2, if And(pos, m) < p then Wait2 else Read1)
  {
    hide And, HCmp, Vp, VCmp, NextCount;
    HoleCompares(m, p, q, pos, Wait2);
  }

  lemma HoleLoop(m: nat, p: nat, pos: int, state: CopState, until: int)
    requires m < 256 && p < 256 && 0 <= pos < LINE_END && pos % 2 == 0 && state != Stop && pos <= until
    ensures var h := HoleMachine(m, p, pos, state);
            WorldOk(HoleWorld(m, p)) && Valid(h)
              && Loop(HoleWorld(m, p), h, until) == Loop(HoleWorld(m, p), BodyOf(HoleWorld(m, p), h), until)
  {
    hide Body;
    BodyMoves(HoleWorld(m, p), HoleMachine(m, p, pos, state));
  }

  lemma HoleStops(m: nat, p: nat, pos: int, state: CopState, until: int)
    requires m < 256 && p < 256 && until < pos < LINE_END && 0 <= pos && pos % 2 == 0 && state != Stop
    ensures var h := HoleMachine(m, p, pos, state);
            WorldOk(HoleWorld(m, p)) && Valid(h) && Loop(HoleWorld(m, p), h, until) == h
  {
    hide Body;
  }

  /** Body, for a valid state of the example. */
  ghost function BodyOf(w: World, h: Machine): (r: Machine)
    requires WorldOk(w) && Valid(h) && h.c.hpos < LINE_END
    ensures Valid(r)
  {
    BodyMovesIf(w, h);
    Body(w, h)
  }

  /** To the position before the match: the WAIT is left in its second stage. */
  lemma HoleUpTo(m: nat, p: nat, q: nat, pos: int)
    requires Hole(m, p, q) && pos == q + p - 4
    ensures var h := HoleMachine(m, p, pos, Wait1b);
            WorldOk(HoleWorld(m, p)) && Valid(h)
            && Update(HoleWorld(m, p), h, pos + 2) == HoleMachine(m, p, pos + 4, Wait2)
  {
    hide Body, And, Top, Loop;
    HoleJump(m, p, q, pos);
    HoleLoop(m, p, pos, Wait1b, pos + 2);
    HoleStops(m, p, pos + 4, Wait2, pos + 2);
  }

  /** In one go: the match is seen at pos + 4. */
  lemma HoleAtOnce(m: nat, p: nat, q: nat, pos: int)
    requires Hole(m, p, q) && pos == q + p - 4
    ensures var h := HoleMachine(m, p, pos, Wait1b);
            WorldOk(HoleWorld(m, p)) && Valid(h)
            && Update(HoleWorld(m, p), h, pos + 4) == HoleMachine(m, p, pos + 6, Read1)
  {
    hide Body, And, Top, Loop;
    HoleJump(m, p, q, pos);
    HoleLoop(m, p, pos, Wait1b, pos + 4);
    HoleCompare(m, p, q, pos + 4);
    HoleLoop(m, p, pos + 4, Wait2, pos + 4);
    HoleStops(m, p, pos + 6, Read1, pos + 4);
  }

  /** Entered again, the WAIT looks at pos + 6 only. */
  lemma HoleAgain(m: nat, p: nat, q: nat, pos: int)
    requires Hole(m, p, q) && pos == q + p - 4
    ensures var u := HoleMachine(m, p, pos + 4, Wait2);
            WorldOk(HoleWorld(m, p)) && Valid(u) && Update(HoleWorld(m, p), u, pos + 4).c.hpos == pos + 8
  {
    hide Body, And, Top, Loop;
    HoleJump(m, p, q, pos + 4);
    HoleLoop(m, p, pos + 4, Wait1b, pos + 4);
    HoleStops(m, p, pos + 8, if And(pos + 6, m) < p then Wait2 else Read1, pos + 4);
  }

  /** The only WAIT on the way is the one with mask m. */
  lemma HoleWaits(m: nat, p: nat, q: nat, pos: int)
    requires Hole(m, p, q) && pos == q + p - 4
    ensures var h := HoleMachine(m, p, pos, Wait1b);
            WorldOk(HoleWorld(m, p)) && Valid(h) && WaitsOnly(HoleWorld(m, p), h, pos + 4, {m})
  {
    hide Body, And, Hole;
    HoleFits(m, p, q, pos);
    HoleJump(m, p, q, pos);
    HoleCompare(m, p, q, pos + 4);
    HoleWaitsOn(m, p, pos, Wait1b, pos + 4);
    HoleWaitsOn(m, p, pos + 4, Wait2, pos + 4);
    HoleWaitsEnd(m, p, pos + 6, Read1, pos + 4);
  }

  lemma HoleFits(m: nat, p: nat, q: nat, pos: int)
    requires Hole(m, p, q) && pos == q + p - 4
    ensures m < 256 && p < 256 && 0 <= pos < 190 && pos % 2 == 0 && And(m, 0xFE) == m && p <= pos + 2
    ensures And(pos + 2, m) < p && And(pos + 4, m) == p
  {
    hide And;
  }

  lemma HoleWaitsOn(m: nat, p: nat, pos: int, state: CopState, until: int)
    requires m < 256 && p < 256 && 0 <= pos < LINE_END && pos % 2 == 0 && state != Stop && pos <= until
    requires And(m, 0xFE) == m
    ensures var h := HoleMachine(m, p, pos, state);
            WorldOk(HoleWorld(m, p)) && Valid(h)
            && (WaitsOnly(HoleWorld(m, p), h, until, {m})
                <==> WaitsOnly(HoleWorld(m, p), BodyOf(HoleWorld(m, p), h), until, {m}))
  {
    hide Body, And;
    BodyMoves(HoleWorld(m, p), HoleMachine(m, p, pos, state));
  }

  lemma HoleWaitsEnd(m: nat, p: nat, pos: int, state: CopState, until: int)
    requires m < 256 && p < 256 && until < pos < LINE_END && 0 <= pos && pos % 2 == 0
    ensures var h := HoleMachine(m, p, pos, state);
            WorldOk(HoleWorld(m, p)) && Valid(h) && WaitsOnly(HoleWorld(m, p), h, until, {m})
  {
    hide Body, And;
  }

  /** Splitting the run at the position that matches is visible: the second entry sends the
      WAIT back to its first stage, which looks two cycles further on. */
  lemma BadMaskIsVisible(m: nat) returns (w: World, h: Machine, h1: int, h2: int)
    requires m % 2 == 0 && m < 256 && !TopMask(m, 8)
    ensures WorldOk(w) && Valid(h) && h.c.vpos == w.vpos && h1 <= h2
    ensures WaitsOnly(w, Reenter(h), h2, {m}) && h.c.i1 == w.mem(h.c.ip - 4) && h.c.i2 == w.mem(h.c.ip - 2)
    ensures Reenter(Update(w, Update(w, h, h1), h2)) != Reenter(Update(w, h, h2))
  {
    hide And, TopMask, Update, WaitsOnly;
    var p, q := HoleExists(m);
    var pos := q + p - 4;
    w, h, h1, h2 := HoleWorld(m, p), HoleMachine(m, p, pos, Wait1b), pos + 2, pos + 4;
    HoleWaits(m, p, q, pos);
    HoleUpTo(m, p, q, pos);
    HoleAtOnce(m, p, q, pos);
    HoleAgain(m, p, q, pos);
  }

  ghost predicate SplitAgrees(w: World, m: Machine, h1: int, h2: int)
    requires WorldOk(w) && Valid(m)
  {
    Reenter(Update(w, Update(w, m, h1), h2)) == Reenter(Update(w, m, h2))
  }

  /** For any set of horizontal masks: no split of a run that meets only WAITs with these masks is ever
      visible, if and only if none of them has a clear bit above a set one; the full mask 0xFE is
      such a mask.  Whatever else is in memory does not matter. */
  lemma SplitInvariantIffTopMask(masks: set<nat>)
    requires forall mask :: mask in masks ==> mask % 2 == 0 && mask < 256
    ensures AllTop(masks) <==>
              forall w: World, m: Machine, h1: int, h2: int ::
                WorldOk(w) && Valid(m) && m.c.vpos >= w.vpos && h1 <= h2 && WaitsOnly(w, Reenter(m), h1, masks)
                ==> SplitAgrees(w, m, h1, h2)
  {
    hide Update, TopMask, WaitsOnly;
    if AllTop(masks) {
      forall w: World, m: Machine, h1: int, h2: int
        | WorldOk(w) && Valid(m) && m.c.vpos >= w.vpos && h1 <= h2 && WaitsOnly(w, Reenter(m), h1, masks)
        ensures SplitAgrees(w, m, h1, h2)
      {
        SplitInvariance(w, m, h1, h2, masks);
      }
    } else {
      var mask :| mask in masks && !TopMask(mask, 8);
      var w, m, h1, h2 := BadMaskIsVisible(mask);
      WaitsOnlyEases(w, Reenter(m), h1, h2, {mask}, masks);
      assert !SplitAgrees(w, m, h1, h2);
    }
  }

  // --------------------------------------------------------------------- prediction

  datatype Option<T> = None | Some(value: T)

  /** The Copper is about to carry out a MOVE to a dangerous register. */
  predicate DangerNow(w: World, m0: Machine)
    requires Valid(m0)
  {
    var m := if m0.c.hpos - COP_OFFSET == m0.chip.plfstrt then m0.(c := AdjustDiw(w, m0.chip, m0.c)) else m0;
    m.c.state == Read1 && !CantRead(m.chip, m.c.vdiw, m.c.hpos) && m.c.doMove && m.c.i1 >= Limit(m.chip)
      && Dangerous(m.c.i1)
  }

  /** The world as prepare_copper_1 sees it: MOVEs are skipped, not carried out. */
  function Still(w: World): World {
    w.(wput := (k: Chip, h: int, r: nat, v: nat) => k)
  }

  /** The loop of prepare_copper_1: where the event is scheduled, if it is. */
  ghost function Forecast(w: World, m: Machine): Option<(int, int)>
    requires WorldOk(w) && Valid(m)
    decreases LinesLeft(w, m), LINE_END - m.c.hpos
  {
    TopKeepsValid(m);
    var t := Top(m);
    if t.c.vpos > w.vpos || t.c.state == Stop then None
    else if DangerNow(w, t) then Some((t.c.vpos, t.c.hpos))
    else
      BodyMoves(Still(w), t);
      Forecast(w, Body(Still(w), t))
  }

  /** The position of the first dangerous MOVE in a list. */
  function FirstDanger(log: seq<Move>): Option<(int, int)> {
    if log == [] then None
    else if Dangerous(log[0].reg) then Some((log[0].vpos, log[0].hpos))
    else FirstDanger(log[1..])
  }

  /** Writes to the harmless registers do not touch anything the Copper looks at. */
  ghost predicate SafeWritesInvisible(w: World) {
    forall k, h, r, v :: !Dangerous(r) ==> w.wput(k, h, r, v) == k
  }

  /** A round appends at most one MOVE, at the current position. */
  lemma BodyLog(w: World, m: Machine)
    requires Valid(m) && m.c.hpos < LINE_END
    ensures Body(w, m).log == m.log
            || Body(w, m).log == m.log + [Move(m.c.vpos, m.c.hpos, m.c.i1, m.c.i2)]
    ensures DangerNow(w, m) ==> Body(w, m).log == m.log + [Move(m.c.vpos, m.c.hpos, m.c.i1, m.c.i2)]
    ensures DangerNow(w, m) ==> Dangerous(m.c.i1)
    ensures !DangerNow(w, m) && Body(w, m).log != m.log ==> !Dangerous(m.c.i1)
  {
    hide Adjusted, CantRead, Vp, VCmp, Hp, HCmp, NextCount, InPlayfield;
  }

  lemma StillAgrees(w: World, m: Machine)
    requires m.c.count >= 0
    ensures AdjustDiw(Still(w), m.chip, m.c) == AdjustDiw(w, m.chip, m.c)
    ensures Compare(Still(w), m) == Compare(w, m) && CanJump(Still(w), m) == CanJump(w, m)
    ensures Jump(Still(w), m) == Jump(w, m)
    ensures Decode(Still(w), m) == Decode(w, m) && Fetch1(Still(w), m) == Fetch1(w, m)
    ensures SafeWritesInvisible(w) && (m.c.i1 < Limit(m.chip) || !Dangerous(m.c.i1)) ==>
              DoMove(Still(w), m) == DoMove(w, m)
  {
    hide And, NextCount, HCmp, Hp, Advance;
  }

  lemma WaitingStill(w: World, m: Machine)
    requires Valid(m) && m.c.hpos < LINE_END
    ensures Waiting(Still(w), m) == Waiting(w, m)
  {
    hide Compare, CanJump, Jump, Still, Advance;
    var m2 := m.(c := m.c.(state := Wait2));
    StillAgrees(w, m2);
    if CanJump(w, m2) {
      JumpMoves(w, m2);
      StillAgrees(w, Jump(w, m2));
    }
  }

  /** A round without a dangerous MOVE is the same for both loops. */
  lemma BodyStill(w: World, m: Machine)
    requires WorldOk(w) && SafeWritesInvisible(w) && Valid(m) && m.c.hpos < LINE_END && !DangerNow(w, m)
    ensures Body(w, m) == Body(Still(w), m)
  {
    hide CantRead, Compare, Waiting, Decode, Fetch1, DoMove, Adjusted, Advance, Still, CanJump, Jump;
    StillAgrees(w, m);
    var m1 := if m.c.hpos - COP_OFFSET == m.chip.plfstrt then m.(c := AdjustDiw(w, m.chip, m.c)) else m;
    StillAgrees(w, m1);
    WaitingStill(w, m1);
  }

  lemma {:induction false} LoopLogGrows(w: World, m: Machine, until: int)
    requires WorldOk(w) && Valid(m)
    ensures m.log <= Loop(w, m, until).log
    decreases LinesLeft(w, m), LINE_END - m.c.hpos
  {
    hide Body;
    TopKeepsValid(m);
    BodyMovesIf(w, Top(m));
    if !Done(w, Top(m), until) {
      BodyLog(w, Top(m));
      LoopLogGrows(w, Body(w, Top(m)), until);
    }
  }

  /** prepare_copper_1 schedules its event exactly at the position where update_copper_1, run
      from the same state, carries out its first dangerous MOVE, and none if there is none. */
  lemma {:induction false} ForecastIsExact(w: World, m: Machine, until: int)
    requires WorldOk(w) && SafeWritesInvisible(w) && Valid(m) && until >= LINE_END
    ensures m.log <= Loop(w, m, until).log
    ensures Forecast(w, m) == FirstDanger(Loop(w, m, until).log[|m.log|..])
    decreases LinesLeft(w, m), LINE_END - m.c.hpos
  {
    hide Body, DangerNow;
    TopKeepsValid(m);
    var t := Top(m);
    BodyMovesIf(w, t);
    LoopLogGrows(w, m, until);
    if !Done(w, t, until) {
      var b := Body(w, t);
      BodyLog(w, t);
      LoopLogGrows(w, b, until);
      var rest := Loop(w, b, until).log;
      if DangerNow(w, t) {
        assert rest[|m.log|] == b.log[|m.log|];
      } else {
        BodyStill(w, t);
        BodyMovesIf(Still(w), t);
        ForecastIsExact(w, b, until);
        if b.log != t.log {
          assert rest[|m.log|] == b.log[|m.log|];
          assert rest[|m.log|..][1..] == rest[|b.log|..];
        }
      }
    }
  }

  // ------------------------------------------------------------------- the program

  /** gen_custom_tables: every later round overwrites the entry, so each one ends as ~255,
      whatever mask the index is. */
  method GenWaitMaskTab(waitmasktab: array<nat>)
    requires waitmasktab.Length == 256
    modifies waitmasktab
    ensures forall i :: 0 <= i < 256 ==> waitmasktab[i] == WAITMASK
  {
    var i := 0;
    while i < 256
      invariant 0 <= i <= 256
      invariant forall k :: 0 <= k < i ==> waitmasktab[k] == WAITMASK
    {
      var j := 0;
      while j < 511
        invariant j == 0 || j == 1 || j == 3 || j == 7 || j == 15 || j == 31 || j == 63 || j == 127
                  || j == 255 || j == 511
        invariant forall k :: 0 <= k < i ==> waitmasktab[k] == WAITMASK
        invariant j == 511 ==> waitmasktab[i] == WAITMASK
        decreases 511 - j
      {
        var notJ := 0xFFFF_FFFF - j;
        if j == 255 {
          MaskClearsLowByte(i);
        }
        if And(i, notJ) == 0 {
          waitmasktab[i] := notJ;
        }
        j := 2 * j + 1;
      }
      i := i + 1;
    }
  }

  /** cop_state, the chip registers and the Copper's event. */
  class CopperUnit {
    const w: World
    var copState: Cop
    var chip: Chip
    var log: seq<Move>
    var active: bool
    var oldcycles: int
    var evtime: int

    ghost predicate Ready()
      reads this
    {
      WorldOk(w) && Valid(Machine(copState, chip, log))
    }

    /** The state of the machine while the position is held in local variables. */
    ghost function At(h: int, v: int): Machine
      reads this
    {
      Machine(copState.(hpos := h, vpos := v), chip, log)
    }

    constructor (w: World, c: Cop, k: Chip)
      requires WorldOk(w) && Valid(Machine(c, k, []))
      ensures Ready() && At(c.hpos, c.vpos) == Machine(c, k, []) && this.w == w
    {
      this.w := w;
      copState, chip, log := c, k, [];
      active, oldcycles, evtime := false, 0, 0;
    }

    /** case COP_read1 */
    method StepRead1(h: int, v: int)
      requires WorldOk(w) && Valid(At(h, v)) && copState.state == Read1
      modifies this`copState, this`chip, this`log
      ensures At(h, v) == var m := old(At(h, v));
                          if CantRead(m.chip, m.c.vdiw, m.c.hpos) then m
                          else if m.c.doMove then DoMove(w, m) else Fetch1(w, m)
    {
      if CantRead(chip, copState.vdiw, h) { return; }
      if copState.doMove {
        copState := copState.(doMove := false);
        if copState.i1 < Limit(chip) {
          copState := copState.(state := Stop);
          return;
        }
        log := log + [Move(v, h, copState.i1, copState.i2)];
        if copState.i1 == 0x88 {
          copState := copState.(ip := chip.cop1lc, state := RDelay1);
        } else if copState.i1 == 0x8A {
          copState := copState.(ip := chip.cop2lc, state := RDelay1);
        } else {
          chip := w.wput(chip, h, copState.i1, copState.i2);
        }
        if copState.state != Read1 { return; }
      }
      copState := copState.(i1 := w.mem(copState.ip));
      copState := copState.(ip := copState.ip + 2);
      copState := copState.(state := Read2);
    }

    /** case COP_read2; for a WAIT or SKIP the comparison values are computed. */
    method StepRead2(h: int, v: int, vp0: nat, vcmp0: nat, hcmp0: nat) returns (vp: nat, vcmp: nat, hcmp: nat)
      requires WorldOk(w) && Valid(At(h, v)) && copState.state == Read2
      modifies this`copState
      ensures At(h, v) == var m := old(At(h, v)); if CantRead(m.chip, m.c.vdiw, m.c.hpos) then m else Decode(w, m)
      ensures InWait(copState) ==>
                vp == Vp(w, copState.i2) && vcmp == VCmp(copState.i1, copState.i2) && hcmp == HCmp(copState.i1, copState.i2)
    {
      hide Vp, VCmp, Hp, HCmp, CantRead;
      vp, vcmp, hcmp := vp0, vcmp0, hcmp0;
      if CantRead(chip, copState.vdiw, h) { return; }
      copState := copState.(i2 := w.mem(copState.ip), ip := copState.ip + 2);
      if copState.ignoreNext {
        copState := copState.(ignoreNext := false, state := Read1);
        return;
      }
      if copState.i1 % 2 == 0 {
        copState := copState.(state := Read1, doMove := true);
      } else {
        vp := Vp(w, copState.i2);
        var hp := Hp(copState.count, copState.i2);
        vcmp := VCmp(copState.i1, copState.i2);
        hcmp := HCmp(copState.i1, copState.i2);
        if copState.i2 % 2 == 0 {
          if copState.i1 == 0xFFFF && copState.i2 == 0xFFFE {
            copState := copState.(state := Stop);
          } else {
            copState := copState.(state := Wait1);
          }
        } else {
          var skip := (vp > vcmp || (vp == vcmp && hp >= hcmp)) && (copState.i2 >= 0x8000 || !chip.blitterBusy);
          copState := copState.(ignoreNext := skip, state := Read1);
        }
      }
    }

    /** case COP_wait2 */
    method StepCompare(h0: int, v0: int, vp: nat, vcmp: nat, hcmp: nat) returns (h: int, v: int, again: bool)
      requires WorldOk(w) && copState.count >= 0
      requires vp == Vp(w, copState.i2) && vcmp == VCmp(copState.i1, copState.i2)
               && hcmp == HCmp(copState.i1, copState.i2)
      modifies this`copState
      ensures Compare(w, old(At(h0, v0))) == if again then At(h, v) else Advance(At(h, v))
      ensures chip == old(chip)
    {
      hide Vp, VCmp, HCmp, Hp, Advance;
      h, v, again := h0, v0, false;
      if vp < vcmp {
        if h - COP_OFFSET < chip.plfstrt {
          copState := AdjustDiw(w, chip, copState);
        }
        v := v + 1;
        h := 0;
        copState := copState.(count := 0);
        again := true;
        return;
      }
      var hp := Hp(copState.count, copState.i2);
      if vp == vcmp && hp < hcmp { return; }
      if copState.i2 >= 0x8000 || !chip.blitterBusy {
        copState := copState.(state := Read1);
      } else {
        copState := copState.(state := BltWait);
      }
    }

    /** case COP_wait1b, falling through to COP_wait2 */
    method StepWait(h0: int, v0: int, vp: nat, vcmp: nat, hcmp: nat) returns (h: int, v: int, again: bool)
      requires WorldOk(w) && Valid(At(h0, v0)) && (copState.state == Wait1 || copState.state == Wait1b)
      requires vp == Vp(w, copState.i2) && vcmp == VCmp(copState.i1, copState.i2)
               && hcmp == HCmp(copState.i1, copState.i2)
      modifies this`copState
      ensures Waiting(w, old(At(h0, v0))) == if again then At(h, v) else Advance(At(h, v))
      ensures chip == old(chip)
    {
      hide Vp, VCmp, HCmp, Hp, And, Compare, Adjusted, Advance;
      h, v, again := h0, v0, false;
      var doWait2 := copState.state == Wait1b;
      copState := copState.(state := Wait2);
      if vp == vcmp && chip.planes < 8 {
        var t := copState.count + 2;
        var nextCount := Or(And(t, WAITMASK), hcmp);
        if nextCount < t {
          nextCount := t;
        }
        var nexthpos := h + nextCount - copState.count;
        if nexthpos < LINE_END {
          if h - COP_OFFSET < chip.plfstrt && nexthpos - COP_OFFSET >= chip.plfstrt {
            copState := AdjustDiw(w, chip, copState);
          }
          h := nexthpos;
          copState := copState.(count := nextCount);
          doWait2 := true;
        }
      }
      if !doWait2 { return; }
      h, v, again := StepCompare(h, v, vp, vcmp, hcmp);
    }

    /** The two cycles at the end of a round. */
    method StepAdvance(h0: int, v: int) returns (h: int)
      modifies this`copState
      ensures At(h, v) == Advance(old(At(h0, v)))
    {
      h := h0 + 2;
      if chip.planes < 8 || !InPlayfield(chip, copState.vdiw, h) {
        copState := copState.(count := copState.count + 2);
      }
    }

    /** One pass of the switch statement and, unless the source says continue, the two cycles
        that follow it. */
    method Round(h0: int, v0: int, vp0: nat, vcmp0: nat, hcmp0: nat)
      returns (h: int, v: int, vp: nat, vcmp: nat, hcmp: nat)
      requires WorldOk(w) && Valid(At(h0, v0)) && h0 < LINE_END
      requires InWait(copState) ==>
                 vp0 == Vp(w, copState.i2) && vcmp0 == VCmp(copState.i1, copState.i2) && hcmp0 == HCmp(copState.i1, copState.i2)
      modifies this`copState, this`chip, this`log
      ensures At(h, v) == Body(w, old(At(h0, v0)))
      ensures InWait(copState) ==>
                vp == Vp(w, copState.i2) && vcmp == VCmp(copState.i1, copState.i2) && hcmp == HCmp(copState.i1, copState.i2)
    {
      hide Compare, Waiting, Decode, DoMove, Fetch1, CantRead, Adjusted, Vp, VCmp, HCmp, Advance;
      h, v, vp, vcmp, hcmp := h0, v0, vp0, vcmp0, hcmp0;
      if h - COP_OFFSET == chip.plfstrt {
        copState := AdjustDiw(w, chip, copState);
      }
      assert AdjustedAt(w, old(At(h0, v0))) == At(h, v);
      var again := false;
      var st := copState.state;
      if st == RDelay1 {
        copState := copState.(state := Read1);
      } else if st == Read1 {
        StepRead1(h, v);
        ReadStates(w, AdjustedAt(w, old(At(h0, v0))));
      } else if st == Read2 {
        vp, vcmp, hcmp := StepRead2(h, v, vp, vcmp, hcmp);
      } else if st == Wait1 {
        if !CantRead(chip, copState.vdiw, h) {
          h, v, again := StepWait(h, v, vp, vcmp, hcmp);
          WaitRegs(w, AdjustedAt(w, old(At(h0, v0))));
        }
      } else if st == Wait1b {
        h, v, again := StepWait(h, v, vp, vcmp, hcmp);
        WaitRegs(w, AdjustedAt(w, old(At(h0, v0))));
      } else if st == Wait2 {
        h, v, again := StepCompare(h, v, vp, vcmp, hcmp);
        WaitRegs(w, AdjustedAt(w, old(At(h0, v0))));
      }
      if !again {
        ghost var before := At(h, v);
        h := StepAdvance(h, v);
        AdvanceRegs(before);
      }
    }

    /** The start of a round. */
    method StepTop(h0: int, v0: int) returns (h: int, v: int)
      modifies this`copState
      ensures At(h, v) == Top(old(At(h0, v0)))
      ensures copState == old(copState).(state := copState.state, count := copState.count)
      ensures InWait(copState) ==> InWait(old(copState))
    {
      h, v := h0, v0;
      if h == LINE_END {
        h := 0;
        copState := copState.(count := 0);
        v := v + 1;
      }
      if !chip.copperDma {
        copState := copState.(state := Stop);
      }
    }

    /** update_copper_1: runs the Copper up to a beam position. */
    method UpdateCopper1(untilHpos: int)
      requires Ready()
      modifies this`copState, this`chip, this`log
      ensures Ready()
      ensures Machine(copState, chip, log) == Update(w, old(Machine(copState, chip, log)), untilHpos)
    {
      hide Body, CanJump, Vp, VCmp, HCmp, Top;
      var h, v := copState.hpos, copState.vpos;
      var vp, vcmp, hcmp := Vp(w, copState.i2), VCmp(copState.i1, copState.i2), HCmp(copState.i1, copState.i2);
      if copState.state == Wait2 {
        copState := copState.(state := Wait1b);
      }
      ghost var goal := Update(w, old(Machine(copState, chip, log)), untilHpos);
      while true
        invariant WorldOk(w) && Valid(At(h, v)) && Loop(w, At(h, v), untilHpos) == goal
        invariant InWait(copState) ==> vp == Vp(w, copState.i2) && vcmp == VCmp(copState.i1, copState.i2)
                                       && hcmp == HCmp(copState.i1, copState.i2)
        decreases LinesLeft(w, At(h, v)), LINE_END - h
      {
        ghost var m := At(h, v);
        TopKeepsValid(m);
        h, v := StepTop(h, v);
        if v > w.vpos || h > untilHpos || copState.state == Stop { break; }
        BodyMovesIf(w, At(h, v));
        h, v, vp, vcmp, hcmp := Round(h, v, vp, vcmp, hcmp);
      }
      assert At(h, v) == goal;
      copState := copState.(hpos := h, vpos := v);
    }

    /** update_copper */
    method UpdateCopper(untilHpos: int)
      requires Ready()
      modifies this`copState, this`chip, this`log
      ensures Ready()
      ensures Machine(copState, chip, log) == var m := old(Machine(copState, chip, log));
                                              if Done(w, m, untilHpos) then m else Update(w, m, untilHpos)
    {
      if copState.vpos > w.vpos || copState.hpos > untilHpos || copState.state == Stop { return; }
      UpdateCopper1(untilHpos);
    }

    /** prepare_copper_1, working on a copy of the Copper's state: schedules the Copper's event
        for the moment of its next dangerous MOVE on this line.  `now` is the cycle counter and
        `lineStart` its value at the start of the line (the oldcycles of the hsync event). */
    method PrepareCopper1(now: int, lineStart: int)
      requires Ready()
      modifies this`active, this`oldcycles, this`evtime
      ensures var f := Forecast(w, Reenter(Machine(copState, chip, log)));
              && active == f.Some?
              && (active ==> oldcycles == now
                             && evtime == lineStart + f.value.1 + (f.value.0 - copState.vpos) * MAXHPOS)
    {
      hide Body;
      var s := Still(w);
      var cst := Reenter(Machine(copState, chip, log));   // struct copper cst = cop_state
      ghost var goal := Forecast(w, cst);
      while true
        invariant Valid(cst) && Forecast(w, cst) == goal
        decreases LinesLeft(w, cst), LINE_END - cst.c.hpos
      {
        ghost var m := cst;
        TopKeepsValid(m);
        cst := Top(cst);
        if cst.c.vpos > w.vpos || cst.c.state == Stop {
          active := false;
          return;
        }
        if DangerNow(w, cst) {
          active := true;
          oldcycles := now;
          evtime := now + cst.c.hpos - (now - lineStart) + (cst.c.vpos - copState.vpos) * MAXHPOS;
          return;
        }
        BodyMovesIf(s, cst);
        cst := Body(s, cst);
      }
    }
  }

  ghost function AdjustedAt(w: World, m: Machine): Machine {
    if m.c.hpos - COP_OFFSET == m.chip.plfstrt then m.(c := AdjustDiw(w, m.chip, m.c)) else m
  }

  lemma AdvanceRegs(m: Machine)
    ensures Advance(m).c.i1 == m.c.i1 && Advance(m).c.i2 == m.c.i2 && Advance(m).c.state == m.c.state
  {
  }

  lemma ReadStates(w: World, m: Machine)
    requires m.c.state == Read1
    ensures !InWait(DoMove(w, m).c) && !InWait(Fetch1(w, m).c)
  {
  }

  /** Waiting changes neither instruction word. */
  lemma WaitRegs(w: World, m: Machine)
    requires Valid(m)
    ensures Waiting(w, m).c.i1 == m.c.i1 && Waiting(w, m).c.i2 == m.c.i2 && Waiting(w, m).chip == m.chip
    ensures Compare(w, m).c.i1 == m.c.i1 && Compare(w, m).c.i2 == m.c.i2 && Compare(w, m).chip == m.chip
  {
    hide NextCount, And;
  }
}
