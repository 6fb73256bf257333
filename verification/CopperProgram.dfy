/**
 What a Copper program does, instruction by instruction: MOVE, WAIT and SKIP of src/custom.c as a programmer sees
 them.
 */
module CopperProgram {

  import opened Powers
  import opened Copper

  // ------------------------------------------------------------------ the bus

  /** The display window opens on its first line and closes on its last. */
  lemma WindowIs(w: World, k: Chip)
    ensures Adjusted(w, k, WaitingStart) ==
            if w.vpos == k.plffirstline && w.vpos != k.plflastline then WaitingStop else WaitingStart
    ensures Adjusted(w, k, WaitingStop) == if w.vpos == k.plflastline then WaitingStart else WaitingStop
  {
  }

  /** At an even position the bus is taken at the end of the line, and inside the display window of a chip that is not
      an AGA one: always with seven or eight planes, in the second slot of eight with five or six, and in the fourth
      one too with six. */
  lemma BusTaken(k: Chip, d: Diw, hpos: int)
    requires k.planes <= 8 && hpos >= 0 && hpos % 2 == 0
    ensures CantRead(k, d, hpos) <==>
            || hpos >= 224
            || (!k.aga && d == WaitingStop && k.plfstrt <= hpos - 4 < k.plfstrt + k.plflinelen
                && (k.planes >= 7 || (k.planes >= 5 && hpos % 8 == 2) || (k.planes == 6 && hpos % 8 == 6)))
  {
  }

  /** The state in which a round finds the display window. */
  function Here(w: World, m: Machine): Machine {
    if m.c.hpos - 4 == m.chip.plfstrt then m.(c := m.c.(vdiw := Adjusted(w, m.chip, m.c.vdiw))) else m
  }

  /** The Copper gets the bus in this round. */
  predicate Free(w: World, m: Machine)
    requires Valid(m)
  {
    !CantRead(m.chip, Here(w, m).c.vdiw, m.c.hpos)
  }

  // ------------------------------------------------------------------ fetching and MOVE

  /** The first word of an instruction is fetched from where ip points. */
  lemma FirstWord(w: World, m: Machine)
    requires Valid(m) && m.c.state == Read1 && !m.c.doMove && Free(w, m)
    ensures var r := Body(w, m);
            && r.c.i1 == w.mem(m.c.ip) && r.c.ip == m.c.ip + 2 && r.c.state == Read2 && !r.c.doMove
            && r.c.ignoreNext == m.c.ignoreNext
            && r.c.hpos == m.c.hpos + 2 && r.c.vpos == m.c.vpos && r.log == m.log && r.chip == m.chip
  {
    hide CantRead, Adjusted;
  }

  /** Without the bus it waits. */
  lemma NoBus(w: World, m: Machine)
    requires Valid(m) && (m.c.state == Read1 || m.c.state == Read2) && !Free(w, m)
    ensures var r := Body(w, m);
            && (r.c.i1, r.c.i2, r.c.ip, r.c.state, r.c.doMove, r.c.ignoreNext)
               == (m.c.i1, m.c.i2, m.c.ip, m.c.state, m.c.doMove, m.c.ignoreNext)
            && r.c.hpos == m.c.hpos + 2 && r.c.vpos == m.c.vpos && r.log == m.log && r.chip == m.chip
  {
    hide CantRead, Adjusted;
  }

  /** A MOVE is carried out with the fetch of the next instruction.  Registers below 0x80 stop the Copper, or those
      below 0x40, or none, when the danger bit of COPCON is set; 0x088 and 0x08A jump to the first and the second
      program; every other register is written with the position and the value of the MOVE. */
  lemma MoveIsCarriedOut(w: World, m: Machine)
    requires Valid(m) && m.c.state == Read1 && m.c.doMove && Free(w, m)
    ensures var r, i1 := Body(w, m), m.c.i1;
            var limit := if m.chip.copcon / 2 % 2 == 0 then 0x80 else if m.chip.aga then 0 else 0x40;
            && !r.c.doMove && r.c.hpos == m.c.hpos + 2 && r.c.vpos == m.c.vpos
            && (if i1 < limit then r.c.state == Stop && r.log == m.log && r.chip == m.chip
                else
                  && r.log == m.log + [Move(m.c.vpos, m.c.hpos, i1, m.c.i2)]
                  && (if i1 == 0x088 then r.c.state == RDelay1 && r.c.ip == m.chip.cop1lc && r.chip == m.chip
                      else if i1 == 0x08A then r.c.state == RDelay1 && r.c.ip == m.chip.cop2lc && r.chip == m.chip
                      else
                        && r.chip == w.wput(m.chip, m.c.hpos, i1, m.c.i2)
                        && r.c.state == Read2 && r.c.i1 == w.mem(m.c.ip) && r.c.ip == m.c.ip + 2))
  {
    DoMoveIs(w, m);
    TwoCycles(DoMove(w, Here(w, m)));
    hide Body, CantRead, Adjusted, Advance;
  }

  lemma DoMoveIs(w: World, m: Machine)
    requires Valid(m) && m.c.state == Read1 && m.c.doMove && Free(w, m)
    ensures Body(w, m) == Advance(DoMove(w, Here(w, m)))
  {
    hide CantRead, Adjusted, DoMove, Advance;
  }

  /** About to fetch the first word of an instruction, perhaps after the delay of a jump. */
  predicate AboutToFetch(m: Machine) { (m.c.state == RDelay1 || m.c.state == Read1) && !m.c.doMove }

  /** Whatever holds the Copper up, the next word that it fetches is the one that ip points to; or the run ends
      before that. */
  lemma {:induction false} NextWord(w: World, m: Machine, until: int) returns (f: Machine)
    requires WorldOk(w) && Valid(m) && AboutToFetch(m)
    ensures Valid(f) && Loop(w, m, until) == Loop(w, f, until) && f.log == m.log && f.chip == m.chip
    ensures || (f.c.state == Read2 && f.c.i1 == w.mem(m.c.ip) && f.c.ip == m.c.ip + 2)
            || (AboutToFetch(f) && f.c.ip == m.c.ip && Done(w, Top(f), until))
    decreases LinesLeft(w, m), LINE_END - m.c.hpos
  {
    hide Body, CantRead;
    var t := Top(m);
    TopKeepsValid(m);
    if Done(w, t, until) {
      f := m;
    } else {
      BodyMovesIf(w, t);
      if t.c.state == RDelay1 {
        DelayEnds(w, t);
        f := NextWord(w, Body(w, t), until);
      } else if Free(w, t) {
        FirstWord(w, t);
        f := Body(w, t);
      } else {
        NoBus(w, t);
        f := NextWord(w, Body(w, t), until);
      }
    }
  }

  lemma DelayEnds(w: World, m: Machine)
    requires Valid(m) && m.c.state == RDelay1
    ensures var r := Body(w, m);
            && r.c.state == Read1 && r.c.doMove == m.c.doMove && r.c.ip == m.c.ip && r.log == m.log && r.chip == m.chip
            && r.c.hpos == m.c.hpos + 2 && r.c.vpos == m.c.vpos
  {
    hide Adjusted;
  }

  /** So after a MOVE to COPJMP1 the next word fetched is the first one of the first program, and after one to COPJMP2
      that of the second. */
  lemma JumpsGoThere(w: World, m: Machine, until: int) returns (f: Machine)
    requires WorldOk(w) && Valid(m) && Top(m) == m && !Done(w, m, until)
    requires m.c.state == Read1 && m.c.doMove && Free(w, m) && (m.c.i1 == 0x088 || m.c.i1 == 0x08A)
    ensures var start := if m.c.i1 == 0x088 then m.chip.cop1lc else m.chip.cop2lc;
            && Valid(f) && Loop(w, m, until) == Loop(w, f, until)
            && f.log == m.log + [Move(m.c.vpos, m.c.hpos, m.c.i1, m.c.i2)]
            && ((f.c.state == Read2 && f.c.i1 == w.mem(start) && f.c.ip == start + 2)
                || (AboutToFetch(f) && f.c.ip == start && Done(w, Top(f), until)))
  {
    MoveIsCarriedOut(w, m);
    TopKeepsValid(m);
    BodyMovesIf(w, m);
    assert Loop(w, m, until) == Loop(w, Body(w, m), until);
    hide Body, CantRead, Loop, Top;
    f := NextWord(w, Body(w, m), until);
  }

  // ------------------------------------------------------------------ the second word

  /** The position compared with is reached: on a later line, or on the same one at this position or beyond, under
      the masks of the second word. */
  predicate Reached(w: World, count: int, i1: nat, i2: nat)
    requires count >= 0
  {
    Vp(w, i2) > VCmp(i1, i2) || (Vp(w, i2) == VCmp(i1, i2) && Hp(count, i2) >= HCmp(i1, i2))
  }

  /** The second word decides: an even first word makes a MOVE, an odd one a WAIT or, with an odd second word, a SKIP;
      0xFFFF, 0xFFFE stops the Copper.  A SKIP that finds its position reached, and the blitter done if it asks for
      that, makes the Copper pass over the next instruction. */
  lemma SecondWord(w: World, m: Machine)
    requires Valid(m) && m.c.state == Read2 && Free(w, m)
    ensures var r, i2 := Body(w, m), w.mem(m.c.ip);
            && r.c.i1 == m.c.i1 && r.c.i2 == i2 && r.c.ip == m.c.ip + 2 && r.c.hpos == m.c.hpos + 2 && r.c.vpos == m.c.vpos
            && r.log == m.log && r.chip == m.chip
            && (if m.c.ignoreNext then r.c.state == Read1 && !r.c.ignoreNext && r.c.doMove == m.c.doMove
                else if m.c.i1 % 2 == 0 then r.c.state == Read1 && r.c.doMove && !r.c.ignoreNext
                else if i2 % 2 == 0 then
                  && r.c.state == (if m.c.i1 == 0xFFFF && i2 == 0xFFFE then Stop else Wait1)
                  && r.c.doMove == m.c.doMove && !r.c.ignoreNext
                else
                  && r.c.state == Read1 && r.c.doMove == m.c.doMove
                  && (r.c.ignoreNext <==> Reached(w, m.c.count, m.c.i1, i2) && (i2 >= 0x8000 || !m.chip.blitterBusy)))
  {
    DecodeIs(w, m);
    TwoCycles(Decode(w, Here(w, m)));
    hide Body, CantRead, Adjusted, Vp, VCmp, Hp, HCmp, Advance;
  }

  lemma TwoCycles(m: Machine)
    ensures Advance(m) == m.(c := m.c.(hpos := m.c.hpos + 2, count := Advance(m).c.count))
  {
    hide InPlayfield;
  }

  lemma DecodeIs(w: World, m: Machine)
    requires Valid(m) && m.c.state == Read2 && Free(w, m)
    ensures Body(w, m) == Advance(Decode(w, Here(w, m)))
  {
    hide CantRead, Adjusted, Decode, Advance;
  }

  /** An instruction that is passed over is fetched and nothing else: two rounds later the Copper is where it
      would be after it, and has done nothing. */
  lemma SkippedInstruction(w: World, m: Machine)
    requires WorldOk(w) && Valid(m) && m.c.state == Read1 && !m.c.doMove && m.c.ignoreNext && m.c.hpos < LINE_END
    requires Valid(Body(w, m)) && Free(w, m) && Free(w, Body(w, m))
    ensures var r := Body(w, Body(w, m));
            && r.c.state == Read1 && !r.c.doMove && !r.c.ignoreNext && r.c.ip == m.c.ip + 4
            && r.log == m.log && r.chip == m.chip
  {
    hide Body, CantRead;
    FirstWord(w, m);
    SecondWord(w, Body(w, m));
  }

  // ------------------------------------------------------------------ comparisons

  function Both(x: nat, y: nat): nat { if x == 1 && y == 1 then 1 else 0 }

  lemma {:induction false} BitOfAnd(a: nat, b: nat, k: nat)
    ensures Bit(And(a, b), k) == Both(Bit(a, k), Bit(b, k))
    decreases k
  {
    AndParts(a, b);
    if k > 0 {
      BitOfAnd(a / 2, b / 2, k - 1);
    }
  }

  lemma BitIsBit(a: nat, k: nat)
    ensures 0 <= Bit(a, k) <= 1
    decreases k
  {
    if k > 0 {
      BitIsBit(a / 2, k - 1);
    }
  }

  lemma OrParts(a: nat, b: nat)
    ensures Or(a, b) >= 0 && Or(a, b) % 2 == (if a % 2 == 1 || b % 2 == 1 then 1 else 0) && Or(a, b) / 2 == Or(a / 2, b / 2)
  {
    AndParts(a, b);
    hide And;
    Split(a, b, And(a, b));
  }

  lemma Split(a: nat, b: nat, c: nat)
    requires c <= a && c <= b && c % 2 == if a % 2 == 1 && b % 2 == 1 then 1 else 0
    ensures (a + b - c) % 2 == (if a % 2 == 1 || b % 2 == 1 then 1 else 0) && (a + b - c) / 2 == a / 2 + b / 2 - c / 2
  {
  }

  lemma {:induction false} BitOfOr(a: nat, b: nat, k: nat)
    ensures Bit(Or(a, b), k) == if Bit(a, k) == 1 || Bit(b, k) == 1 then 1 else 0
    decreases k
  {
    OrParts(a, b);
    hide Or;
    if k > 0 {
      BitOfOr(a / 2, b / 2, k - 1);
    }
  }

  /** a >> n */
  function Shifted(a: nat, n: nat): nat { if n == 0 then a else Shifted(a / 2, n - 1) }

  lemma {:induction false} BitOfShifted(a: nat, n: nat, k: nat)
    ensures Bit(Shifted(a, n), k) == Bit(a, n + k)
    decreases n
  {
    if n > 0 {
      BitOfShifted(a / 2, n - 1, k);
    }
  }

  lemma {:induction false} ShiftedIs(a: nat, n: nat)
    ensures a / Pow2(n) >= 0 && Shifted(a, n) == a / Pow2(n)
    decreases n
  {
    if n > 0 {
      ShiftedIs(a / 2, n - 1);
      HalfFirst(a, Pow2(n - 1));
    } else {
      assert a / 1 == a;
    }
  }

  lemma HalfFirst(a: nat, p: nat)
    requires p > 0
    ensures a / (2 * p) == a / 2 / p
  {
    var q, r := a / 2 / p, a / 2 % p;
    assert a / 2 == p * q + r;
    assert a == 2 * (a / 2) + a % 2;
    assert 2 * p * q == 2 * (p * q);
    QuotientIs(a, 2 * p, q, 2 * r + a % 2);
  }

  lemma QuotientIs(x: nat, m: nat, q: nat, r: nat)
    requires m > 0 && x == m * q + r && r < m
    ensures x / m == q
  {
    var d := x / m - q;
    assert m * d == r - x % m by {
      assert x == m * (x / m) + x % m;
      assert m * d == m * (x / m) - m * q;
    }
    NoMultiple(m, d);
  }

  lemma NoMultiple(m: int, d: int)
    requires m > 0 && -m < m * d < m
    ensures d == 0
  {
  }

  lemma {:induction false} BitOfPower(n: nat, k: nat)
    ensures Bit(Pow2(n), k) == if k == n then 1 else 0
    decreases n
  {
    if n == 0 {
      if k > 0 {
        BitOfZero(k - 1);
      }
    } else if k > 0 {
      BitOfPower(n - 1, k - 1);
    }
  }

  lemma {:induction false} BitOfZero(k: nat)
    ensures Bit(0, k) == 0
  {
    if k > 0 {
      BitOfZero(k - 1);
    }
  }

  /** The horizontal comparison is of bits 1 to 7, those that the second word selects. */
  lemma HorizontalBits(count: nat, i1: nat, i2: nat, k: nat)
    ensures Bit(Hp(count, i2), k) == if 1 <= k <= 7 then Both(Bit(count, k), Bit(i2, k)) else 0
    ensures Bit(HCmp(i1, i2), k) == if 1 <= k <= 7 then Both(Bit(i1, k), Bit(i2, k)) else 0
  {
    BitOfAnd(count, And(i2, 0xFE), k);
    BitOfAnd(i2, 0xFE, k);
    BitOfAnd(And(i1, i2), 0xFE, k);
    BitOfAnd(i1, i2, k);
    BitOf0xFE(k);
    hide And, Bit;
  }

  lemma BitOf0xFE(k: nat)
    ensures Bit(0xFE, k) == if 1 <= k <= 7 then 1 else 0
  {
    assert Pow2(7) == 128;
    if k > 0 {
      BitOfOnes(7, k - 1);
      assert Bit(0xFE, k) == Bit(0xFE / 2, k - 1);
    }
  }

  lemma {:induction false} BitOfOnes(n: nat, k: nat)
    ensures Bit(Pow2(n) - 1, k) == if k < n then 1 else 0
    decreases n
  {
    if n == 0 {
      BitOfZero(k);
    } else {
      Doubled(Pow2(n - 1) - 1);
      assert Pow2(n) - 1 == 2 * (Pow2(n - 1) - 1) + 1;
      if k > 0 {
        BitOfOnes(n - 1, k - 1);
      }
    }
  }

  /** The vertical comparison is of the line number with the high byte of the first word: bit 7 always, the others
      where the second word selects them. */
  lemma VerticalBits(w: World, i1: nat, i2: nat, k: nat)
    requires i1 < 0x1_0000 && i2 < 0x1_0000
    ensures Bit(Vp(w, i2), k) == if k < 7 then Both(Bit(w.vpos, k), Bit(i2, k + 8)) else if k == 7 then Bit(w.vpos, 7) else 0
    ensures k < 7 ==> Bit(VCmp(i1, i2), k) == Both(Bit(i1, k + 8), Bit(i2, k + 8))
    ensures Bit(VCmp(i1, i2), 7) == Bit(i1, 15)
  {
    VposBits(w, i2, k);
    BitOfCompare(i1, i2, k);
    BitOfCompare(i1, i2, 7);
    hide *;
  }

  lemma VposBits(w: World, i2: nat, k: nat)
    ensures Bit(Vp(w, i2), k) ==
            if k < 7 then Both(Bit(w.vpos, k), Bit(i2, k + 8)) else if k == 7 then Bit(w.vpos, 7) else 0
  {
    BitOfAnd(w.vpos, i2 / 256 % 128 + 128, k);
    BitOfHigh(i2, k);
    BitIsBit(w.vpos, k);
    hide And, Bit;
  }

  lemma BitOfCompare(i1: nat, i2: nat, k: nat)
    ensures Bit(VCmp(i1, i2), k) == if k == 7 then Bit(i1, 15) else Both(Bit(i1, k + 8), Bit(i2, k + 8))
  {
    var x := Or(i2, 0x8000);
    OrParts(i2, 0x8000);
    ShiftedByEight(And(i1, x), k);
    BitOfAnd(i1, x, 8 + k);
    BitOfMarked(i2, 8 + k);
    BitIsBit(i1, 8 + k);
    hide And, Bit, Or;
  }

  lemma ShiftedByEight(a: nat, k: nat)
    ensures Bit(a / 256, k) == Bit(a, 8 + k)
  {
    assert Pow2(8) == 256;
    BitOfShifted(a, 8, k);
    ShiftedIs(a, 8);
    hide Bit, Shifted, Pow2;
  }

  lemma BitOfMarked(i2: nat, k: nat)
    ensures Or(i2, 0x8000) >= 0 && Bit(Or(i2, 0x8000), k) == if k == 15 then 1 else Bit(i2, k)
  {
    assert Pow2(15) == 0x8000;
    OrParts(i2, 0x8000);
    BitOfOr(i2, 0x8000, k);
    BitOfPower(15, k);
    BitIsBit(i2, k);
    hide Or, Bit, Pow2;
  }

  lemma BitOfHigh(i2: nat, k: nat)
    ensures Bit(i2 / 256 % 128 + 128, k) == if k < 7 then Bit(i2, k + 8) else if k == 7 then 1 else 0
  {
    assert Pow2(7) == 128;
    ShiftedByEight(i2, k);
    TopSet(i2 / 256, 7, k);
  }

  /** The n low bits of a with a one above them. */
  lemma {:induction false} TopSet(a: nat, n: nat, k: nat)
    ensures Bit(a % Pow2(n) + Pow2(n), k) == if k < n then Bit(a, k) else if k == n then 1 else 0
    decreases n
  {
    if n == 0 {
      assert a % 1 == 0;
      BitOfPower(0, k);
    } else {
      var p := Pow2(n - 1);
      HalfOfRest(a, p);
      if k > 0 {
        TopSet(a / 2, n - 1, k - 1);
      }
    }
  }

  lemma HalfOfRest(a: nat, p: nat)
    requires p > 0
    ensures (a % (2 * p) + 2 * p) / 2 == a / 2 % p + p && (a % (2 * p) + 2 * p) % 2 == a % 2
  {
    HalfFirst(a, p);
    var q, r := a / (2 * p), a / 2 % p;
    DivMod(a, 2 * p);
    DivMod(a / 2, p);
    DivMod(a, 2);
    assert 2 * p * q == 2 * (p * q);
    assert a % (2 * p) == 2 * r + a % 2;
    Doubles(r + p, a % 2);
  }

  lemma DivMod(x: nat, m: nat)
    requires m > 0
    ensures x == m * (x / m) + x % m
  {
  }

  lemma Doubles(x: nat, b: nat)
    requires b < 2
    ensures (2 * x + b) / 2 == x && (2 * x + b) % 2 == b
  {
  }

  // ------------------------------------------------------------------ WAIT

  /** A WAIT for a line further down gives the rest of the line up. */
  lemma WaitsForLine(w: World, m: Machine)
    requires Valid(m) && m.c.state == Wait2 && Vp(w, m.c.i2) < VCmp(m.c.i1, m.c.i2)
    ensures var r := Body(w, m);
            && r.c.vpos == m.c.vpos + 1 && r.c.hpos == 0 && r.c.count == 0 && r.c.state == Wait2
            && (r.c.i1, r.c.i2, r.c.ip) == (m.c.i1, m.c.i2, m.c.ip) && r.log == m.log && r.chip == m.chip
  {
    hide Adjusted, Vp, VCmp, Hp, HCmp;
  }

  /** A WAIT that is past its first stage ends as soon as its position is reached, two cycles later, and lets the
      next instruction be read, or waits for the blitter first if it asks for that. */
  lemma WaitEnds(w: World, m: Machine)
    requires Valid(m) && m.c.state == Wait2 && Vp(w, m.c.i2) >= VCmp(m.c.i1, m.c.i2)
    ensures var r := Body(w, m);
            && r.c.hpos == m.c.hpos + 2 && r.c.vpos == m.c.vpos && r.log == m.log && r.chip == m.chip && r.c.ip == m.c.ip
            && r.c.state == (if !Reached(w, m.c.count, m.c.i1, m.c.i2) then Wait2
                             else if m.c.i2 >= 0x8000 || !m.chip.blitterBusy then Read1 else BltWait)
  {
    hide Adjusted, Vp, VCmp, Hp, HCmp, InPlayfield;
  }

  /** On the right line and with few enough planes, a WAIT that the Copper comes to, with a mask that has no clear bit
      above a set one, ends at the count compared with, or two further on if that is past; in the cycles given up
      nothing is done. */
  lemma WaitJumps(w: World, m: Machine)
    requires Valid(m) && m.c.state == Wait1b && m.c.hpos < LINE_END && GoodMask(m.c.i2)
    requires Vp(w, m.c.i2) == VCmp(m.c.i1, m.c.i2) && m.chip.planes < 8
    requires var at := if HCmp(m.c.i1, m.c.i2) < m.c.count + 2 then m.c.count + 2 else HCmp(m.c.i1, m.c.i2);
             m.c.hpos + at - m.c.count < LINE_END
    ensures var at := if HCmp(m.c.i1, m.c.i2) < m.c.count + 2 then m.c.count + 2 else HCmp(m.c.i1, m.c.i2);
            var r := Body(w, m);
            && r.c.count == at + 2 && r.c.hpos == m.c.hpos + at - m.c.count + 2 && r.c.vpos == m.c.vpos
            && r.c.state == (if m.c.i2 >= 0x8000 || !m.chip.blitterBusy then Read1 else BltWait)
            && r.c.ip == m.c.ip && r.log == m.log && r.chip == m.chip
  {
    var m1 := Here(w, m);
    var m2 := m1.(c := m1.c.(state := Wait2));
    assert Body(w, m) == Waiting(w, m1) by {
      hide Waiting, Adjusted;
    }
    JumpEnds(w, m2);
    hide And, Adjusted, Vp, VCmp, Hp, HCmp, NextCount, Compare, Jump, GoodMask;
    assert Waiting(w, m1) == Compare(w, Jump(w, m2));
  }

  lemma JumpEnds(w: World, m: Machine)
    requires Valid(m) && m.c.hpos < LINE_END && GoodMask(m.c.i2)
    requires Vp(w, m.c.i2) == VCmp(m.c.i1, m.c.i2) && m.chip.planes < 8
    requires var at := if HCmp(m.c.i1, m.c.i2) < m.c.count + 2 then m.c.count + 2 else HCmp(m.c.i1, m.c.i2);
             m.c.hpos + at - m.c.count < LINE_END
    ensures var at := if HCmp(m.c.i1, m.c.i2) < m.c.count + 2 then m.c.count + 2 else HCmp(m.c.i1, m.c.i2);
            CanJump(w, m) && Jump(w, m).c.count >= 0
            && var r := Compare(w, Jump(w, m));
               && r.c.count == at + 2 && r.c.hpos == m.c.hpos + at - m.c.count + 2 && r.c.vpos == m.c.vpos
               && r.c.state == (if m.c.i2 >= 0x8000 || !m.chip.blitterBusy then Read1 else BltWait)
               && r.c.ip == m.c.ip && r.log == m.log && r.chip == m.chip
  {
    NextCountIsMax(m.c);
    hide And, Adjusted, Vp, VCmp, Hp, HCmp, NextCount, InPlayfield, GoodMask;
    assert CanJump(w, m);
    JumpHits(w, m);
    JumpKeeps(w, m);
  }

  /** The registers that the forecast looks out for: all but those of the sprites, bitplanes and colours between
      0x0E0 and 0x1BF. */
  lemma DangerousRegisters(reg: nat)
    ensures Dangerous(reg) <==> reg < 0x0E0 || reg >= 0x1C0
  {
  }

  /** At the end of its line, at position 226, the Copper goes on at the start of the next one; without DMA it stops. */
  lemma LineEnds(m: Machine)
    ensures var r := Top(m);
            && r.log == m.log && r.chip == m.chip && (r.c.i1, r.c.i2, r.c.ip) == (m.c.i1, m.c.i2, m.c.ip)
            && r.c.state == (if m.chip.copperDma then m.c.state else Stop)
            && (r.c.hpos, r.c.count, r.c.vpos) == if m.c.hpos == 226 then (0, 0, m.c.vpos + 1) else (m.c.hpos, m.c.count, m.c.vpos)
  {
  }

  /** The count compared with goes along with the position, but stands still where eight planes are displayed. */
  lemma CountAdvances(m: Machine)
    ensures var r := Advance(m);
            && r.c.hpos == m.c.hpos + 2
            && r.c.count == m.c.count
                 + if m.chip.planes >= 8 && m.c.vdiw == WaitingStop
                      && m.chip.plfstrt <= m.c.hpos - 2 < m.chip.plfstrt + m.chip.plflinelen then 0 else 2
  {
  }

  /** A WAIT that has just been read and has no jump to make goes into its second stage with the next cycle that it gets
      the bus for. */
  lemma WaitComes(w: World, m: Machine)
    requires Valid(m) && m.c.state == Wait1
    ensures var r, h := Body(w, m), Here(w, m);
            && (!Free(w, m) || !CanJump(w, h) ==>
                  && r.c.state == (if Free(w, m) then Wait2 else Wait1) && r.c.hpos == m.c.hpos + 2 && r.c.vpos == m.c.vpos
                  && (r.c.i1, r.c.i2, r.c.ip) == (m.c.i1, m.c.i2, m.c.ip) && r.log == m.log && r.chip == m.chip)
            && (Free(w, m) && CanJump(w, h) ==> r == Body(w, m.(c := m.c.(state := Wait1b))))
  {
    hide CantRead, Adjusted, Compare, Jump, NextCount, Vp, VCmp, HCmp, InPlayfield;
  }
}
