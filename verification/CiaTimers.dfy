/**
 What the timers of src/cia.c do for the program that uses them: how long they take, which bit of a control
 register does what, and which timer a register write reaches.
 */
module CiaTimers {

  import opened CiaEvents

  // ------------------------------------------------------------------ counting

  /** Timer A on its own clock: started, counting clocks, and not in one-shot mode. */
  predicate RunsA(c: Cia) { c.cra % 2 == 1 && c.cra / 32 % 2 == 0 && c.cra / 8 % 2 == 0 }

  /** The same for timer B. */
  predicate RunsB(c: Cia) { c.crb % 2 == 1 && c.crb / 32 % 4 == 0 && c.crb / 8 % 2 == 0 }

  /** A timer that goes round and round takes one clock more than its latch says: k rounds and j clocks after it
      was loaded it has counted down by j, and it has asked for an interrupt if k is not zero. */
  lemma {:induction false} PeriodA(c: Cia, k: nat, j: nat, n: nat)
    requires RunsA(c) && c.ta == c.la && j <= c.la && n == (c.la + 1) * k + j
    ensures var d := Clocks(c, n);
            && d.ta == c.la - j && d.la == c.la && d.cra == c.cra && (d.icrA <==> c.icrA || k > 0)
    decreases n
  {
    if n == 0 {
      NoRounds(c.la + 1, k, j);
    } else {
      if j > 0 {
        PeriodA(c, k, j - 1, n - 1);
      } else {
        OneMore(c.la + 1, k);
        PeriodA(c, k - 1, c.la, n - 1);
      }
      TickA(Clocks(c, n - 1));
      hide Clock;
    }
  }

  lemma NoRounds(x: nat, k: nat, j: nat)
    requires x > 0 && x * k + j == 0
    ensures k == 0 && j == 0
  {
  }

  lemma TickA(c: Cia)
    requires RunsA(c)
    ensures var d := Clock(c);
            && d.ta == (if c.ta == 0 then c.la else c.ta - 1) && d.la == c.la && d.cra == c.cra
            && (d.icrA <==> c.icrA || c.ta == 0)
  {
  }

  lemma {:induction false} PeriodB(c: Cia, k: nat, j: nat, n: nat)
    requires RunsB(c) && c.tb == c.lb && j <= c.lb && n == (c.lb + 1) * k + j
    ensures var d := Clocks(c, n);
            && d.tb == c.lb - j && d.lb == c.lb && d.crb == c.crb && (d.icrB <==> c.icrB || k > 0)
    decreases n
  {
    if n == 0 {
      NoRounds(c.lb + 1, k, j);
    } else {
      if j > 0 {
        PeriodB(c, k, j - 1, n - 1);
      } else {
        OneMore(c.lb + 1, k);
        PeriodB(c, k - 1, c.lb, n - 1);
      }
      TickB(Clocks(c, n - 1));
      hide Clock;
    }
  }

  lemma TickB(c: Cia)
    requires RunsB(c)
    ensures var d := Clock(c);
            && d.tb == (if c.tb == 0 then c.lb else c.tb - 1) && d.lb == c.lb && d.crb == c.crb
            && (d.icrB <==> c.icrB || c.tb == 0)
  {
    BothModes(c.crb);
  }

  lemma BothModes(cr: nat)
    ensures cr / 32 % 4 == 0 ==> cr / 32 % 4 != 2
  {
  }

  /** In one-shot mode the timer stops with its first underflow, loaded again, and stays there. */
  lemma {:induction false} OneShotA(c: Cia, n: nat)
    requires c.cra % 2 == 1 && c.cra / 32 % 2 == 0 && c.cra / 8 % 2 == 1 && c.ta >= 0
    ensures var d := Clocks(c, n);
            && d.la == c.la
            && (n <= c.ta ==> d.ta == c.ta - n && d.cra == c.cra && d.icrA == c.icrA)
            && (n > c.ta ==> d.ta == c.la && d.cra == c.cra - 1 && d.icrA)
  {
    if n > 0 {
      OneShotA(c, n - 1);
      StopA(Clocks(c, n - 1));
      EvenStops(c.cra);
    }
  }

  lemma StopA(c: Cia)
    ensures var d := Clock(c);
            && d.la == c.la
            && (c.cra % 2 == 0 ==> d.ta == c.ta && d.cra == c.cra && d.icrA == c.icrA)
            && (c.cra % 2 == 1 && c.cra / 32 % 2 == 0 && c.cra / 8 % 2 == 1 ==>
                  if c.ta == 0 then d.ta == c.la && d.cra == c.cra - 1 && d.icrA
                  else d.ta == c.ta - 1 && d.cra == c.cra && d.icrA == c.icrA)
  {
  }

  lemma EvenStops(cr: nat)
    requires cr % 2 == 1
    ensures (cr - 1) % 2 == 0
  {
  }

  lemma {:induction false} OneShotB(c: Cia, n: nat)
    requires c.crb % 2 == 1 && c.crb / 32 % 4 == 0 && c.crb / 8 % 2 == 1 && c.tb >= 0
    ensures var d := Clocks(c, n);
            && d.lb == c.lb
            && (n <= c.tb ==> d.tb == c.tb - n && d.crb == c.crb && d.icrB == c.icrB)
            && (n > c.tb ==> d.tb == c.lb && d.crb == c.crb - 1 && d.icrB)
  {
    if n > 0 {
      OneShotB(c, n - 1);
      StopB(Clocks(c, n - 1));
      EvenStops(c.crb);
    }
  }

  lemma StopB(c: Cia)
    ensures var d := Clock(c);
            && d.lb == c.lb
            && (c.crb % 2 == 0 ==> d.tb == c.tb && d.crb == c.crb && d.icrB == c.icrB)
            && (c.crb % 2 == 1 && c.crb / 32 % 4 == 0 && c.crb / 8 % 2 == 1 ==>
                  if c.tb == 0 then d.tb == c.lb && d.crb == c.crb - 1 && d.icrB
                  else d.tb == c.tb - 1 && d.crb == c.crb && d.icrB == c.icrB)
  {
  }

  /** Timer B counting the underflows of timer A, neither in one-shot mode. */
  predicate Cascaded(c: Cia) { RunsA(c) && c.crb % 2 == 1 && c.crb / 32 % 4 == 2 && c.crb / 8 % 2 == 0 }

  /** Counting down by one, and from zero back to the top. */
  function Down(top: int, n: nat): int {
    if n == 0 then top else if Down(top, n - 1) == 0 then top else Down(top, n - 1) - 1
  }

  lemma {:induction false} DownAgain(top: nat, n: nat, k: nat, m: nat)
    requires k <= top && m == (top + 1) * n + k
    ensures Down(top, m) == top - k
    decreases m
  {
    if m == 0 {
      NoRounds(top + 1, n, k);
    } else if k > 0 {
      DownAgain(top, n, k - 1, m - 1);
    } else {
      OneMore(top + 1, n);
      DownAgain(top, n - 1, top, m - 1);
    }
  }

  /** After m rounds of timer A and j clocks, timer B has counted m times. */
  lemma {:induction false} BCountsRounds(c: Cia, m: nat, j: nat, n: nat)
    requires Cascaded(c) && c.ta == c.la && c.tb == c.lb && j <= c.la && n == (c.la + 1) * m + j
    ensures var d := Clocks(c, n);
            && d.ta == c.la - j && d.tb == Down(c.lb, m) && SameSettings(c, d)
            && (d.icrB <==> c.icrB || exists i: nat :: i < m && Down(c.lb, i) == 0)
    decreases n
  {
    if n == 0 {
      NoRounds(c.la + 1, m, j);
    } else {
      if j > 0 {
        BCountsRounds(c, m, j - 1, n - 1);
      } else {
        OneMore(c.la + 1, m);
        BCountsRounds(c, m - 1, c.la, n - 1);
      }
      TickBoth(Clocks(c, n - 1));
      hide Clock;
    }
  }

  predicate SameSettings(c: Cia, d: Cia) { (d.la, d.lb, d.cra, d.crb) == (c.la, c.lb, c.cra, c.crb) }

  /** So timer B takes the product of the two periods: after r rounds of its own, k rounds of timer A and j clocks it
      has counted down by k, and it has asked for an interrupt if r is not zero. */
  lemma PeriodOfBoth(c: Cia, r: nat, k: nat, j: nat)
    requires Cascaded(c) && c.ta == c.la && c.tb == c.lb && j <= c.la && k <= c.lb
    ensures (c.la + 1) * ((c.lb + 1) * r + k) + j >= 0
    ensures var d := Clocks(c, (c.la + 1) * ((c.lb + 1) * r + k) + j);
            && d.ta == c.la - j && d.tb == c.lb - k && SameSettings(c, d) && (d.icrB <==> c.icrB || r > 0)
  {
    var m := (c.lb + 1) * r + k;
    NotBelow(c.la, m, j);
    BCountsRounds(c, m, j, (c.la + 1) * m + j);
    DownAgain(c.lb, r, k, m);
    hide Clocks, Cascaded;
    if r > 0 {
      OneMore(c.lb + 1, r);
      NotBelow(c.lb, r - 1, 0);
      DownAgain(c.lb, 0, c.lb, c.lb);
      assert c.lb < m && Down(c.lb, c.lb) == 0;
    } else {
      forall i: nat | i < m ensures Down(c.lb, i) != 0 {
        DownAgain(c.lb, 0, i, i);
      }
    }
  }

  lemma NotBelow(x: nat, m: nat, j: nat)
    ensures (x + 1) * m + j >= 0
  {
  }

  lemma OneMore(x: nat, n: nat)
    requires n > 0
    ensures x * n == x * (n - 1) + x
  {
  }

  lemma TickBoth(c: Cia)
    requires Cascaded(c)
    ensures var d := Clock(c);
            && d.ta == (if c.ta == 0 then c.la else c.ta - 1)
            && d.tb == (if c.ta != 0 then c.tb else if c.tb == 0 then c.lb else c.tb - 1)
            && (d.la, d.lb, d.cra, d.crb) == (c.la, c.lb, c.cra, c.crb)
            && (d.icrB <==> c.icrB || (c.ta == 0 && c.tb == 0))
  {
  }

  // ------------------------------------------------------------------ scheduling

  /** The distance to the next event: each timer that is counting counts one clock every five cycles, and
      needs one clock more than is left in it; a cascaded timer needs the rounds of timer A as well, cut down to an
      int.  The event is for the nearest of those that exist; negative ones count as far away. */
  lemma NextEvent(a: Cia, b: Cia, div10: int)
    requires InRange(a) && InRange(b) && 0 <= div10 < 5
    requires !(a.crb % 2 == 1 && a.crb / 32 % 4 == 2) && !(b.crb % 2 == 1 && b.crb / 32 % 4 == 2)
    ensures var onA, onB := a.cra % 2 == 1 && a.cra / 32 % 2 == 0, a.crb % 2 == 1 && a.crb / 32 % 4 == 0;
            var onC, onD := b.cra % 2 == 1 && b.cra / 32 % 2 == 0, b.crb % 2 == 1 && b.crb / 32 % 4 == 0;
            var d := Deadline(a, b, div10);
            && (AnyTime(a, b, div10) <==> onA || onB || onC || onD)
            && (onA ==> d <= 5 - div10 + 5 * a.ta) && (onB ==> d <= 5 - div10 + 5 * a.tb)
            && (onC ==> d <= 5 - div10 + 5 * b.ta) && (onD ==> d <= 5 - div10 + 5 * b.tb)
            && (onA || onB || onC || onD ==>
                  || (onA && d == 5 - div10 + 5 * a.ta) || (onB && d == 5 - div10 + 5 * a.tb)
                  || (onC && d == 5 - div10 + 5 * b.ta) || (onD && d == 5 - div10 + 5 * b.tb))
  {
  }

  /** For a cascaded timer the rounds of timer A are counted in 32 bits. */
  lemma CascadedEvent(c: Cia, div10: int)
    requires InRange(c) && 0 <= div10 < 5 && c.crb % 2 == 1 && c.crb / 32 % 4 == 2
    ensures var t, x := TimeB(c, div10), 5 - div10 + 5 * c.ta + 5 * c.la * c.tb;
            if c.cra % 2 == 1 && c.cra / 32 % 2 == 0 && (c.tb == 0 || c.cra / 8 % 2 == 0)
            then -0x8000_0000 <= t < 0x8000_0000 && (t - x) % 0x1_0000_0000 == 0
            else t == -1
  {
    assert c.la * DIV10 * c.tb == 5 * c.la * c.tb;
    ProductNonNegative(c.la, c.tb);
    hide ToInt32;
    if ClockedA(c) {
      CutIs(TimeA(c, div10) + c.la * DIV10 * c.tb);
    }
  }

  lemma CutIs(x: nat)
    ensures -0x8000_0000 <= ToInt32(x) < 0x8000_0000 && (ToInt32(x) - x) % 0x1_0000_0000 == 0
  {
    var q, r := x / 0x1_0000_0000, x % 0x1_0000_0000;
    assert x == 0x1_0000_0000 * q + r;
    Whole(if r < 0x8000_0000 then -q else -q - 1);
    assert ToInt32(x) - x == 0x1_0000_0000 * if r < 0x8000_0000 then -q else -q - 1;
  }

  lemma Whole(q: int)
    ensures 0x1_0000_0000 * q % 0x1_0000_0000 == 0
  {
  }

  // ------------------------------------------------------------------ register writes

  /** A write reaches the chip that it is for; the other one is as the update before the write has left it.  Other
      registers have no effect on the timers. */
  lemma WriteReaches(s: Sys, isA: bool, reg: int, val: nat)
    requires Wellformed(s) && val < 256
    ensures var r, u := Write(s, isA, reg, val), Update(s);
            if reg == 4 || reg == 5 || reg == 6 || reg == 7 || reg == 14 || reg == 15
            then r.assertsOk == u.assertsOk && (if isA then r.b == u.b else r.a == u.a)
            else r == s
  {
    hide Update, WriteReg, Deadline, AnyTime, Schedulable, Unsigned;
  }

  /** The timers of one of the chips. */
  function ChipOf(s: Sys, isA: bool): Cia { if isA then s.a else s.b }

  /** Both bytes of a time, low and then high, written to either chip: its own latch takes the time, and its own
      counter unless it is running and not in one-shot mode; in one-shot mode it starts.  Its other timer is as the
      update has left it, and so is the whole other chip. */
  lemma TimerALoaded(s: Sys, isA: bool, lo: nat, hi: nat)
    requires Wellformed(s) && lo < 256 && hi < 256 && Update(s).assertsOk
    ensures var u, r := Update(s), Write(Write(s, isA, 4, lo), isA, 5, hi);
            var c, d := ChipOf(u, isA), ChipOf(r, isA);
            && r.assertsOk && ChipOf(r, !isA) == ChipOf(u, !isA)
            && d.la == 256 * hi + lo
            && d.ta == (if c.cra % 2 == 1 && c.cra / 8 % 2 == 0 then c.ta else 256 * hi + lo)
            && d.cra == (if c.cra % 2 == 0 && c.cra / 8 % 2 == 1 then c.cra + 1 else c.cra)
            && (d.tb, d.lb, d.crb, d.icrA, d.icrB) == (c.tb, c.lb, c.crb, c.icrA, c.icrB)
  {
    TwoWrites(s, isA, 4, lo, 5, hi);
    BytesIntoA(ChipOf(Update(s), isA), lo, hi);
    hide Update, Write, WriteReg;
  }

  lemma BytesIntoA(c: Cia, lo: nat, hi: nat)
    requires InRange(c) && lo < 256 && hi < 256
    ensures var d, x := WriteReg(WriteReg(c, 4, lo), 5, hi), 256 * hi + lo;
            d == c.(la := x, ta := if c.cra % 2 == 1 && c.cra / 8 % 2 == 0 then c.ta else x,
                    cra := if c.cra % 2 == 0 && c.cra / 8 % 2 == 1 then c.cra + 1 else c.cra)
  {
    BytesOf(c.la, lo, hi);
  }

  lemma TimerBLoaded(s: Sys, isA: bool, lo: nat, hi: nat)
    requires Wellformed(s) && lo < 256 && hi < 256 && Update(s).assertsOk
    ensures var u, r := Update(s), Write(Write(s, isA, 6, lo), isA, 7, hi);
            var c, d := ChipOf(u, isA), ChipOf(r, isA);
            && r.assertsOk && ChipOf(r, !isA) == ChipOf(u, !isA)
            && d.lb == 256 * hi + lo
            && d.tb == (if c.crb % 2 == 1 && c.crb / 8 % 2 == 0 then c.tb else 256 * hi + lo)
            && d.crb == (if c.crb % 2 == 0 && c.crb / 8 % 2 == 1 then c.crb + 1 else c.crb)
            && (d.ta, d.la, d.cra, d.icrA, d.icrB) == (c.ta, c.la, c.cra, c.icrA, c.icrB)
  {
    TwoWrites(s, isA, 6, lo, 7, hi);
    BytesIntoB(ChipOf(Update(s), isA), lo, hi);
    hide Update, Write, WriteReg;
  }

  lemma BytesIntoB(c: Cia, lo: nat, hi: nat)
    requires InRange(c) && lo < 256 && hi < 256
    ensures var d, x := WriteReg(WriteReg(c, 6, lo), 7, hi), 256 * hi + lo;
            d == c.(lb := x, tb := if c.crb % 2 == 1 && c.crb / 8 % 2 == 0 then c.tb else x,
                    crb := if c.crb % 2 == 0 && c.crb / 8 % 2 == 1 then c.crb + 1 else c.crb)
  {
    BytesOf(c.lb, lo, hi);
  }

  /** The control registers of either chip. */
  lemma ControlWritten(s: Sys, isA: bool, val: nat)
    requires Wellformed(s) && val < 256 && Update(s).assertsOk
    ensures var u := Update(s);
            var c, d, e := ChipOf(u, isA), ChipOf(Write(s, isA, 14, val), isA), ChipOf(Write(s, isA, 15, val), isA);
            && d == c.(cra := if val / 16 % 2 == 1 then val - 16 else val, ta := if val / 16 % 2 == 1 then c.la else c.ta)
            && e == c.(crb := if val / 16 % 2 == 1 then val - 16 else val, tb := if val / 16 % 2 == 1 then c.lb else c.tb)
  {
    WriteOne(s, isA, 14, val);
    WriteOne(s, isA, 15, val);
    hide Update, Write;
  }

  /** Two writes in the same cycle. */
  lemma TwoWrites(s: Sys, isA: bool, reg1: int, val1: nat, reg2: int, val2: nat)
    requires Wellformed(s) && val1 < 256 && val2 < 256 && Update(s).assertsOk && TimerReg(reg1) && TimerReg(reg2)
    ensures var u, r := Update(s), Write(Write(s, isA, reg1, val1), isA, reg2, val2);
            && ChipOf(r, isA) == WriteReg(WriteReg(ChipOf(u, isA), reg1, val1), reg2, val2)
            && ChipOf(r, !isA) == ChipOf(u, !isA) && r.assertsOk
  {
    WriteOne(s, isA, reg1, val1);
    WriteTwo(Write(s, isA, reg1, val1), isA, reg2, val2);
    hide Update, Write, WriteReg;
  }

  /** One write, after its update. */
  lemma WriteOne(s: Sys, isA: bool, reg: int, val: nat)
    requires Wellformed(s) && val < 256 && Update(s).assertsOk && TimerReg(reg)
    ensures var u, r := Update(s), Write(s, isA, reg, val);
            && ChipOf(r, isA) == WriteReg(ChipOf(u, isA), reg, val) && ChipOf(r, !isA) == ChipOf(u, !isA)
            && r.assertsOk && r.cia.oldcycles == r.cycles
  {
    hide Update, WriteReg, Deadline, AnyTime, Schedulable, Unsigned;
  }

  /** A second write in the same cycle hands out no clocks. */
  lemma WriteTwo(s: Sys, isA: bool, reg: int, val: nat)
    requires Wellformed(s) && val < 256 && s.assertsOk && s.cia.oldcycles == s.cycles && TimerReg(reg)
    ensures var r := Write(s, isA, reg, val);
            && ChipOf(r, isA) == WriteReg(ChipOf(s, isA), reg, val) && ChipOf(r, !isA) == ChipOf(s, !isA) && r.assertsOk
  {
    NoClocks(s);
    WriteOne(s, isA, reg, val);
    hide Update, WriteReg, Write;
  }

  lemma NoClocks(s: Sys)
    requires Wellformed(s) && s.assertsOk && s.cia.oldcycles == s.cycles
    ensures var u := Update(s); u.assertsOk && u.a == s.a && u.b == s.b
  {
    assert (s.cycles - s.cia.oldcycles + s.lastdiv10) / DIV10 == 0;
    assert Count(s.a, 0) == s.a && Count(s.b, 0) == s.b;
  }

  /** After a reset both chips have their counters and latches full, stand still, and no event is due. */
  lemma ResetIs(now: int, hsync: Event)
    ensures var r := AfterReset(now, hsync);
            && r.a == Cia(4, 4, 0xFFFF, 0xFFFF, 0xFFFF, 0xFFFF, false, false) && r.b == r.a
            && r.cycles == now && r.hsync == hsync && !r.cia.active && r.div10 == 0 && r.assertsOk
  {
    var c := Cia(4, 4, 0xFFFF, 0xFFFF, 0xFFFF, 0xFFFF, false, false);
    assert !AnyTime(c, c, 0);
    hide AnyTime, Deadline, Unsigned, Schedulable;
  }

  /** Scheduling sets the event to that distance from now, and leaves the chips alone. */
  lemma EventIsSet(s: Sys)
    requires Wellformed(s) && s.assertsOk
    ensures var r := CalcTimers(s);
            && r.a == s.a && r.b == s.b && r.cycles == s.cycles && r.cia.oldcycles == s.cycles
            && r.cia.active == AnyTime(s.a, s.b, s.div10)
            && (r.cia.active ==> r.cia.evtime == s.cycles + Deadline(s.a, s.b, s.div10))
  {
    hide AnyTime, Deadline, Schedulable, Unsigned;
  }
}
