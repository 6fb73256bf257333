/**
 The event loop of src/include/events.h together with the CIA timers of src/cia.c.  The
 timers are lazy: they are only brought up to date by a register write or when the CIA
 event fires, and the asserts of CIA_update demand that this is never too late.
 */
module CiaEvents {

  const DIV10 := 5

  // ---------------------------------------------------------------------- one CIA

  /** Control registers, timers, latches and the two underflow bits of one CIA's ICR. */
  datatype Cia = Cia(cra: nat, crb: nat, ta: int, tb: int, la: nat, lb: nat, icrA: bool, icrB: bool)

  predicate Start(cr: nat) { cr % 2 == 1 }
  predicate OneShot(cr: nat) { cr / 8 % 2 == 1 }
  predicate ForceLoad(cr: nat) { cr / 16 % 2 == 1 }

  /** (cra & 0x21) == 0x01 */
  predicate ClockedA(c: Cia) { Start(c.cra) && c.cra / 32 % 2 == 0 }
  /** (crb & 0x61) == 0x01 */
  predicate ClockedB(c: Cia) { Start(c.crb) && c.crb / 32 % 4 == 0 }
  /** (crb & 0x61) == 0x41 */
  predicate CascadedB(c: Cia) { Start(c.crb) && c.crb / 32 % 4 == 2 }

  predicate InRange(c: Cia) {
    0 <= c.ta < 0x1_0000 && 0 <= c.tb < 0x1_0000 && c.la < 0x1_0000 && c.lb < 0x1_0000
  }

  /** The asserts of CIA_update for one CIA. */
  predicate AssertsHold(c: Cia, clocks: int) {
    (ClockedA(c) ==> c.ta + 1 >= clocks) && (ClockedB(c) ==> c.tb + 1 >= clocks)
  }

  /** Timer A of one CIA advanced by `clocks`, timer B with it if it is cascaded. */
  function Count(c: Cia, clocks: int): Cia {
    var ovA := ClockedA(c) && c.ta + 1 == clocks;
    var ovB := (ovA && CascadedB(c) && c.tb == 0) || (ClockedB(c) && c.tb + 1 == clocks);
    var tb := if ovA && CascadedB(c) then c.tb - 1 else if ClockedB(c) then c.tb - clocks else c.tb;
    var ta := if ClockedA(c) then c.ta - clocks else c.ta;
    Cia(if ovA && OneShot(c.cra) then c.cra - 1 else c.cra,
        if ovB && OneShot(c.crb) then c.crb - 1 else c.crb,
        if ovA then c.la else ta,
        if ovB then c.lb else tb,
        c.la, c.lb, c.icrA || ovA, c.icrB || ovB)
  }

  /** What the hardware does in one CIA clock: a timer that is pulsed at zero underflows. */
  function Clock(c: Cia): Cia {
    var underA := ClockedA(c) && c.ta == 0;
    var pulseB := ClockedB(c) || (CascadedB(c) && underA);
    var underB := pulseB && c.tb == 0;
    Cia(if underA && OneShot(c.cra) then c.cra - 1 else c.cra,
        if underB && OneShot(c.crb) then c.crb - 1 else c.crb,
        if underA then c.la else if ClockedA(c) then c.ta - 1 else c.ta,
        if underB then c.lb else if pulseB then c.tb - 1 else c.tb,
        c.la, c.lb, c.icrA || underA, c.icrB || underB)
  }

  function Clocks(c: Cia, n: nat): Cia {
    if n == 0 then c else Clock(Clocks(c, n - 1))
  }

  /** Handing out n clocks at once is the same as n single clocks, in every mode of both timers,
      whenever the asserts hold: that is what they are for. */
  lemma CountIsClocks(c: Cia, n: nat)
    requires InRange(c) && AssertsHold(c, n)
    ensures Count(c, n) == Clocks(c, n)
  {
    if n > 0 {
      NoUnderflowYet(c, n - 1);
    }
  }

  lemma {:induction false} NoUnderflowYet(c: Cia, n: nat)
    requires InRange(c) && (ClockedA(c) ==> n <= c.ta) && (ClockedB(c) ==> n <= c.tb)
    ensures Clocks(c, n) == c.(ta := if ClockedA(c) then c.ta - n else c.ta, tb := if ClockedB(c) then c.tb - n else c.tb)
  {
    if n > 0 {
      NoUnderflowYet(c, n - 1);
    }
  }

  // --------------------------------------------------------------------- deadlines

  /** Conversion of a 64-bit value to C's int. */
  function ToInt32(x: nat): int {
    var r := x % 0x1_0000_0000;
    if r < 0x8000_0000 then r else r - 0x1_0000_0000
  }

  /** ciaatimea, or -1. */
  function TimeA(c: Cia, div10: int): int {
    if ClockedA(c) then (DIV10 - div10) + DIV10 * c.ta else -1
  }

  /** ciaatimeb, or -1; for a cascaded timer the product is cut down to an int. */
  function TimeB(c: Cia, div10: int): int
    requires InRange(c) && 0 <= div10 < DIV10
  {
    if ClockedB(c) then (DIV10 - div10) + DIV10 * c.tb
    else if CascadedB(c) && TimeA(c, div10) >= 0 && (c.tb == 0 || !OneShot(c.cra))
    then ToInt32(TimeA(c, div10) + c.la * DIV10 * c.tb)
    else -1
  }

  /** Comparing as unsigned long makes a negative candidate larger than any other. */
  function Earlier(best: int, t: int): int {
    if t == -1 then best else if best == -1 || (0 <= t && (t < best || best < 0)) then t else best
  }

  function Deadline(a: Cia, b: Cia, div10: int): int
    requires InRange(a) && InRange(b) && 0 <= div10 < DIV10
  {
    Earlier(Earlier(Earlier(TimeA(a, div10), TimeB(a, div10)), TimeA(b, div10)), TimeB(b, div10))
  }

  predicate AnyTime(a: Cia, b: Cia, div10: int)
    requires InRange(a) && InRange(b) && 0 <= div10 < DIV10
  {
    TimeA(a, div10) != -1 || TimeB(a, div10) != -1 || TimeA(b, div10) != -1 || TimeB(b, div10) != -1
  }

  /** No cascaded deadline is cut down to exactly zero. */
  predicate Schedulable(a: Cia, b: Cia, div10: int)
    requires InRange(a) && InRange(b) && 0 <= div10 < DIV10
  {
    TimeB(a, div10) != 0 && TimeB(b, div10) != 0
  }

  /** The deadline of a cascaded timer that is counted for is within the range of int. */
  predicate ProductFits(c: Cia, div10: int)
    requires InRange(c) && 0 <= div10 < DIV10
  {
    CascadedB(c) && ClockedA(c) ==> TimeA(c, div10) + c.la * DIV10 * c.tb < 0x8000_0000
  }

  /** A cascade product within int range is always schedulable. */
  lemma ProductInRangeIsSchedulable(a: Cia, b: Cia, div10: int)
    requires InRange(a) && InRange(b) && 0 <= div10 < DIV10
    requires ProductFits(a, div10) && ProductFits(b, div10)
    ensures Schedulable(a, b, div10)
  {
    hide TimeB, TimeA, ProductFits;
    UncutTimeB(a, div10);
    UncutTimeB(b, div10);
  }

  lemma UncutTimeB(c: Cia, div10: int)
    requires InRange(c) && 0 <= div10 < DIV10 && ProductFits(c, div10)
    ensures TimeB(c, div10) != 0
  {
    hide ToInt32;
    if CascadedB(c) && ClockedA(c) {
      ProductNonNegative(c.la, c.tb);
      ToInt32Fits(TimeA(c, div10) + c.la * DIV10 * c.tb);
    }
  }

  lemma ToInt32Fits(x: nat)
    requires x < 0x8000_0000
    ensures ToInt32(x) == x
  {
  }

  lemma ProductNonNegative(x: nat, y: nat)
    ensures x * DIV10 * y >= 0
  {
    assert x * DIV10 >= 0;
  }

  /** The deadline never lies behind the next underflow of a timer that counts clocks. */
  lemma DeadlineCoversClocked(a: Cia, b: Cia, div10: int)
    requires InRange(a) && InRange(b) && 0 <= div10 < DIV10
    ensures var d := Deadline(a, b, div10);
            && (ClockedA(a) ==> 0 <= d <= TimeA(a, div10)) && (ClockedB(a) ==> 0 <= d <= TimeB(a, div10))
            && (ClockedA(b) ==> 0 <= d <= TimeA(b, div10)) && (ClockedB(b) ==> 0 <= d <= TimeB(b, div10))
    ensures AnyTime(a, b, div10) ==> Deadline(a, b, div10) >= 0
    ensures AnyTime(a, b, div10) ==> (Deadline(a, b, div10) > 0 <==> Schedulable(a, b, div10))
  {
    hide ToInt32;
  }

  // -------------------------------------------------------------------- the system

  datatype Event = Event(active: bool, evtime: int, oldcycles: int)

  /** Cycle counter, event table and both CIAs.  Three fields record history: the CIA clocks
      delivered since reset, whether every assert of CIA_update has held so far, and whether
      every deadline so far was schedulable. */
  datatype Sys = Sys(
    cycles: int, nextevent: int, hsync: Event, cia: Event,
    a: Cia, b: Cia, div10: int, lastdiv10: int,
    resetAt: int, clocks: int, assertsOk: bool, kept: bool)

  predicate Wellformed(s: Sys) {
    InRange(s.a) && InRange(s.b) && 0 <= s.div10 < DIV10 && 0 <= s.lastdiv10 < DIV10 && s.cia.oldcycles <= s.cycles
  }

  /** A difference of two unsigned long values. */
  function Unsigned(x: int): int { if x < 0 then x + NEVER + 1 else x }

  const NEVER := 0xFFFF_FFFF_FFFF_FFFF

  /** events_schedule: the earliest active event, as a distance from now. */
  function Schedule(s: Sys): Sys {
    var h := Unsigned(s.hsync.evtime - s.cycles);
    var c := Unsigned(s.cia.evtime - s.cycles);
    var m1 := if s.hsync.active && h < NEVER then h else NEVER;
    var m2 := if s.cia.active && c < m1 then c else m1;
    s.(nextevent := s.cycles + m2)
  }

  /** CIA_update: hands out the CIA clocks that have passed.  A failed assert stops the
      program; the state is then left as it is. */
  function Update(s: Sys): (r: Sys)
    requires Wellformed(s)
    ensures Wellformed(r)
  {
    var ccount := s.cycles - s.cia.oldcycles + s.lastdiv10;
    var clocks := ccount / DIV10;
    if !s.assertsOk then s
    else if !AssertsHold(s.a, clocks) || !AssertsHold(s.b, clocks) then s.(assertsOk := false)
    else s.(a := Count(s.a, clocks), b := Count(s.b, clocks),
            lastdiv10 := s.div10, div10 := ccount % DIV10, clocks := s.clocks + clocks)
  }

  /** CIA_calctimers: works out when the CIA event is due. */
  function CalcTimers(s: Sys): (r: Sys)
    requires Wellformed(s)
    ensures Wellformed(r) && (!s.assertsOk ==> r == s)
  {
    if !s.assertsOk then s
    else
      var act := AnyTime(s.a, s.b, s.div10);
      var ev := Event(act, if act then Deadline(s.a, s.b, s.div10) + s.cycles else s.cia.evtime, s.cycles);
      Schedule(s.(cia := ev, kept := s.kept && Schedulable(s.a, s.b, s.div10)))
  }

  /** hsync_handler, as far as it concerns events. */
  function Hsync(s: Sys): Sys {
    s.(hsync := s.hsync.(evtime := s.hsync.evtime + (s.cycles - s.hsync.oldcycles), oldcycles := s.cycles))
  }

  function LineStart(s: Sys): Sys {
    if s.hsync.active && s.hsync.evtime == s.cycles then Hsync(s) else s
  }

  /** One cycle of do_cycles_slow. */
  function Tick(s: Sys): (r: Sys)
    requires Wellformed(s)
    ensures Wellformed(r)
  {
    if !s.assertsOk then s
    else
      var t := s.(cycles := s.cycles + 1);
      if t.cycles != t.nextevent then t
      else
        var h := LineStart(t);
        var c := if h.cia.active && h.cia.evtime == h.cycles then CalcTimers(Update(h)) else h;
        if c.assertsOk then Schedule(c) else c
  }

  function Ticks(s: Sys, n: nat): (r: Sys)
    requires Wellformed(s)
    ensures Wellformed(r)
  {
    if n == 0 then s else Tick(Ticks(s, n - 1))
  }

  // ---------------------------------------------------------------- register writes

  /** The timer and control registers of one CIA (register numbers 4..7, 14 and 15). */
  predicate TimerReg(reg: int) { 4 <= reg <= 7 || reg == 14 || reg == 15 }

  function WriteReg(c: Cia, reg: int, val: nat): (r: Cia)
    requires InRange(c) && val < 256
    ensures InRange(r)
  {
    if reg == 4 then c.(la := c.la / 256 * 256 + val)
    else if reg == 5 then
      var c1 := c.(la := c.la % 256 + 256 * val);
      var c2 := if !Start(c1.cra) then c1.(ta := c1.la) else c1;
      if OneShot(c2.cra) then c2.(ta := c2.la, cra := if Start(c2.cra) then c2.cra else c2.cra + 1) else c2
    else if reg == 6 then c.(lb := c.lb / 256 * 256 + val)
    else if reg == 7 then
      var c1 := c.(lb := c.lb % 256 + 256 * val);
      var c2 := if !Start(c1.crb) then c1.(tb := c1.lb) else c1;
      if OneShot(c2.crb) then c2.(tb := c2.lb, crb := if Start(c2.crb) then c2.crb else c2.crb + 1) else c2
    else if reg == 14 then
      if ForceLoad(val) then c.(cra := val - 16, ta := c.la) else c.(cra := val)
    else if reg == 15 then
      if ForceLoad(val) then c.(crb := val - 16, tb := c.lb) else c.(crb := val)
    else c
  }

  /** The way players set timer A: the low byte and then the high byte of a time.  The latch takes it at
      once, the counter unless it is running in continuous mode, and in one-shot mode it starts.
      Timer B is left alone. */
  lemma TimerAIsLoaded(c: Cia, lo: nat, hi: nat)
    requires InRange(c) && lo < 256 && hi < 256
    ensures var r := WriteReg(WriteReg(c, 4, lo), 5, hi);
            && r.la == 256 * hi + lo && r.ta == (if Start(c.cra) && !OneShot(c.cra) then c.ta else r.la)
            && (Start(r.cra) <==> Start(c.cra) || OneShot(c.cra)) && r.cra / 2 == c.cra / 2
            && (r.tb, r.lb, r.crb, r.icrA, r.icrB) == (c.tb, c.lb, c.crb, c.icrA, c.icrB)
  {
    BytesOf(c.la, lo, hi);
    StartBit(c.cra);
  }

  lemma TimerBIsLoaded(c: Cia, lo: nat, hi: nat)
    requires InRange(c) && lo < 256 && hi < 256
    ensures var r := WriteReg(WriteReg(c, 6, lo), 7, hi);
            && r.lb == 256 * hi + lo && r.tb == (if Start(c.crb) && !OneShot(c.crb) then c.tb else r.lb)
            && (Start(r.crb) <==> Start(c.crb) || OneShot(c.crb)) && r.crb / 2 == c.crb / 2
            && (r.ta, r.la, r.cra, r.icrA, r.icrB) == (c.ta, c.la, c.cra, c.icrA, c.icrB)
  {
    BytesOf(c.lb, lo, hi);
    StartBit(c.crb);
  }

  /** A control register never keeps the force-load bit; the bit reloads the timer from its latch. */
  lemma ForceLoadIsAStrobe(c: Cia, val: nat)
    requires InRange(c) && val < 256
    ensures var a, b := WriteReg(c, 14, val), WriteReg(c, 15, val);
            && !ForceLoad(a.cra) && !ForceLoad(b.crb)
            && a.cra % 16 == b.crb % 16 == val % 16 && a.cra / 32 == b.crb / 32 == val / 32
            && (a.ta, a.tb) == (if ForceLoad(val) then c.la else c.ta, c.tb)
            && (b.ta, b.tb) == (c.ta, if ForceLoad(val) then c.lb else c.tb)
  {
    if ForceLoad(val) {
      LoadBit(val);
    }
  }

  lemma LoadBit(cr: nat)
    requires ForceLoad(cr)
    ensures cr >= 16 && !ForceLoad(cr - 16) && (cr - 16) % 16 == cr % 16 && (cr - 16) / 32 == cr / 32
  {
    var k := cr / 16;
    assert k == 2 * (k / 2) + 1;
    OneSixteenLess(cr);
    InHalf(cr, k / 2);
    LastBit(k);
  }

  lemma OneSixteenLess(cr: nat)
    requires cr / 16 % 2 == 1
    ensures cr >= 16 && (cr - 16) / 16 == cr / 16 - 1 && (cr - 16) % 16 == cr % 16
            && 16 * (cr / 16) <= cr < 16 * (cr / 16) + 16
  {
  }

  lemma InHalf(cr: nat, j: nat)
    requires 32 * j + 16 <= cr < 32 * j + 32
    ensures cr / 32 == j && (cr - 16) / 32 == j
  {
  }

  lemma LastBit(k: nat)
    requires k % 2 == 1
    ensures (k - 1) % 2 == 0
  {
  }

  lemma BytesOf(was: nat, lo: nat, hi: nat)
    requires lo < 256
    ensures (was / 256 * 256 + lo) % 256 + 256 * hi == 256 * hi + lo
  {
  }

  lemma StartBit(cr: nat)
    ensures !Start(cr) ==> Start(cr + 1) && (cr + 1) / 2 == cr / 2 && (OneShot(cr + 1) <==> OneShot(cr))
  {
    if !Start(cr) {
      Odd(cr);
      assert cr == 2 * (cr / 2);
      EvenBelow(cr / 2, cr / 8);
      InEighth(cr + 1, cr / 8);
    }
  }

  lemma Odd(cr: nat)
    requires cr % 2 == 0
    ensures (cr + 1) % 2 == 1 && (cr + 1) / 2 == cr / 2
  {
  }

  lemma EvenBelow(half: nat, q: nat)
    requires 2 * half < 8 * q + 8
    ensures 2 * half + 1 < 8 * q + 8
  {
  }

  lemma InEighth(cr: nat, q: nat)
    requires 8 * q <= cr < 8 * q + 8
    ensures cr / 8 == q
  {
  }

  /** WriteCIAA / WriteCIAB: timers are brought up to date, changed, and rescheduled. */
  function Write(s: Sys, isA: bool, reg: int, val: nat): (r: Sys)
    requires Wellformed(s) && val < 256
    ensures Wellformed(r)
  {
    if !TimerReg(reg) then s
    else
      var u := Update(s);
      if !u.assertsOk then u
      else CalcTimers(if isA then u.(a := WriteReg(u.a, reg, val)) else u.(b := WriteReg(u.b, reg, val)))
  }

  // --------------------------------------------------------------------- invariant

  /** The event is due no later than the next underflow of a clocked timer. */
  predicate Covers(c: Cia, div10: int, e: Event) {
    && (ClockedA(c) ==> e.active && e.evtime - e.oldcycles <= (DIV10 - div10) + DIV10 * c.ta)
    && (ClockedB(c) ==> e.active && e.evtime - e.oldcycles <= (DIV10 - div10) + DIV10 * c.tb)
  }

  /** No event is overdue and the CIA event covers every clocked timer. */
  predicate OnTime(s: Sys) {
    && s.assertsOk
    && s.cycles < s.hsync.evtime && s.hsync.oldcycles < s.hsync.evtime
    && (s.cia.active ==> s.cycles < s.cia.evtime)
    && Covers(s.a, s.div10, s.cia) && Covers(s.b, s.div10, s.cia)
  }

  predicate Scheduled(s: Sys) {
    s.cycles < s.nextevent <= s.hsync.evtime && (s.cia.active ==> s.nextevent <= s.cia.evtime)
  }

  /** Cycles elapsed since reset at the last update are accounted for exactly. */
  predicate Conserved(s: Sys) {
    s.assertsOk ==> DIV10 * s.clocks + s.div10 + s.lastdiv10 == s.cia.oldcycles - s.resetAt
  }

  predicate Inv(s: Sys) {
    && Wellformed(s) && s.hsync.active && Conserved(s)
    && s.hsync.oldcycles <= s.cycles && s.hsync.evtime - s.hsync.oldcycles < NEVER
    && (s.kept ==> OnTime(s) && Scheduled(s))
  }

  /** An update that comes no later than the event finds every assert true. */
  lemma UpdateInTime(s: Sys)
    requires Wellformed(s) && s.assertsOk && (s.cia.active ==> s.cycles <= s.cia.evtime)
    requires Covers(s.a, s.div10, s.cia) && Covers(s.b, s.div10, s.cia)
    ensures Update(s).assertsOk
  {
    var ccount := s.cycles - s.cia.oldcycles + s.lastdiv10;
    ClocksBound(s.a, s.div10, s.cia, s.cycles, s.lastdiv10);
    ClocksBound(s.b, s.div10, s.cia, s.cycles, s.lastdiv10);
  }

  lemma ClocksBound(c: Cia, div10: int, e: Event, now: int, last: int)
    requires InRange(c) && Covers(c, div10, e) && (e.active ==> now <= e.evtime)
    requires 0 <= div10 < DIV10 && 0 <= last < DIV10
    ensures AssertsHold(c, (now - e.oldcycles + last) / DIV10)
  {
  }

  lemma UpdateConserves(s: Sys)
    requires Wellformed(s) && Conserved(s)
    ensures var r := Update(s);
            r.assertsOk ==> DIV10 * r.clocks + r.div10 + r.lastdiv10 == r.cycles - r.resetAt
  {
    hide Count;
  }

  /** Rescheduling after an update establishes the invariant. */
  lemma CalcEstablishes(s: Sys)
    requires Wellformed(s) && s.assertsOk && s.hsync.active && s.hsync.oldcycles <= s.cycles
             && s.hsync.evtime - s.hsync.oldcycles < NEVER
    requires DIV10 * s.clocks + s.div10 + s.lastdiv10 == s.cycles - s.resetAt
    requires s.kept ==> s.cycles < s.hsync.evtime && s.hsync.oldcycles < s.hsync.evtime
    ensures Inv(CalcTimers(s))
  {
    hide Deadline, Schedulable, ToInt32, Schedule;
    DeadlineCoversClocked(s.a, s.b, s.div10);
    CalcSchedules(s);
  }

  lemma CalcSchedules(s: Sys)
    requires Wellformed(s) && s.assertsOk && s.hsync.active && s.hsync.oldcycles <= s.cycles
             && s.hsync.evtime - s.hsync.oldcycles < NEVER
    requires s.kept ==> s.cycles < s.hsync.evtime
    ensures var r := CalcTimers(s);
            && r == s.(cia := r.cia, kept := s.kept && Schedulable(s.a, s.b, s.div10), nextevent := r.nextevent)
            && r.cia.active == AnyTime(s.a, s.b, s.div10) && r.cia.oldcycles == s.cycles
            && (r.cia.active ==> r.cia.evtime == s.cycles + Deadline(s.a, s.b, s.div10))
            && (r.kept ==> Scheduled(r))
  {
    hide Deadline, AnyTime, Schedulable;
    DeadlineCoversClocked(s.a, s.b, s.div10);
  }

  /** Every register write keeps the invariant. */
  lemma WriteKeeps(s: Sys, isA: bool, reg: int, val: nat)
    requires Inv(s) && val < 256
    ensures Inv(Write(s, isA, reg, val))
  {
    hide WriteReg, CalcTimers, Count;
    if TimerReg(reg) {
      UpdateConserves(s);
      if s.kept {
        UpdateInTime(s);
      }
      var u := Update(s);
      if u.assertsOk {
        CalcEstablishes(if isA then u.(a := WriteReg(u.a, reg, val)) else u.(b := WriteReg(u.b, reg, val)));
      }
    }
  }

  /** The handlers that run when the cycle counter reaches the next event keep it. */
  lemma TickKeeps(s: Sys)
    requires Inv(s)
    ensures Inv(Tick(s))
  {
    hide Update, CalcTimers, Count, Schedule, Covers;
    if s.assertsOk {
      var t := s.(cycles := s.cycles + 1);
      if t.cycles == t.nextevent {
        var h := LineStart(t);
        if h.cia.active && h.cia.evtime == h.cycles {
          UpdateConserves(h);
          UpdateFrame(h);
          if h.kept {
            UpdateInTime(h);
          }
          if Update(h).assertsOk {
            CalcEstablishes(Update(h));
            Reschedule(CalcTimers(Update(h)));
          }
        } else {
          Reschedule(h);
        }
      }
    }
  }

  lemma UpdateFrame(s: Sys)
    requires Wellformed(s)
    ensures var u := Update(s);
            u == s.(a := u.a, b := u.b, div10 := u.div10, lastdiv10 := u.lastdiv10, clocks := u.clocks,
                    assertsOk := u.assertsOk)
  {
  }

  /** Scheduling again changes nothing but nextevent. */
  lemma Reschedule(s: Sys)
    requires s.hsync.active && s.hsync.oldcycles <= s.cycles && s.hsync.evtime - s.hsync.oldcycles < NEVER
    requires s.kept ==> s.cycles < s.hsync.evtime && (s.cia.active ==> s.cycles < s.cia.evtime)
    ensures Schedule(s) == s.(nextevent := Schedule(s).nextevent)
    ensures s.kept ==> Scheduled(Schedule(s))
  {
  }

  lemma {:induction false} TicksKeep(s: Sys, n: nat)
    requires Inv(s)
    ensures Inv(Ticks(s, n))
  {
    assert Wellformed(s);
    hide Inv, Tick;
    if n == 0 {
    } else {
      TicksKeep(s, n - 1);
      TickKeeps(Ticks(s, n - 1));
    }
  }

  // ------------------------------------------------------------------- whole runs

  datatype Op = Cycles(n: nat) | Reg(isA: bool, reg: int, val: nat)

  predicate OpOk(op: Op) { op.Reg? ==> op.val < 256 }

  function Do(s: Sys, op: Op): (r: Sys)
    requires Wellformed(s) && OpOk(op)
    ensures Wellformed(r)
  {
    match op
    case Cycles(n) => Ticks(s, n)
    case Reg(isA, reg, val) => Write(s, isA, reg, val)
  }

  function Run(s: Sys, ops: seq<Op>): (r: Sys)
    requires Wellformed(s) && forall op :: op in ops ==> OpOk(op)
    ensures Wellformed(r)
  {
    if ops == [] then s else Do(Run(s, ops[..|ops| - 1]), ops[|ops| - 1])
  }

  /** CIA_reset at a time when the hsync event is in place. */
  function AfterReset(now: int, hsync: Event): (r: Sys)
    ensures Wellformed(r)
  {
    var c := Cia(4, 4, 0xFFFF, 0xFFFF, 0xFFFF, 0xFFFF, false, false);
    CalcTimers(Sys(now, now, hsync, Event(false, 0, now), c, c, 0, 0, now, 0, true, true))
  }

  predicate HsyncReady(now: int, hsync: Event) {
    hsync.active && hsync.oldcycles <= now < hsync.evtime && hsync.evtime - hsync.oldcycles < NEVER
  }

  lemma {:induction false} RunKeeps(s: Sys, ops: seq<Op>)
    requires Inv(s) && forall op :: op in ops ==> OpOk(op)
    ensures Inv(Run(s, ops))
  {
    assert Wellformed(s);
    hide Inv, Write, Ticks;
    if ops == [] {
    } else {
      var rest := ops[..|ops| - 1];
      RunKeeps(s, rest);
      assert OpOk(ops[|ops| - 1]);
      match ops[|ops| - 1] {
        case Cycles(n) => TicksKeep(Run(s, rest), n);
        case Reg(isA, reg, val) => WriteKeeps(Run(s, rest), isA, reg, val);
      }
    }
  }

  /** Over any run of cycles and register writes from reset: no assert of CIA_update fires as
      long as no deadline was cut down to zero, and then no active event is ever overdue. */
  lemma NoAssertFires(now: int, hsync: Event, ops: seq<Op>)
    requires HsyncReady(now, hsync) && forall op :: op in ops ==> OpOk(op)
    ensures var r := Run(AfterReset(now, hsync), ops);
            r.kept ==>
              r.assertsOk && r.cycles < r.hsync.evtime && (r.cia.active ==> r.cycles < r.cia.evtime)
  {
    ResetIsInv(now, hsync);
    RunKeeps(AfterReset(now, hsync), ops);
  }

  /** If the timers have been scheduled in this cycle, both cascade products were within int range. */
  predicate FitsHere(s: Sys)
    requires Wellformed(s)
  {
    s.cia.oldcycles == s.cycles ==> ProductFits(s.a, s.div10) && ProductFits(s.b, s.div10)
  }

  /** So it was whenever they were scheduled in the course of a run. */
  predicate AlwaysFits(s: Sys, ops: seq<Op>)
    requires Wellformed(s) && forall op :: op in ops ==> OpOk(op)
  {
    if ops == [] then FitsHere(s)
    else
      var before, op := Run(s, ops[..|ops| - 1]), ops[|ops| - 1];
      && AlwaysFits(s, ops[..|ops| - 1])
      && (if op.Cycles? then forall k: nat :: k <= op.n ==> FitsHere(Ticks(before, k)) else FitsHere(Do(before, op)))
  }

  /** So no assert fires and no event is overdue in any run from reset in which the cascade products were
      within int range whenever the timers were scheduled. */
  lemma ProductsInRangeRun(now: int, hsync: Event, ops: seq<Op>)
    requires HsyncReady(now, hsync) && (forall op :: op in ops ==> OpOk(op)) && AlwaysFits(AfterReset(now, hsync), ops)
    ensures var r := Run(AfterReset(now, hsync), ops);
            r.assertsOk && r.cycles < r.hsync.evtime && (r.cia.active ==> r.cycles < r.cia.evtime)
  {
    ResetIsKept(now, hsync);
    hide AfterReset, AlwaysFits, Run, HsyncReady;
    FittingRunIsKept(AfterReset(now, hsync), ops);
    NoAssertFires(now, hsync, ops);
  }

  lemma ResetIsKept(now: int, hsync: Event)
    ensures AfterReset(now, hsync).kept
  {
    var c := Cia(4, 4, 0xFFFF, 0xFFFF, 0xFFFF, 0xFFFF, false, false);
    assert !ClockedA(c) && Schedulable(c, c, 0);
    hide Schedulable, Deadline, AnyTime, Unsigned;
  }

  lemma {:induction false} FittingRunIsKept(s: Sys, ops: seq<Op>)
    requires Wellformed(s) && s.kept && (forall op :: op in ops ==> OpOk(op)) && AlwaysFits(s, ops)
    ensures Run(s, ops).kept
  {
    hide Write, Ticks, FitsHere, Wellformed;
    if ops != [] {
      var rest, op := ops[..|ops| - 1], ops[|ops| - 1];
      FittingRunIsKept(s, rest);
      assert OpOk(op);
      match op {
        case Cycles(n) => FittingTicksAreKept(Run(s, rest), n);
        case Reg(isA, reg, val) => FittingWriteIsKept(Run(s, rest), isA, reg, val);
      }
    }
  }

  lemma {:induction false} FittingTicksAreKept(s: Sys, n: nat)
    requires Wellformed(s) && s.kept && forall k: nat :: k <= n ==> FitsHere(Ticks(s, k))
    ensures Ticks(s, n).kept
  {
    hide Tick, FitsHere, Wellformed;
    if n > 0 {
      FittingTicksAreKept(s, n - 1);
      assert FitsHere(Ticks(s, n));
      FittingTickIsKept(Ticks(s, n - 1));
    }
  }

  lemma FittingTickIsKept(s: Sys)
    requires Wellformed(s) && s.kept && FitsHere(Tick(s))
    ensures Tick(s).kept
  {
    var h := LineStart(s.(cycles := s.cycles + 1));
    if s.assertsOk && s.cycles + 1 == s.nextevent && h.cia.active && h.cia.evtime == h.cycles && Update(h).assertsOk {
      var u := Update(h);
      UpdateFrame(h);
      hide Update, Deadline, AnyTime, Schedulable, ProductFits, Unsigned;
      assert FitsHere(CalcTimers(u));
      FittingCalcIsKept(u);
    } else {
      UpdateFrame(h);
      hide Update, Deadline, AnyTime, Schedulable, Unsigned;
    }
  }

  lemma FittingCalcIsKept(s: Sys)
    requires Wellformed(s) && s.kept && s.assertsOk && FitsHere(CalcTimers(s))
    ensures CalcTimers(s).kept
  {
    hide Deadline, AnyTime, Schedulable, ProductFits, Unsigned;
    ProductInRangeIsSchedulable(s.a, s.b, s.div10);
  }

  lemma FittingWriteIsKept(s: Sys, isA: bool, reg: int, val: nat)
    requires Wellformed(s) && s.kept && val < 256 && FitsHere(Write(s, isA, reg, val))
    ensures Write(s, isA, reg, val).kept
  {
    UpdateFrame(s);
    hide Update, CalcTimers, FitsHere, WriteReg;
    var u := Update(s);
    if TimerReg(reg) && u.assertsOk {
      FittingCalcIsKept(if isA then u.(a := WriteReg(u.a, reg, val)) else u.(b := WriteReg(u.b, reg, val)));
    }
  }

  lemma ResetIsInv(now: int, hsync: Event)
    requires HsyncReady(now, hsync)
    ensures Inv(AfterReset(now, hsync))
  {
    var c := Cia(4, 4, 0xFFFF, 0xFFFF, 0xFFFF, 0xFFFF, false, false);
    CalcEstablishes(Sys(now, now, hsync, Event(false, 0, now), c, c, 0, 0, now, 0, true, true));
  }

  /** At the last update the cycles elapsed since reset are exactly five per CIA clock handed
      out plus the two carried remainders; so the clocks handed out never run ahead of the
      cycle counter and are never more than one clock behind. */
  lemma CyclesAreConserved(now: int, hsync: Event, ops: seq<Op>)
    requires HsyncReady(now, hsync) && forall op :: op in ops ==> OpOk(op)
    ensures var r := Run(AfterReset(now, hsync), ops);
            r.assertsOk ==>
              && DIV10 * r.clocks + r.div10 + r.lastdiv10 == r.cia.oldcycles - r.resetAt
              && r.clocks <= (r.cia.oldcycles - r.resetAt) / DIV10 <= r.clocks + 1
  {
    ResetIsInv(now, hsync);
    RunKeeps(AfterReset(now, hsync), ops);
  }

  // ---------------------------------------------------------- events fire on time

  /** A tick that finds the CIA event not yet due leaves the timers and the event alone. */
  lemma TickBeforeDue(s: Sys)
    requires Wellformed(s) && s.assertsOk && s.cycles + 1 != s.cia.evtime
    ensures var r := Tick(s);
            r == s.(cycles := s.cycles + 1, hsync := r.hsync, nextevent := r.nextevent)
  {
    hide Update, CalcTimers;
  }

  /** A tick that brings the counter to the due CIA event hands both chips every clock since
      the last update, whatever the other handler does first. */
  lemma TickAtDue(s: Sys)
    requires Inv(s) && s.kept && s.cia.active && s.cycles + 1 == s.cia.evtime
    ensures var r := Tick(s);
            var clocks := (s.cia.evtime - s.cia.oldcycles + s.lastdiv10) / DIV10;
            && r.cia.oldcycles == s.cia.evtime && r.clocks == s.clocks + clocks
            && r.a == Count(s.a, clocks) && r.b == Count(s.b, clocks)
  {
    hide Deadline, Schedulable, Count, Covers;
    UpdateInTime(LineStart(s.(cycles := s.cycles + 1)));
  }

  /** Until it is due the CIA event, the timers and the remainders are left alone; exactly at
      its evtime the handler runs. */
  lemma {:induction false} CiaFiresExactly(s: Sys, n: nat)
    requires Inv(s) && s.kept && s.cia.active && n <= s.cia.evtime - s.cycles
    ensures var r := Ticks(s, n);
            if n < s.cia.evtime - s.cycles
            then r == s.(cycles := s.cycles + n, hsync := r.hsync, nextevent := r.nextevent)
            else r.cycles == r.cia.oldcycles == s.cia.evtime
  {
    hide Tick, Covers;
    if n == 0 {
    } else {
      CiaFiresExactly(s, n - 1);
      TicksKeep(s, n - 1);
      var m := Ticks(s, n - 1);
      if n < s.cia.evtime - s.cycles {
        TickBeforeDue(m);
      } else {
        TickAtDue(m);
        TickCounts(m);
      }
    }
  }

  lemma TickCounts(s: Sys)
    requires Wellformed(s) && s.assertsOk
    ensures Tick(s).cycles == s.cycles + 1
  {
    hide Count, Deadline, Schedulable;
    UpdateFrame(s.(cycles := s.cycles + 1));
    UpdateFrame(Hsync(s.(cycles := s.cycles + 1)));
  }

  /** With the next event out of reach, or already passed over, ticking only counts. */
  lemma {:induction false} Quiet(s: Sys, n: nat)
    requires Wellformed(s) && s.assertsOk
    requires s.nextevent <= s.cycles || s.cycles + n < s.nextevent
    ensures Ticks(s, n) == s.(cycles := s.cycles + n)
  {
    hide Update, CalcTimers;
    if n == 0 {
    } else {
      Quiet(s, n - 1);
    }
  }

  /** After CIA_calctimers with an active event, CIA_handler ever runs again, the program left
      to itself, exactly when no cascaded deadline was cut down to zero. */
  lemma HandlerRunsIffSchedulable(s: Sys)
    requires Wellformed(s) && s.assertsOk && s.kept && s.hsync.active
    requires s.hsync.oldcycles <= s.cycles < s.hsync.evtime && s.hsync.evtime - s.hsync.oldcycles < NEVER
    requires DIV10 * s.clocks + s.div10 + s.lastdiv10 == s.cycles - s.resetAt
    requires AnyTime(s.a, s.b, s.div10)
    ensures (exists n: nat :: Ticks(CalcTimers(s), n).cia.oldcycles > s.cycles) <==> Schedulable(s.a, s.b, s.div10)
  {
    CalcEstablishes(s);
    CalcSchedules(s);
    DeadlineCoversClocked(s.a, s.b, s.div10);
    hide Update, CalcTimers, Deadline, AnyTime, Schedulable, Tick, Covers;
    var r := CalcTimers(s);
    if Schedulable(s.a, s.b, s.div10) {
      CiaFiresExactly(r, r.cia.evtime - r.cycles);
    } else {
      LostEvent(s);
      forall n: nat ensures Ticks(r, n).cia.oldcycles <= s.cycles {
        Quiet(r, n);
      }
    }
  }

  lemma LostEvent(s: Sys)
    requires Wellformed(s) && s.assertsOk && s.cycles <= s.hsync.evtime
    requires AnyTime(s.a, s.b, s.div10) && !Schedulable(s.a, s.b, s.div10)
    ensures CalcTimers(s).nextevent == s.cycles
  {
    hide AnyTime, Schedulable, Deadline;
    DeadlineIsZero(s.a, s.b, s.div10);
  }

  lemma DeadlineIsZero(a: Cia, b: Cia, div10: int)
    requires InRange(a) && InRange(b) && 0 <= div10 < DIV10
    requires AnyTime(a, b, div10) && !Schedulable(a, b, div10)
    ensures Deadline(a, b, div10) == 0
  {
    DeadlineCoversClocked(a, b, div10);
    hide ToInt32;
  }

  /** Some timer that counts clocks cannot take so many. */
  predicate Overrun(c: Cia, clocks: int) {
    (ClockedA(c) && c.ta + 1 < clocks) || (ClockedB(c) && c.tb + 1 < clocks)
  }

  /** A timer that counts clocks and has run out n cycles from now, with a clock to spare. */
  predicate LongOver(c: Cia, n: nat) {
    (ClockedA(c) && n >= DIV10 * (c.ta + 2)) || (ClockedB(c) && n >= DIV10 * (c.tb + 2))
  }

  /** Once an event is lost, the next update fails exactly when it comes too late for some timer of
      either CIA; in the end it does for every timer that counts clocks. */
  lemma LostEventFails(s: Sys, n: nat)
    requires Wellformed(s) && s.assertsOk && s.nextevent == s.cycles
    ensures var clocks := (s.cycles + n - s.cia.oldcycles + s.lastdiv10) / DIV10;
            !Update(Ticks(s, n)).assertsOk <==> Overrun(s.a, clocks) || Overrun(s.b, clocks)
    ensures LongOver(s.a, n) || LongOver(s.b, n) ==> !Update(Ticks(s, n)).assertsOk
  {
    Quiet(s, n);
    hide Count;
  }

  /** n cycles after s: the line length is the same, and the current line, a whole number of lines after
      that of s, is the one that the counter is in. */
  predicate InLine(s: Sys, r: Sys, n: nat) {
    var line := s.hsync.evtime - s.hsync.oldcycles;
    && s.kept && line > 0 && r.cycles == s.cycles + n
    && r.hsync.oldcycles <= r.cycles < r.hsync.evtime
    && r.hsync.evtime - r.hsync.oldcycles == line
    && (r.hsync.evtime - s.hsync.evtime) % line == 0
  }

  /** hsync_handler keeps a fixed line length with no drift, after any stretch without a lost event. */
  lemma {:induction false} HsyncIsPeriodic(s: Sys, n: nat)
    requires Inv(s) && Ticks(s, n).kept
    ensures InLine(s, Ticks(s, n), n)
  {
    hide *;
    if n == 0 {
      TicksUnfold(s, 0);
      LineNow(s);
    } else {
      LastTick(s, n);
      HsyncIsPeriodic(s, n - 1);
      NextLine(s, Ticks(s, n - 1), Ticks(s, n), n);
    }
  }

  lemma LastTick(s: Sys, n: nat)
    requires n > 0 && Inv(s) && Ticks(s, n).kept
    ensures Wellformed(s) && Ticks(s, n - 1).kept && OneCycleOn(Ticks(s, n - 1), Ticks(s, n))
  {
    TicksUnfold(s, n);
    TicksKeep(s, n - 1);
    hide *;
    TickHsync(Ticks(s, n - 1));
  }

  lemma TicksUnfold(s: Sys, n: nat)
    requires Inv(s)
    ensures Ticks(s, n) == if n == 0 then s else Tick(Ticks(s, n - 1))
  {
    hide Tick;
  }

  /** One cycle later, with the next line scheduled when this one has ended. */
  predicate OneCycleOn(s: Sys, r: Sys) {
    && r.cycles == s.cycles + 1
    && r.hsync == if s.cycles + 1 == s.hsync.evtime
                  then Event(true, 2 * s.hsync.evtime - s.hsync.oldcycles, s.hsync.evtime)
                  else s.hsync
  }

  lemma NextLine(s: Sys, m: Sys, r: Sys, n: nat)
    requires n > 0 && InLine(s, m, n - 1) && OneCycleOn(m, r)
    ensures InLine(s, r, n)
  {
    if m.cycles + 1 == m.hsync.evtime {
      AddOneLine(m.hsync.evtime - s.hsync.evtime, s.hsync.evtime - s.hsync.oldcycles);
    }
  }

  lemma LineNow(s: Sys)
    requires Inv(s) && s.kept
    ensures InLine(s, s, 0)
  {
    assert s.hsync.oldcycles <= s.cycles < s.hsync.evtime;
    hide Inv;
  }

  lemma AddOneLine(x: int, line: int)
    requires line > 0 && x % line == 0
    ensures (x + line) % line == 0
  {
    var d := x / line + 1 - (x + line) / line;
    assert (x + line) % line == line * d by {
      assert x == line * (x / line) + x % line;
      assert x + line == line * ((x + line) / line) + (x + line) % line;
    }
    assert d > 0 ==> line * d >= line;
    assert d < 0 ==> line * d <= -line;
  }

  lemma TickHsync(s: Sys)
    requires Inv(s) && Tick(s).kept
    ensures var r := Tick(s);
            s.kept && OneCycleOn(s, r)
  {
    hide Count, Deadline, Schedulable, Covers;
    UpdateFrame(s.(cycles := s.cycles + 1));
    UpdateFrame(Hsync(s.(cycles := s.cycles + 1)));
  }

  // ------------------------------------------------------------- a run that fails

  /** A write with no time since the last one passes no clocks and swaps the remainders. */
  lemma WriteAtOnce(s: Sys, reg: int, val: nat)
    requires Wellformed(s) && s.assertsOk && s.cia.oldcycles == s.cycles && TimerReg(reg) && val < 256
    ensures var r := Write(s, true, reg, val);
            && r.assertsOk && r.cycles == r.cia.oldcycles == s.cycles
            && r.a == WriteReg(s.a, reg, val) && r.b == s.b
            && r.div10 == s.lastdiv10 && r.lastdiv10 == s.div10
            && r.hsync == s.hsync && r.kept == (s.kept && Schedulable(r.a, r.b, r.div10))
            && (s.cycles <= s.hsync.evtime && AnyTime(r.a, r.b, r.div10) && !Schedulable(r.a, r.b, r.div10)
                ==> r.nextevent == r.cycles)
  {
    hide WriteReg, Deadline, Schedulable, AnyTime;
    var u := Update(s);
    assert u.a == s.a && u.b == s.b;
    var w := u.(a := WriteReg(u.a, reg, val));
    if s.cycles <= s.hsync.evtime && AnyTime(w.a, w.b, w.div10) && !Schedulable(w.a, w.b, w.div10) {
      LostEvent(w);
    }
  }

  /** State of the system between two writes of the setup. */
  predicate At(s: Sys, a: Cia, div10: int, lastdiv10: int) {
    && Wellformed(s) && s.assertsOk && s.cia.oldcycles == s.cycles && s.a == a
    && s.div10 == div10 && s.lastdiv10 == lastdiv10
  }

  /** A CIA whose timers have not underflowed yet. */
  function Chip(cra: nat, crb: nat, ta: int, tb: int, la: nat, lb: nat): Cia {
    Cia(cra, crb, ta, tb, la, lb, false, false)
  }

  /** Stopped timers: B is loaded with 0x3333 = 13107 and A with 0x6666 = 26214. */
  function LoadTimers(s: Sys): (r: Sys)
    requires Wellformed(s)
    ensures Wellformed(r)
  {
    Write(Write(Write(Write(s, true, 6, 0x33), true, 7, 0x33), true, 4, 0x66), true, 5, 0x66)
  }

  /** B counts A, A is started, and then A's latch is set to 0xFFFF = 65535. */
  function StartTimers(s: Sys): (r: Sys)
    requires Wellformed(s)
    ensures Wellformed(r)
  {
    Write(Write(Write(Write(s, true, 15, 0x41), true, 14, 0x01), true, 4, 0xFF), true, 5, 0xFF)
  }

  lemma TimersLoaded(s: Sys)
    requires At(s, Chip(0, 4, 0xFFFF, 0xFFFF, 0xFFFF, 0xFFFF), 4, 0)
    ensures var r := LoadTimers(s);
            At(r, Chip(0, 4, 0x6666, 0x3333, 0x6666, 0x3333), 4, 0) && r.cycles == s.cycles && r.hsync == s.hsync
  {
    hide Write, Schedulable, AnyTime;
    WriteAtOnce(s, 6, 0x33);
    var s1 := Write(s, true, 6, 0x33);
    WriteAtOnce(s1, 7, 0x33);
    var s2 := Write(s1, true, 7, 0x33);
    WriteAtOnce(s2, 4, 0x66);
    WriteAtOnce(Write(s2, true, 4, 0x66), 5, 0x66);
  }

  lemma TimersStarted(s: Sys)
    requires At(s, Chip(0, 4, 0x6666, 0x3333, 0x6666, 0x3333), 4, 0) && s.cycles <= s.hsync.evtime
    ensures var r := StartTimers(s);
            && At(r, Chip(0x01, 0x41, 26214, 13107, 0xFFFF, 0x3333), 4, 0)
            && !r.kept && r.nextevent == r.cycles == s.cycles
  {
    hide Write, Schedulable, AnyTime;
    WriteAtOnce(s, 15, 0x41);
    var s1 := Write(s, true, 15, 0x41);
    WriteAtOnce(s1, 14, 0x01);
    var s2 := Write(s1, true, 14, 0x01);
    WriteAtOnce(s2, 4, 0xFF);
    var s3 := Write(s2, true, 4, 0xFF);
    WriteAtOnce(s3, 5, 0xFF);
    CutToZero(Write(s3, true, 5, 0xFF).b);
  }

  /** The deadline that is cut down to zero: 1 + 5 * (26214 + 65535 * 13107) is 2 to the 32. */
  lemma CutToZero(b: Cia)
    requires InRange(b)
    ensures var a := Chip(0x01, 0x41, 26214, 13107, 0xFFFF, 0x3333);
            AnyTime(a, b, 4) && !Schedulable(a, b, 4) && ClockedA(a)
  {
    var a := Chip(0x01, 0x41, 26214, 13107, 0xFFFF, 0x3333);
    assert TimeA(a, 4) + a.la * DIV10 * a.tb == 0x1_0000_0000;
  }

  /** So the condition is needed: four cycles and nine writes after reset the CIA event is lost,
      and once timer A has run out unseen, a further write makes an assert of CIA_update fail. */
  lemma CutDeadlineMakesAssertFail(now: int, hsync: Event)
    requires HsyncReady(now, hsync) && now + 4 < hsync.evtime
    ensures var s := StartTimers(LoadTimers(Write(Ticks(AfterReset(now, hsync), 4), true, 14, 0)));
            && s.assertsOk && !s.kept
            && !Write(Ticks(s, 5 * 26216), true, 4, 0).assertsOk
  {
    hide Update, CalcTimers, Schedulable, AnyTime, LoadTimers, StartTimers, WriteReg;
    var r := AfterReset(now, hsync);
    ResetState(now, hsync);
    Quiet(r, 4);
    var s0 := Ticks(r, 4);
    FirstWrite(s0);
    var s1 := Write(s0, true, 14, 0);
    TimersLoaded(s1);
    TimersStarted(LoadTimers(s1));
    LostEventFails(StartTimers(LoadTimers(s1)), 5 * 26216);
  }

  lemma ResetState(now: int, hsync: Event)
    requires HsyncReady(now, hsync)
    ensures var r := AfterReset(now, hsync);
            && r.assertsOk && r.cycles == r.cia.oldcycles == now && r.hsync == hsync && r.nextevent == hsync.evtime
            && r.a == Chip(4, 4, 0xFFFF, 0xFFFF, 0xFFFF, 0xFFFF) && r.div10 == r.lastdiv10 == 0
            && !Start(r.b.cra) && !Start(r.b.crb)
  {
  }

  lemma FirstWrite(s: Sys)
    requires s.assertsOk && s.cycles == s.cia.oldcycles + 4 && s.div10 == s.lastdiv10 == 0 && Wellformed(s)
    requires s.a == Chip(4, 4, 0xFFFF, 0xFFFF, 0xFFFF, 0xFFFF) && !Start(s.b.cra) && !Start(s.b.crb)
    ensures var r := Write(s, true, 14, 0);
            && At(r, Chip(0, 4, 0xFFFF, 0xFFFF, 0xFFFF, 0xFFFF), 4, 0) && r.cycles == s.cycles && r.hsync == s.hsync
  {
    hide Deadline, Schedulable, AnyTime;
  }

  // ------------------------------------------------------- the code, step by step

  predicate IsInt(x: int) { -0x8000_0000 <= x < 0x8000_0000 }

  lemma DeadlineIsEarliest(a: Cia, b: Cia, div10: int)
    requires InRange(a) && InRange(b) && 0 <= div10 < DIV10
    ensures IsInt(TimeA(a, div10)) && IsInt(TimeB(a, div10)) && IsInt(TimeA(b, div10)) && IsInt(TimeB(b, div10))
    ensures AnyTime(a, b, div10) ==>
              TimeA(a, div10) >= 0 || TimeB(a, div10) >= 0 || TimeA(b, div10) >= 0 || TimeB(b, div10) >= 0
  {
  }

  /** What the underflow section makes of a CIA whose timers have been counted down. */
  function Reloaded(c: Cia, ovA: bool, ovB: bool): Cia {
    Cia(if ovA && OneShot(c.cra) && Start(c.cra) then c.cra - 1 else c.cra,
        if ovB && OneShot(c.crb) && Start(c.crb) then c.crb - 1 else c.crb,
        if ovA then c.la else c.ta, if ovB then c.lb else c.tb,
        c.la, c.lb, c.icrA || ovA, c.icrB || ovB)
  }

  /** The globals of the event loop and of both CIAs. */
  class Machine {
    var cycles: int
    var nextevent: int
    var hsync: Event
    var cia: Event
    var a: Cia
    var b: Cia
    var div10: int
    var lastdiv10: int
    /** False once an assert of CIA_update has stopped the program. */
    var running: bool
    ghost var resetAt: int
    ghost var clocks: int
    ghost var kept: bool

    ghost function S(): Sys
      reads this
    {
      Sys(cycles, nextevent, hsync, cia, a, b, div10, lastdiv10, resetAt, clocks, running, kept)
    }

    /** CIA_reset: both CIAs start over; the CIA event is worked out afresh. */
    method Reset()
      requires running
      modifies this
      ensures S() == AfterReset(old(cycles), old(hsync))
    {
      hide CalcTimers;
      var c := Cia(4, 4, 0xFFFF, 0xFFFF, 0xFFFF, 0xFFFF, false, false);
      a, b := c, c;
      div10, lastdiv10 := 0, 0;
      nextevent := cycles;
      resetAt, clocks, kept := cycles, 0, true;
      cia := Event(false, 0, cycles);
      CiaCalctimers();
    }

    /** events_schedule */
    method EventsSchedule()
      modifies `nextevent
      ensures S() == Schedule(old(S()))
    {
      var mintime := NEVER;
      if hsync.active {
        var eventtime := Unsigned(hsync.evtime - cycles);
        if eventtime < mintime {
          mintime := eventtime;
        }
      }
      if cia.active {
        var eventtime := Unsigned(cia.evtime - cycles);
        if eventtime < mintime {
          mintime := eventtime;
        }
      }
      nextevent := cycles + mintime;
    }

    /** The timers section of CIA_update for one CIA. */
    static method CountDown(c0: Cia, ciaclocks: int) returns (c: Cia, ovA: bool, ovB: bool, ok: bool)
      requires InRange(c0)
      ensures ok == AssertsHold(c0, ciaclocks)
      ensures ok ==> c == c0.(ta := c.ta, tb := c.tb) && Reloaded(c, ovA, ovB) == Count(c0, ciaclocks)
    {
      c, ovA, ovB, ok := c0, false, false, true;
      if Start(c.cra) && c.cra / 32 % 2 == 0 {
        if c.ta + 1 < ciaclocks {
          ok := false;
          return;
        }
        if c.ta + 1 == ciaclocks {
          ovA := true;
          if Start(c.crb) && c.crb / 32 % 4 == 2 {
            if c.tb == 0 {
              ovB := true;
            }
            c := c.(tb := c.tb - 1);
          }
        }
        c := c.(ta := c.ta - ciaclocks);
      }
      if Start(c.crb) && c.crb / 32 % 4 == 0 {
        if c.tb + 1 < ciaclocks {
          ok := false;
          return;
        }
        if c.tb + 1 == ciaclocks {
          ovB := true;
        }
        c := c.(tb := c.tb - ciaclocks);
      }
    }

    /** The underflow section of CIA_update for one CIA. */
    static method Reload(c0: Cia, ovA: bool, ovB: bool) returns (c: Cia)
      ensures c == Reloaded(c0, ovA, ovB)
    {
      c := c0;
      if ovA {
        c := c.(icrA := true);
        c := c.(ta := c.la);
        if OneShot(c.cra) && Start(c.cra) {
          c := c.(cra := c.cra - 1);
        }
      }
      if ovB {
        c := c.(icrB := true);
        c := c.(tb := c.lb);
        if OneShot(c.crb) && Start(c.crb) {
          c := c.(crb := c.crb - 1);
        }
      }
    }

    /** CIA_update */
    method CiaUpdate()
      requires Wellformed(S())
      modifies this
      ensures S() == Update(old(S()))
    {
      hide Count, AssertsHold, Reloaded;
      if !running {
        return;
      }
      var ccount := cycles - cia.oldcycles + lastdiv10;
      var ciaclocks := ccount / DIV10;
      var a1, ovA, ovB, okA := CountDown(a, ciaclocks);
      if !okA {
        running := false;
        return;
      }
      var b1, bovA, bovB, okB := CountDown(b, ciaclocks);
      if !okB {
        running := false;
        return;
      }
      lastdiv10 := div10;
      div10 := ccount % DIV10;
      a := Reload(a1, ovA, ovB);
      b := Reload(b1, bovA, bovB);
      clocks := clocks + ciaclocks;
    }

    /** The two deadlines of one CIA, -1 when a timer will not underflow. */
    static method Times(c: Cia, div10: int) returns (timeA: int, timeB: int)
      requires InRange(c) && 0 <= div10 < DIV10
      ensures timeA == TimeA(c, div10) && timeB == TimeB(c, div10)
    {
      timeA, timeB := -1, -1;
      if Start(c.cra) && c.cra / 32 % 2 == 0 {
        timeA := (DIV10 - div10) + DIV10 * c.ta;
      }
      if Start(c.crb) && c.crb / 32 % 4 == 2 {
        if timeA >= 0 {
          if c.tb == 0 || !OneShot(c.cra) {
            timeB := ToInt32(timeA + c.la * DIV10 * c.tb);
          }
        }
      }
      if Start(c.crb) && c.crb / 32 % 4 == 0 {
        timeB := (DIV10 - div10) + DIV10 * c.tb;
      }
    }

    /** The unsigned minimum of the deadlines that exist. */
    static method Earliest(aA: int, aB: int, bA: int, bB: int) returns (ciatime: int)
      requires IsInt(aA) && IsInt(aB) && IsInt(bA) && IsInt(bB)
      requires aA >= 0 || aB >= 0 || bA >= 0 || bB >= 0
      ensures ciatime == Earlier(Earlier(Earlier(aA, aB), bA), bB)
      ensures 0 <= ciatime && (aA >= 0 ==> ciatime <= aA) && (aB >= 0 ==> ciatime <= aB)
      ensures (bA >= 0 ==> ciatime <= bA) && (bB >= 0 ==> ciatime <= bB)
    {
      ciatime := NEVER;
      if aA != -1 {
        ciatime := Unsigned(aA);
      }
      if aB != -1 && Unsigned(aB) < ciatime {
        ciatime := Unsigned(aB);
      }
      if bA != -1 && Unsigned(bA) < ciatime {
        ciatime := Unsigned(bA);
      }
      if bB != -1 && Unsigned(bB) < ciatime {
        ciatime := Unsigned(bB);
      }
    }

    /** The middle part of CIA_calctimers: whether an event is needed, and how soon. */
    static method Due(a: Cia, b: Cia, div10: int) returns (active: bool, ciatime: int)
      requires InRange(a) && InRange(b) && 0 <= div10 < DIV10
      ensures active == AnyTime(a, b, div10)
      ensures active ==> ciatime == Deadline(a, b, div10)
    {
      DeadlineIsEarliest(a, b, div10);
      hide TimeA, TimeB, Earlier;
      var aA, aB := Times(a, div10);
      var bA, bB := Times(b, div10);
      active, ciatime := aA != -1 || aB != -1 || bA != -1 || bB != -1, 0;
      if active {
        ciatime := Earliest(aA, aB, bA, bB);
      }
    }

    /** CIA_calctimers */
    method CiaCalctimers()
      requires Wellformed(S())
      modifies this
      ensures S() == CalcTimers(old(S()))
    {
      hide AnyTime, Deadline, Schedulable, Schedule;
      if !running {
        return;
      }
      kept := kept && Schedulable(a, b, div10);
      cia := cia.(oldcycles := cycles);
      var active, ciatime := Due(a, b, div10);
      cia := cia.(active := active);
      if cia.active {
        cia := cia.(evtime := ciatime + cycles);
      }
      EventsSchedule();
    }

    /** CIA_handler */
    method CiaHandler()
      requires Wellformed(S())
      modifies this
      ensures S() == CalcTimers(Update(old(S())))
    {
      CiaUpdate();
      CiaCalctimers();
    }

    /** hsync_handler, as far as it concerns events. */
    method HsyncHandler()
      modifies `hsync
      ensures S() == Hsync(old(S()))
    {
      hsync := hsync.(evtime := hsync.evtime + (cycles - hsync.oldcycles));
      hsync := hsync.(oldcycles := cycles);
    }

    /** One round of the loop in do_cycles_slow. */
    method OneCycle()
      requires Wellformed(S()) && running
      modifies this
      ensures S() == Tick(old(S()))
    {
      hide Update, CalcTimers, Schedule;
      cycles := cycles + 1;
      if cycles == nextevent {
        if hsync.active && hsync.evtime == cycles {
          HsyncHandler();
        }
        if cia.active && cia.evtime == cycles {
          CiaHandler();
        }
        if running {
          EventsSchedule();
        }
      }
    }

    /** do_cycles_slow: skips straight ahead when the next event is out of reach, and is in every
        case the same as single cycles. */
    method DoCycles(cyclesToAdd: nat)
      requires Wellformed(S()) && running && nextevent - cycles <= NEVER
      modifies this
      ensures S() == Ticks(old(S()), cyclesToAdd)
    {
      hide Tick;
      if Unsigned(nextevent - cycles) <= cyclesToAdd {
        var left := cyclesToAdd;
        while left != 0
          invariant 0 <= left <= cyclesToAdd
          invariant Wellformed(S()) && S() == Ticks(old(S()), cyclesToAdd - left)
        {
          if !running {
            StoppedStays(old(S()), cyclesToAdd - left, cyclesToAdd);
            return;
          }
          OneCycle();
          left := left - 1;
        }
      } else {
        Quiet(S(), cyclesToAdd);
        cycles := cycles + cyclesToAdd;
      }
    }

    /** The register cases of WriteCIAA and WriteCIAB that concern the timers. */
    static method StoreReg(c0: Cia, reg: int, val: nat) returns (c: Cia)
      requires InRange(c0) && val < 256
      ensures c == WriteReg(c0, reg, val)
    {
      c := c0;
      if reg == 4 {
        c := c.(la := c.la / 256 * 256 + val);
      } else if reg == 5 {
        c := c.(la := c.la % 256 + 256 * val);
        if !Start(c.cra) {
          c := c.(ta := c.la);
        }
        if OneShot(c.cra) {
          c := c.(ta := c.la);
          c := c.(cra := if Start(c.cra) then c.cra else c.cra + 1);
        }
      } else if reg == 6 {
        c := c.(lb := c.lb / 256 * 256 + val);
      } else if reg == 7 {
        c := c.(lb := c.lb % 256 + 256 * val);
        if !Start(c.crb) {
          c := c.(tb := c.lb);
        }
        if OneShot(c.crb) {
          c := c.(tb := c.lb);
          c := c.(crb := if Start(c.crb) then c.crb else c.crb + 1);
        }
      } else if reg == 14 {
        c := c.(cra := val);
        if ForceLoad(c.cra) {
          c := c.(cra := c.cra - 16);
          c := c.(ta := c.la);
        }
      } else if reg == 15 {
        c := c.(crb := val);
        if ForceLoad(c.crb) {
          c := c.(crb := c.crb - 16);
          c := c.(tb := c.lb);
        }
      }
    }

    /** WriteCIAA (isA) and WriteCIAB. */
    method WriteCia(isA: bool, reg: int, val: nat)
      requires Wellformed(S()) && running && val < 256
      modifies this
      ensures S() == Write(old(S()), isA, reg, val)
    {
      hide Update, CalcTimers, WriteReg;
      if TimerReg(reg) {
        CiaUpdate();
        if !running {
          return;
        }
        if isA {
          a := StoreReg(a, reg, val);
        } else {
          b := StoreReg(b, reg, val);
        }
        CiaCalctimers();
      }
    }
  }

  /** A stopped program stays as it is. */
  lemma {:induction false} StoppedStays(s: Sys, m: nat, n: nat)
    requires Wellformed(s) && m <= n && !Ticks(s, m).assertsOk
    ensures Ticks(s, n) == Ticks(s, m)
  {
    hide Update, CalcTimers;
    if m < n {
      StoppedStays(s, m, n - 1);
    }
  }
}
