/**
 The Paula audio clock of src/audio.c.  update_audio jumps from event to event: the next
 underflow of a channel's period counter, the next output sample, or the end of the stretch of
 cycles it was called for.  It must not matter how the stretch is cut up by its callers.
 */
module AudioClock {

  const MAXHPOS := 227

  // ---------------------------------------------------------------------- channels

  /** One audio_channel_data.  `written` stands for data_written == 2. */
  datatype Channel = Channel(
    state: int, evtime: int, per: nat, dat: nat, nextdat: nat, vol: nat, sample: int, muted: bool,
    accum: int, time: nat, dmaen: bool, intreq2: bool, written: bool,
    lc: nat, pt: nat, len: nat, wlen: nat)

  /** The audio globals.  `next` and `interval` are next_sample_evtime and
      sample_evtime_interval; `divOk` records that no average was taken over zero cycles. */
  datatype Audio = Audio(
    ch: seq<Channel>, next: real, interval: real,
    adkVol: set<int>, adkPer: set<int>, intreq: set<int>, ram: seq<nat>,
    out: seq<(int, int)>, divOk: bool)

  predicate Busy(c: Channel) { c.state != 0 }

  predicate ValidChannel(c: Channel) { (Busy(c) ==> c.evtime >= 0) && c.per >= 1 }

  /** What every caller of update_audio sees: four channels with a period of at least one, no
      counter below zero, and a sample clock that is not behind.  The rate check keeps the
      interval far above one half. */
  predicate Valid(s: Audio) {
    && |s.ch| == 4 && (forall i :: 0 <= i < 4 ==> ValidChannel(s.ch[i]))
    && s.interval >= 0.5 && 0.0 <= s.next < s.interval + 0.5
    && |s.ram| > 0
  }

  /** The level that a channel puts out. */
  function Output(c: Channel): int { if c.muted then 0 else c.sample * c.vol }

  /** Rounding half up, as update_audio does it. */
  function Rounded(x: real): int {
    if x - x.Floor as real >= 0.5 then x.Floor + 1 else x.Floor
  }

  function Min(a: int, b: int): int { if b < a then b else a }

  /** Cycles until the first of the channels i.. underflows, at most `best`. */
  function FirstUnderflow(ch: seq<Channel>, best: int): (r: int)
    ensures r <= best && forall c :: c in ch && Busy(c) ==> r <= c.evtime
    ensures r == best || exists c :: c in ch && Busy(c) && r == c.evtime
  {
    if ch == [] then best
    else FirstUnderflow(ch[1..], if Busy(ch[0]) then Min(best, ch[0].evtime) else best)
  }

  /** Cycles until anything happens at all. */
  function Horizon(s: Audio): (r: int)
    requires Valid(s)
    ensures 0 <= r <= Rounded(s.next)
    ensures forall i :: 0 <= i < 4 && Busy(s.ch[i]) ==> r <= s.ch[i].evtime
  {
    FirstUnderflow(s.ch, Rounded(s.next))
  }

  // ------------------------------------------------------------------------ steps

  function AdvanceChannel(c: Channel, n: nat): Channel {
    c.(evtime := c.evtime - n, accum := c.accum + Output(c) * n, time := c.time + n)
  }

  /** anti_prehandler and the countdown of all counters. */
  function Advance(s: Audio, n: nat): Audio
    requires |s.ch| == 4
  {
    s.(next := s.next - n as real, ch := seq(4, i requires 0 <= i < 4 => AdvanceChannel(s.ch[i], n)))
  }

  /** C's division, with the result 0 where C has none. */
  function Quotient(a: int, b: nat): int {
    if b == 0 then 0 else if a >= 0 then a / b else -(-a / b)
  }

  function Average(c: Channel): int { Quotient(c.accum, c.time) }

  function Emptied(c: Channel): Channel { c.(accum := 0, time := 0) }

  /** sample16si_anti_handler up to the filter, after the sample clock has been set. */
  function Emit(s: Audio): Audio
    requires |s.ch| == 4
  {
    s.(next := s.next + s.interval,
       ch := seq(4, i requires 0 <= i < 4 => Emptied(s.ch[i])),
       out := s.out + [(Average(s.ch[0]) + Average(s.ch[3]), Average(s.ch[1]) + Average(s.ch[2]))],
       divOk := s.divOk && forall i :: 0 <= i < 4 ==> s.ch[i].time > 0)
  }

  lemma EmitIs(s: Audio, ch: seq<Channel>, datas: seq<int>, divOk: bool)
    requires |s.ch| == |ch| == |datas| == 4
    requires forall i :: 0 <= i < 4 ==> ch[i] == Emptied(s.ch[i]) && datas[i] == Average(s.ch[i])
    requires divOk <==> s.divOk && forall i :: 0 <= i < 4 ==> s.ch[i].time > 0
    ensures Emit(s) == s.(next := s.next + s.interval, ch := ch, divOk := divOk,
                          out := s.out + [(datas[0] + datas[3], datas[1] + datas[2])])
  {
    hide Emptied, Average;
    assert ch == Emit(s).ch;
  }

  function Signed8(x: nat): int { var b := x % 256; if b < 128 then b else b - 256 }

  function Wget(ram: seq<nat>, addr: nat): (r: nat)
    requires |ram| > 0
    ensures r < 0x1_0000
  {
    ram[addr / 2 % |ram|] % 0x1_0000
  }

  /** The channel's own fields after audio_handler.  `irq` is its interrupt request bit, `word`
      the chip memory word at its DMA pointer. */
  function Own(c: Channel, audap: bool, napnav: bool, irq: bool, word: nat): Channel {
    if c.state == 0 then c
    else if c.state == 1 then
      c.(evtime := MAXHPOS, state := 5, wlen := if c.wlen != 1 then (c.wlen - 1) % 0x1_0000 else c.wlen, nextdat := word)
    else if c.state == 5 then
      c.(evtime := c.per, dat := c.nextdat, sample := Signed8(c.nextdat / 256), state := 2,
         written := c.written || napnav)
    else if c.state == 2 then
      var d := c.(sample := Signed8(c.dat), evtime := c.per, state := 3);
      if audap then d.(intreq2 := false, dat := c.nextdat, written := c.written || c.dmaen) else d
    else if c.state == 3 then
      if irq && !c.dmaen then c.(evtime := c.per, state := 0, sample := 0)
      else c.(evtime := c.per, state := 2, intreq2 := false, dat := c.nextdat,
              sample := Signed8(c.nextdat / 256), written := c.written || (c.dmaen && napnav))
    else c.(state := 0)
  }

  /** What audio_handler of channel c does to the channel after it. */
  function Attach(c: Channel, right: Channel, audav: bool, audap: bool, irq: bool): Channel {
    if c.state == 2 && audap then right.(per := if c.nextdat == 0 then 65535 else c.nextdat)
    else if c.state == 3 && audav && !(irq && !c.dmaen) then right.(vol := c.nextdat)
    else right
  }

  /** Whether audio_handler requests an interrupt. */
  predicate Raises(c: Channel, audap: bool, napnav: bool, irq: bool) {
    || c.state == 1
    || (c.state == 2 && audap && c.intreq2 && c.dmaen)
    || (c.state == 3 && !(irq && !c.dmaen) && ((c.intreq2 && c.dmaen && napnav) || (napnav && !c.dmaen)))
  }

  /** audio_handler: the Paula state machine of channel nr. */
  function Handle(s: Audio, nr: nat): (r: Audio)
    requires nr < 4 && |s.ch| == 4 && |s.ram| > 0
    ensures |r.ch| == 4
  {
    var c, irq := s.ch[nr], nr in s.intreq;
    var audav, audap := nr in s.adkVol, nr in s.adkPer;
    var napnav := (!audav && !audap) || audav;
    var ch := s.ch[nr := Own(c, audap, napnav, irq, Wget(s.ram, c.pt))];
    s.(ch := if nr < 3 then ch[nr + 1 := Attach(c, ch[nr + 1], audav, audap, irq)] else ch,
       intreq := if Raises(c, audap, napnav, irq) then s.intreq + {nr} else s.intreq)
  }

  /** The handlers of the channels nr.. whose counters have run out, in order. */
  function HandleFrom(s: Audio, nr: nat): (r: Audio)
    requires nr <= 4 && |s.ch| == 4 && |s.ram| > 0
    ensures |r.ch| == 4
    decreases 4 - nr
  {
    if nr == 4 then s
    else
      var t := if s.ch[nr].evtime == 0 && Busy(s.ch[nr]) then Handle(s, nr) else s;
      HandleKeeps(s, nr);
      HandleFrom(t, nr + 1)
  }

  /** One round of the loop: `n` cycles in which nothing happens before the last. */
  function Step(s: Audio, n: nat): (r: Audio)
    requires Valid(s)
    ensures |r.ch| == 4
  {
    var a := Advance(s, n);
    HandleFrom(if Rounded(s.next) == n then Emit(a) else a, 0)
  }

  /** The clock side of the state, which no channel handler touches. */
  predicate SameClock(s: Audio, t: Audio) {
    && |s.ch| == |t.ch| == 4 && s.next == t.next && s.interval == t.interval && s.ram == t.ram
    && s.adkVol == t.adkVol && s.adkPer == t.adkPer && s.out == t.out && s.divOk == t.divOk
    && forall i :: 0 <= i < 4 ==>
         s.ch[i].accum == t.ch[i].accum && s.ch[i].time == t.ch[i].time && s.ch[i].muted == t.ch[i].muted
  }

  /** audio_handler leaves the channel idle or with a counter that is not zero, leaves every
      other counter alone, and never makes a period zero. */
  lemma HandleKeeps(s: Audio, nr: nat)
    requires nr < 4 && |s.ch| == 4 && |s.ram| > 0
    ensures var r := Handle(s, nr);
            && SameClock(s, r)
            && (forall i :: 0 <= i < 4 && i != nr ==> r.ch[i].state == s.ch[i].state && r.ch[i].evtime == s.ch[i].evtime)
            && (forall i :: 0 <= i < 4 && s.ch[i].per >= 1 ==> r.ch[i].per >= 1)
            && (s.ch[nr].per >= 1 && Busy(r.ch[nr]) ==> r.ch[nr].evtime >= 1)
  {
    hide Wget, Own, Attach, Raises;
    var c, irq, audav, audap := s.ch[nr], nr in s.intreq, nr in s.adkVol, nr in s.adkPer;
    OwnKeeps(c, audap, (!audav && !audap) || audav, irq, Wget(s.ram, c.pt));
    if nr < 3 {
      AttachKeeps(c, s.ch[nr + 1], audav, audap, irq);
    }
  }

  /** It reaches no further than the next channel, and there only the period and the volume. */
  lemma HandleReaches(s: Audio, nr: nat)
    requires nr < 4 && |s.ch| == 4 && |s.ram| > 0
    ensures var r := Handle(s, nr);
            && (forall i :: 0 <= i < 4 && i != nr && i != nr + 1 ==> r.ch[i] == s.ch[i])
            && (nr < 3 ==> r.ch[nr + 1] == s.ch[nr + 1].(per := r.ch[nr + 1].per, vol := r.ch[nr + 1].vol))
            && s.intreq <= r.intreq <= s.intreq + {nr}
  {
    hide Own, Raises, Wget;
  }

  lemma OwnKeeps(c: Channel, audap: bool, napnav: bool, irq: bool, word: nat)
    ensures var d := Own(c, audap, napnav, irq, word);
            && d.per == c.per && d.accum == c.accum && d.time == c.time && d.muted == c.muted
            && (c.per >= 1 && Busy(d) ==> d.evtime >= 1)
  {
  }

  lemma AttachKeeps(c: Channel, right: Channel, audav: bool, audap: bool, irq: bool)
    ensures var d := Attach(c, right, audav, audap, irq);
            && d.state == right.state && d.evtime == right.evtime && d.accum == right.accum && d.time == right.time
            && d.muted == right.muted
            && (right.per >= 1 ==> d.per >= 1)
  {
  }

  lemma {:induction false} HandleFromKeeps(s: Audio, nr: nat)
    requires nr <= 4 && |s.ch| == 4 && |s.ram| > 0 && forall i :: 0 <= i < 4 ==> ValidChannel(s.ch[i])
    ensures var r := HandleFrom(s, nr);
            && SameClock(s, r)
            && (forall i :: 0 <= i < nr ==> r.ch[i].state == s.ch[i].state && r.ch[i].evtime == s.ch[i].evtime)
            && (forall i :: 0 <= i < 4 ==> ValidChannel(r.ch[i]))
            && (forall i :: nr <= i < 4 && Busy(r.ch[i]) ==> r.ch[i].evtime >= 1)
    decreases 4 - nr
  {
    hide Handle;
    if nr < 4 {
      HandleKeeps(s, nr);
      var t := if s.ch[nr].evtime == 0 && Busy(s.ch[nr]) then Handle(s, nr) else s;
      HandleFromKeeps(t, nr + 1);
    }
  }

  /** After any round no busy channel has a counter at zero. */
  lemma StepKeeps(s: Audio, n: nat)
    requires Valid(s) && n <= Horizon(s)
    ensures var r := Step(s, n);
            && Valid(r) && r.interval == s.interval
            && (forall i :: 0 <= i < 4 && Busy(r.ch[i]) ==> r.ch[i].evtime >= 1)
            && r.next == s.next - n as real + (if Rounded(s.next) == n then s.interval else 0.0)
            && (s.next >= 0.5 && n == 0 ==> r.next == s.next) && (s.next < 0.5 && n == 0 ==> r.next >= 0.5)
  {
    hide HandleFrom, Rounded, Horizon, Output, Average;
    var a := Advance(s, n);
    RoundingLeaves(s.next, n);
    var e := if Rounded(s.next) == n then Emit(a) else a;
    AdvanceKeeps(s, n);
    HandleFromKeeps(e, 0);
  }

  lemma AdvanceKeeps(s: Audio, n: nat)
    requires Valid(s) && n <= Horizon(s)
    ensures var a := Advance(s, n);
            (forall i :: 0 <= i < 4 ==> ValidChannel(a.ch[i])) && forall i :: 0 <= i < 4 ==> ValidChannel(Emit(a).ch[i])
  {
    hide Horizon, Average, Output;
  }

  lemma RoundingLeaves(x: real, n: nat)
    requires x >= 0.0 && n <= Rounded(x)
    ensures Rounded(x) == n ==> -0.5 <= x - n as real < 0.5
    ensures Rounded(x) != n ==> x - n as real >= 0.5
    ensures Rounded(x - n as real) == Rounded(x) - n
    ensures Rounded(x) == 0 <==> x < 0.5
  {
  }

  lemma HorizonAfter(s: Audio)
    requires Valid(s) && (forall i :: 0 <= i < 4 && Busy(s.ch[i]) ==> s.ch[i].evtime >= 1) && s.next >= 0.5
    ensures Horizon(s) >= 1
  {
  }

  /** update_audio for `n` cycles. */
  function Update(s: Audio, n: nat): (r: Audio)
    requires Valid(s)
    ensures Valid(r)
    decreases n, if Horizon(s) == 0 then 1 else 0
  {
    if n == 0 then s
    else
      var best := Min(Horizon(s), n);
      StepKeeps(s, best);
      if best == 0 then HorizonAfter(Step(s, 0)); Update(Step(s, 0), n)
      else Update(Step(s, best), n - best)
  }

  // ------------------------------------------------------------------- additivity

  lemma AdvanceAdds(s: Audio, a: nat, b: nat)
    requires |s.ch| == 4
    ensures Advance(s, a + b) == Advance(Advance(s, a), b)
  {
    hide Output;
    var one, two := Advance(s, a + b), Advance(Advance(s, a), b);
    forall i | 0 <= i < 4 ensures one.ch[i] == two.ch[i] {
      ChannelAdds(s.ch[i], a, b);
    }
    assert one.ch == two.ch;
    assert s.next - (a + b) as real == s.next - a as real - b as real;
  }

  lemma ChannelAdds(c: Channel, a: nat, b: nat)
    ensures AdvanceChannel(c, a + b) == AdvanceChannel(AdvanceChannel(c, a), b)
  {
    assert Output(AdvanceChannel(c, a)) == Output(c);
    assert Output(c) * (a + b) == Output(c) * a + Output(c) * b;
  }

  /** A stretch that ends before anything happens only counts. */
  lemma QuietStep(s: Audio, n: nat)
    requires Valid(s) && n < Horizon(s)
    ensures Step(s, n) == Advance(s, n) && Valid(Step(s, n)) && Horizon(Step(s, n)) == Horizon(s) - n
  {
    QuietCounts(s, n);
    QuietHorizon(s, n);
    StepKeeps(s, n);
    hide Valid, Step, Advance, Horizon;
  }

  lemma QuietCounts(s: Audio, n: nat)
    requires Valid(s) && n < Horizon(s)
    ensures Step(s, n) == Advance(s, n)
  {
    hide Output, HandleFrom, Rounded, FirstUnderflow;
    NothingDue(Advance(s, n), 0);
  }

  lemma QuietHorizon(s: Audio, n: nat)
    requires Valid(s) && n < Horizon(s) && Valid(Advance(s, n))
    ensures Horizon(Advance(s, n)) == Horizon(s) - n
  {
    hide Rounded, FirstUnderflow, ValidChannel, Output, Busy;
    RoundingLeaves(s.next, n);
    ShiftedUnderflow(s.ch, Advance(s, n).ch, Rounded(s.next), n);
  }

  lemma {:induction false} NothingDue(s: Audio, nr: nat)
    requires |s.ch| == 4 && |s.ram| > 0 && nr <= 4 && forall i :: 0 <= i < 4 && Busy(s.ch[i]) ==> s.ch[i].evtime > 0
    ensures HandleFrom(s, nr) == s
    decreases 4 - nr
  {
    if nr < 4 {
      NothingDue(s, nr + 1);
    }
  }

  lemma {:induction false} ShiftedUnderflow(c: seq<Channel>, d: seq<Channel>, best: int, n: nat)
    requires |c| == |d| && forall i :: 0 <= i < |c| ==> d[i].state == c[i].state && d[i].evtime == c[i].evtime - n
    ensures FirstUnderflow(d, best - n) == FirstUnderflow(c, best) - n
  {
    if c != [] {
      assert d[0].state == c[0].state && d[0].evtime == c[0].evtime - n;
      ShiftedUnderflow(c[1..], d[1..], if Busy(c[0]) then Min(best, c[0].evtime) else best, n);
    }
  }

  /** A round that is cut short is taken up again where it was left. */
  lemma StepSplits(s: Audio, a: nat, b: nat)
    requires Valid(s) && a < Horizon(s) && a + b <= Horizon(s)
    ensures Valid(Advance(s, a)) && Step(s, a + b) == Step(Advance(s, a), b)
  {
    QuietStep(s, a);
    RoundingLeaves(s.next, a);
    AdvanceAdds(s, a, b);
  }

  /** Length of the first round of a call. */
  function First(s: Audio, n: nat): nat
    requires Valid(s)
  {
    Min(Horizon(s), n)
  }

  /** The first round of a call. */
  lemma FirstRound(s: Audio, n: nat)
    requires Valid(s) && n > 0
    ensures var b := First(s, n);
            && b <= Horizon(s) && b <= n && (b == n || b == Horizon(s)) && Valid(Step(s, b))
            && Update(s, n) == Update(Step(s, b), n - b)
            && (b == 0 ==> Horizon(Step(s, b)) > 0)
  {
    hide Valid, Step, Horizon, Rounded;
    var b := Min(Horizon(s), n);
    StepKeeps(s, b);
    if b == 0 {
      HorizonAfter(Step(s, 0));
    }
  }

  /** Advancing m + n cycles in one call is the same as advancing m and then n. */
  lemma {:induction false} UpdateAdds(s: Audio, m: nat, n: nat)
    requires Valid(s)
    ensures Update(s, m + n) == Update(Update(s, m), n)
    decreases m, if Horizon(s) == 0 then 1 else 0
  {
    hide Step, Horizon, Valid, Update;
    if m == 0 {
      NoCycles(s);
    } else if n == 0 {
      NoCycles(Update(s, m));
    } else {
      var h := Horizon(s);
      FirstRound(s, m);
      FirstRound(s, m + n);
      if h <= m {
        UpdateAdds(Step(s, h), m - h, n);
      } else {
        QuietStep(s, m);
        var a := Step(s, m);
        NoCycles(a);
        FirstRound(a, n);
        StepSplits(s, m, Min(h - m, n));
      }
    }
  }

  lemma NoCycles(s: Audio)
    requires Valid(s)
    ensures Update(s, 0) == s
  {
  }

  // -------------------------------------------------------- one cycle at a time

  /** The same machine without any jumps: one cycle, the sample if its time has come, and the
      handlers of the channels that have run out. */
  function Cycle(s: Audio): (r: Audio)
    requires |s.ch| == 4 && |s.ram| > 0
    ensures |r.ch| == 4 && |r.ram| > 0
  {
    var a := Advance(s, 1);
    var e := if a.next < 0.5 then Emit(a) else a;
    HandleFromFrame(e, 0);
    HandleFrom(e, 0)
  }

  lemma {:induction false} HandleFromFrame(s: Audio, nr: nat)
    requires nr <= 4 && |s.ch| == 4 && |s.ram| > 0
    ensures SameClock(s, HandleFrom(s, nr))
    decreases 4 - nr
  {
    hide Handle;
    if nr < 4 {
      HandleKeeps(s, nr);
      HandleFromFrame(if s.ch[nr].evtime == 0 && Busy(s.ch[nr]) then Handle(s, nr) else s, nr + 1);
    }
  }

  function Cycles(s: Audio, n: nat): (r: Audio)
    requires |s.ch| == 4 && |s.ram| > 0
    ensures |r.ch| == 4 && |r.ram| > 0
  {
    if n == 0 then s else Cycle(Cycles(s, n - 1))
  }

  /** Nothing is overdue. */
  predicate Ready(s: Audio) {
    Valid(s) && s.interval >= 1.0 && s.next >= 0.5 && forall i :: 0 <= i < 4 && Busy(s.ch[i]) ==> s.ch[i].evtime >= 1
  }

  /** The event-driven update gives exactly what single cycles give: the same samples, channel
      states and accumulators. */
  lemma {:induction false} UpdateIsCycles(s: Audio, n: nat)
    requires Ready(s)
    ensures Update(s, n) == Cycles(s, n) && Ready(Update(s, n))
  {
    hide Cycle, Step, Horizon, Valid;
    if n == 0 {
      NoCycles(s);
    } else {
      UpdateIsCycles(s, n - 1);
      UpdateAdds(s, n - 1, 1);
      var t := Update(s, n - 1);
      OneCycle(t);
    }
  }

  lemma OneCycle(s: Audio)
    requires Ready(s)
    ensures Update(s, 1) == Cycle(s) && Ready(Update(s, 1))
  {
    HorizonAfter(s);
    FirstRound(s, 1);
    StepKeeps(s, 1);
    RoundingLeaves(s.next, 1);
    assert Step(s, 1) == Cycle(s) by {
      hide Horizon, HandleFrom, Output, Average;
    }
    hide Update, Step, Cycle, Horizon;
    NoCycles(Step(s, 1));
  }

  // ---------------------------------------------------------------- sample clock

  /** k sample intervals. */
  function Times(k: nat, interval: real): real { k as real * interval }

  /** The cycle at which the k-th sample is due: k * interval, rounded half up. */
  function Due(k: nat, interval: real): int { (Times(k, interval) + 0.5).Floor }

  lemma NextDue(k: nat, interval: real)
    ensures Times(k + 1, interval) == Times(k, interval) + interval
    ensures interval >= 0.0 ==> Due(k, interval) <= Due(k + 1, interval)
    ensures interval >= 1.0 ==> Due(k, interval) < Due(k + 1, interval)
    ensures Due(k + 1, interval) - Due(k, interval) <= interval.Floor + 1
  {
    assert (k + 1) as real * interval == k as real * interval + interval;
  }

  lemma {:induction false} DueIsMonotone(j: nat, k: nat, interval: real)
    requires j <= k && interval >= 0.0
    ensures Due(j, interval) <= Due(k, interval)
  {
    if j < k {
      DueIsMonotone(j, k - 1, interval);
      NextDue(k - 1, interval);
    }
  }

  /** n cycles after reset: the samples are those due by now, the sample clock holds the exact
      distance to the next one, and every accumulator has run since the last one. */
  predicate AtCycle(s: Audio, n: nat) {
    && |s.ch| == 4
    && s.next == Times(|s.out| + 1, s.interval) - n as real
    && (forall i :: 0 <= i < 4 ==> s.ch[i].time == n - Due(|s.out|, s.interval))
    && (s.divOk <==> forall k: nat :: k < |s.out| ==> Due(k, s.interval) < Due(k + 1, s.interval))
  }

  lemma StepClock(s: Audio, n: nat, b: nat)
    requires Valid(s) && b <= Horizon(s) && AtCycle(s, n)
    ensures AtCycle(Step(s, b), n + b)
  {
    hide Horizon, HandleFrom, Rounded, Advance, Emit, Due, Times, Valid;
    var a := Advance(s, b);
    AdvanceClock(s, n, b);
    if Rounded(s.next) == b {
      EmitClock(s, n, b);
      HandleFromFrame(Emit(a), 0);
    } else {
      HandleFromFrame(a, 0);
    }
  }

  lemma AdvanceClock(s: Audio, n: nat, b: nat)
    requires Valid(s) && AtCycle(s, n)
    ensures AtCycle(Advance(s, b), n + b) && |s.ch| == 4 && |Advance(s, b).ram| > 0
  {
    hide Due, Times, Output, Rounded;
  }

  lemma DueNow(s: Audio, n: nat, b: nat)
    requires AtCycle(s, n) && Rounded(s.next) == b
    ensures Due(|s.out| + 1, s.interval) == n + b
  {
  }

  lemma EmitClock(s: Audio, n: nat, b: nat)
    requires Valid(s) && AtCycle(s, n) && Rounded(s.next) == b
    ensures AtCycle(Emit(Advance(s, b)), n + b) && |Emit(Advance(s, b)).ram| > 0
  {
    AdvanceClock(s, n, b);
    var a := Advance(s, b);
    var k := |s.out|;
    DueNow(s, n, b);
    hide Due, Times, Output, Average, Rounded, Advance;
    NextDue(k + 1, s.interval);
    var e := Emit(a);
    assert e.divOk <==> s.divOk && Due(k, s.interval) < Due(k + 1, s.interval) by {
      assert a.ch[0].time == n + b - Due(k, s.interval);
    }
  }

  lemma {:induction false} UpdateClock(s: Audio, m: nat, n: nat)
    requires Valid(s) && AtCycle(s, m)
    ensures AtCycle(Update(s, n), m + n) && Update(s, n).interval == s.interval
    decreases n, if Horizon(s) == 0 then 1 else 0
  {
    hide Step, Update, Valid, Horizon, AtCycle;
    if n == 0 {
      NoCycles(s);
    } else {
      var h := Min(Horizon(s), n);
      StepClock(s, m, h);
      StepKeeps(s, h);
      FirstRound(s, n);
      UpdateClock(Step(s, h), m + h, n - h);
    }
  }

  /** audio_reset: all channels idle and silent, the first sample due after one interval. */
  function AfterReset(interval: real, s: Audio): Audio {
    var c := Channel(0, 0, 65535, 0, 0, 0, 0, true, 0, 0, false, false, false, 0, 0, 0, 0);
    s.(ch := [c, c, c, c], next := interval, interval := interval, out := [], divOk := true)
  }

  lemma ResetClock(interval: real, s: Audio)
    requires interval >= 0.5 && |s.ram| > 0
    ensures var r := AfterReset(interval, s);
            Valid(r) && AtCycle(r, 0) && r.interval == interval
    ensures interval >= 1.0 ==> Ready(AfterReset(interval, s))
  {
  }

  lemma SamplesSoFar(s: Audio, n: nat)
    requires Valid(s) && AtCycle(s, n)
    ensures Due(|s.out|, s.interval) <= n <= Due(|s.out| + 1, s.interval)
    ensures s.next >= 0.5 ==> n < Due(|s.out| + 1, s.interval)
  {
    hide Times;
    NextDue(|s.out|, s.interval);
  }

  lemma CountedSamples(s: Audio, n: nat, k: nat)
    requires Valid(s) && AtCycle(s, n) && s.next >= 0.5 && s.interval >= 0.0
    ensures |s.out| >= k <==> n >= Due(k, s.interval)
  {
    hide *;
    SamplesSoFar(s, n);
    if |s.out| >= k {
      DueIsMonotone(k, |s.out|, s.interval);
    } else {
      DueIsMonotone(|s.out| + 1, k, s.interval);
    }
  }

  /** The sample clock does not drift: the k-th sample has been emitted exactly when cycle
      floor(k * interval + 1/2) has been reached. */
  lemma SampleTimes(interval: real, s: Audio, n: nat, k: nat)
    requires interval >= 1.0 && |s.ram| > 0
    ensures Valid(AfterReset(interval, s))
    ensures |Update(AfterReset(interval, s), n).out| >= k <==> n >= Due(k, interval)
  {
    hide *;
    ResetClock(interval, s);
    var r0 := AfterReset(interval, s);
    UpdateClock(r0, 0, n);
    UpdateIsCycles(r0, n);
    var r := Update(r0, n);
    NotBehind(r);
    CountedSamples(r, n, k);
  }

  lemma NotBehind(s: Audio)
    requires Ready(s)
    ensures s.next >= 0.5 && Valid(s)
  {
  }

  // ------------------------------------------------------- the averaging divisor

  lemma {:induction false} NoStall(k: nat, interval: real)
    requires forall j: nat :: j < k ==> Due(j, interval) < Due(j + 1, interval)
    ensures Due(k, interval) >= k
  {
    hide Times;
    if k == 0 {
      assert Times(0, interval) == 0.0 by {
        ZeroTimes(interval);
      }
    } else {
      NoStall(k - 1, interval);
    }
  }

  lemma ZeroTimes(interval: real)
    ensures Times(0, interval) == 0.0
  {
  }

  /** An interval below one makes two samples fall due in the same cycle sooner or later. */
  lemma ShortIntervalStalls(interval: real) returns (k: nat)
    requires 0.0 <= interval < 1.0
    ensures exists j: nat :: j < k && !(Due(j, interval) < Due(j + 1, interval))
  {
    var need := 1.0 / (1.0 - interval);
    k := need.Floor + 1;
    assert k as real * (1.0 - interval) >= 1.0 by {
      assert need * (1.0 - interval) == 1.0;
      assert k as real >= need;
      Grows(k as real, need, 1.0 - interval);
    }
    assert Times(k, interval) == k as real - k as real * (1.0 - interval);
    assert Due(k, interval) < k;
    if forall j: nat :: j < k ==> Due(j, interval) < Due(j + 1, interval) {
      NoStall(k, interval);
    }
  }

  lemma Grows(a: real, b: real, c: real)
    requires a >= b && c >= 0.0
    ensures a * c >= b * c
  {
  }

  /** The averages taken by sample16si_anti_handler are over at least one cycle, however long
      the machine runs, if and only if the sample interval is at least one cycle.  The rate
      check lets through rates of up to 3579545 samples a second, while the interval is 3546895
      cycles divided by the rate. */
  lemma DivisorIsPositiveIff(interval: real, s: Audio)
    requires interval >= 0.5 && |s.ram| > 0
    ensures Valid(AfterReset(interval, s))
    ensures (forall n: nat :: Update(AfterReset(interval, s), n).divOk) <==> interval >= 1.0
  {
    hide Update, Times, Due, Valid, AtCycle;
    ResetClock(interval, s);
    var r0 := AfterReset(interval, s);
    if interval >= 1.0 {
      forall n: nat ensures Update(r0, n).divOk {
        UpdateClock(r0, 0, n);
        LongIntervalDivides(Update(r0, n), n);
      }
    } else {
      var k := ShortIntervalStalls(interval);
      var n := if Due(k, interval) < 0 then 0 else Due(k, interval) + 1;
      UpdateClock(r0, 0, n);
      var r := Update(r0, n);
      SamplesSoFar(r, n);
      if |r.out| < k {
        DueIsMonotone(|r.out| + 1, k, interval);
      }
      StalledDivides(r, n, k);
    }
  }

  lemma LongIntervalDivides(s: Audio, n: nat)
    requires AtCycle(s, n) && s.interval >= 1.0
    ensures s.divOk
  {
    hide Due;
    forall k: nat | k < |s.out| ensures Due(k, s.interval) < Due(k + 1, s.interval) {
      NextDue(k, s.interval);
    }
  }

  lemma StalledDivides(s: Audio, n: nat, k: nat)
    requires AtCycle(s, n) && k <= |s.out|
    requires exists j: nat :: j < k && !(Due(j, s.interval) < Due(j + 1, s.interval))
    ensures !s.divOk
  {
    hide Due;
  }

  /** The highest rate that the check admits gives an interval below one, and so in the end a
      division by zero. */
  lemma HighestRateDividesByZero(s: Audio)
    requires |s.ram| > 0
    ensures var interval := 3546895.0 / 3579545.0;
            && interval >= 0.5 && Valid(AfterReset(interval, s))
            && exists n: nat :: !Update(AfterReset(interval, s), n).divOk
  {
    hide *;
    DivisorIsPositiveIff(3546895.0 / 3579545.0, s);
  }

  // ------------------------------------------------------------ accumulator width

  /** Bytes in, at most `v` in volume; with volume attachment v must allow for 16 bits. */
  predicate Loud(s: Audio, v: nat) {
    && |s.ch| == 4
    && (s.adkVol == {} || v >= 0xFFFF)
    && forall i :: 0 <= i < 4 ==> LoudChannel(s.ch[i], v)
  }

  predicate LoudChannel(c: Channel, v: nat) {
    && -128 <= c.sample <= 127 && c.vol <= v && c.nextdat < 0x1_0000
    && -128 * v * c.time <= c.accum <= 128 * v * c.time
  }

  lemma AdvanceLoud(c: Channel, v: nat, n: nat)
    requires LoudChannel(c, v)
    ensures LoudChannel(AdvanceChannel(c, n), v)
  {
    assert -128 * v <= Output(c) <= 128 * v by {
      if !c.muted {
        Scale(c.sample, 128, c.vol);
        Scale(c.vol, v, 128);
      }
    }
    Scale(Output(c), 128 * v, n);
    assert 128 * v * (c.time + n) == 128 * v * c.time + 128 * v * n;
  }

  lemma Scale(x: int, bound: int, n: nat)
    requires -bound <= x <= bound
    ensures -bound * n <= x * n <= bound * n
  {
  }

  lemma OwnLoud(c: Channel, audap: bool, napnav: bool, irq: bool, word: nat, v: nat)
    requires LoudChannel(c, v) && word < 0x1_0000
    ensures LoudChannel(Own(c, audap, napnav, irq, word), v)
  {
    OwnKeeps(c, audap, napnav, irq, word);
    OwnSample(c, audap, napnav, irq, word);
    hide Own;
  }

  lemma OwnSample(c: Channel, audap: bool, napnav: bool, irq: bool, word: nat)
    requires -128 <= c.sample <= 127
    ensures var d := Own(c, audap, napnav, irq, word);
            -128 <= d.sample <= 127 && d.vol == c.vol && (d.nextdat == c.nextdat || d.nextdat == word)
  {
    SignedByte(c.dat / 256);
    SignedByte(c.nextdat / 256);
    hide Signed8;
  }

  lemma SignedByte(x: nat)
    ensures -128 <= Signed8(x) <= 127
  {
  }

  lemma AttachLoud(c: Channel, right: Channel, audav: bool, audap: bool, irq: bool, v: nat)
    requires LoudChannel(c, v) && LoudChannel(right, v) && (audav ==> v >= 0xFFFF)
    ensures LoudChannel(Attach(c, right, audav, audap, irq), v)
  {
    AttachKeeps(c, right, audav, audap, irq);
  }

  lemma HandleLoud(s: Audio, nr: nat, v: nat)
    requires nr < 4 && |s.ram| > 0 && Loud(s, v)
    ensures Loud(Handle(s, nr), v)
  {
    hide Raises, Own, Attach, Wget, LoudChannel;
    var c, irq, audav, audap := s.ch[nr], nr in s.intreq, nr in s.adkVol, nr in s.adkPer;
    OwnLoud(c, audap, (!audav && !audap) || audav, irq, Wget(s.ram, c.pt), v);
    if nr < 3 {
      AttachLoud(c, s.ch[nr + 1], audav, audap, irq, v);
    }
  }

  lemma {:induction false} HandleFromLoud(s: Audio, nr: nat, v: nat)
    requires nr <= 4 && |s.ram| > 0 && Loud(s, v)
    ensures Loud(HandleFrom(s, nr), v)
    decreases 4 - nr
  {
    hide Handle, Loud;
    assert |s.ch| == 4 by { FourChannels(s, v); }
    if nr < 4 {
      HandleKeeps(s, nr);
      HandleLoud(s, nr, v);
      HandleFromLoud(if s.ch[nr].evtime == 0 && Busy(s.ch[nr]) then Handle(s, nr) else s, nr + 1, v);
    }
  }

  lemma FourChannels(s: Audio, v: nat)
    requires Loud(s, v)
    ensures |s.ch| == 4
  {
  }

  lemma StepLoud(s: Audio, n: nat, v: nat)
    requires Valid(s) && Loud(s, v)
    ensures Loud(Step(s, n), v)
  {
    hide HandleFrom, Rounded, LoudChannel, AdvanceChannel, Emptied, Average;
    forall i | 0 <= i < 4 ensures LoudChannel(AdvanceChannel(s.ch[i], n), v)
      && LoudChannel(Emptied(AdvanceChannel(s.ch[i], n)), v) {
      AdvanceLoud(s.ch[i], v, n);
      EmptiedLoud(AdvanceChannel(s.ch[i], n), v);
    }
    var a := Advance(s, n);
    HandleFromLoud(if Rounded(s.next) == n then Emit(a) else a, 0, v);
  }

  lemma EmptiedLoud(c: Channel, v: nat)
    requires LoudChannel(c, v)
    ensures LoudChannel(Emptied(c), v)
  {
  }

  lemma {:induction false} UpdateLoud(s: Audio, n: nat, v: nat)
    requires Valid(s) && Loud(s, v)
    ensures Loud(Update(s, n), v)
    decreases n, if Horizon(s) == 0 then 1 else 0
  {
    hide *;
    if n == 0 {
      NoCycles(s);
    } else {
      FirstRound(s, n);
      var b := First(s, n);
      StepLoud(s, b, v);
      UpdateLoud(Step(s, b), n - b, v);
    }
  }

  /** The accumulators fit C's int at any time if 128 * volume * (interval + 1) does: for volumes
      up to 64 at every rate above 13 samples a second, with volume attachment from 13910 on. */
  lemma AccumulatorsFit(s: Audio, n: nat, m: nat, v: nat)
    requires Ready(s) && AtCycle(s, n) && Loud(s, v)
    requires 128 * v * (s.interval.Floor + 1) < 0x8000_0000
    ensures Valid(s)
    ensures var r := Update(s, m);
            |r.ch| == 4 && forall i :: 0 <= i < 4 ==> -0x8000_0000 < r.ch[i].accum < 0x8000_0000
  {
    hide *;
    NotBehind(s);
    UpdateIsCycles(s, m);
    UpdateClock(s, n, m);
    UpdateLoud(s, m, v);
    LoudFits(Update(s, m), n + m, v);
  }

  lemma LoudFits(r: Audio, n: nat, v: nat)
    requires Ready(r) && AtCycle(r, n) && Loud(r, v)
    requires 128 * v * (r.interval.Floor + 1) < 0x8000_0000
    ensures forall i :: 0 <= i < 4 ==> -0x8000_0000 < r.ch[i].accum < 0x8000_0000
  {
    WindowBound(r, n);
    hide Ready, AtCycle, LoudChannel;
    forall i | 0 <= i < 4 ensures -0x8000_0000 < r.ch[i].accum < 0x8000_0000 {
      ChannelFits(r.ch[i], v, r.interval.Floor + 1);
    }
  }

  lemma WindowBound(r: Audio, n: nat)
    requires Ready(r) && AtCycle(r, n)
    ensures |r.ch| == 4 && forall i :: 0 <= i < 4 ==> r.ch[i].time <= r.interval.Floor + 1
  {
    NotBehind(r);
    SamplesSoFar(r, n);
    NextDue(|r.out|, r.interval);
    hide Due, Times, Valid, Ready;
  }

  lemma ChannelFits(c: Channel, v: nat, window: nat)
    requires LoudChannel(c, v) && c.time <= window && 128 * v * window < 0x8000_0000
    ensures -0x8000_0000 < c.accum < 0x8000_0000
  {
    Widen(128 * v, c.time, window);
  }

  lemma Widen(a: nat, x: nat, y: nat)
    requires x <= y
    ensures a * x <= a * y
  {
  }

  // ------------------------------------------------------------------ whole runs

  /** The register writes and the sound data fetch at the start of a line; each calls
      update_audio before it changes anything. */
  datatype Change =
    | Period(nr: nat, v: nat) | Volume(nr: nat, v: nat) | Length(nr: nat, v: nat)
    | LocHigh(nr: nat, v: nat) | LocLow(nr: nat, v: nat) | Data(nr: nat, v: nat)
    | Dma(on: set<int>, toHsync: nat) | Adk(vol: set<int>, per: set<int>) | Fetch

  predicate ChangeOk(w: Change) {
    match w
    case Dma(on, _) => true
    case Adk(_, _) => true
    case Fetch => true
    case _ => w.nr < 4 && w.v < 0x1_0000
  }

  /** AUDxPER: zero is the longest period, and no period is shorter than 16. */
  function ClampPeriod(v: nat): (r: nat)
    ensures r >= 16
  {
    if v == 0 then 65535 else if v < 16 then 16 else v
  }

  function DmaChannel(c: Channel, on: bool, toHsync: nat): (r: Channel)
    ensures (ValidChannel(c) ==> ValidChannel(r)) && r.time == c.time
  {
    var d := c.(dmaen := on);
    if on then
      if c.state == 0 then d.(state := 1, pt := c.lc, wlen := c.len, written := true, evtime := toHsync) else d
    else if c.state == 1 || c.state == 5 then d.(state := 0, sample := 0) else d
  }

  lemma DmaDone(s: Audio, on: set<int>, toHsync: nat, ch: seq<Channel>)
    requires Valid(s) && |ch| == |s.ch| == 4 && ChangeOk(Dma(on, toHsync))
    requires forall i :: 0 <= i < 4 ==> ch[i] == DmaChannel(s.ch[i], i in on, toHsync)
    ensures s.(ch := ch) == Apply(s, Dma(on, toHsync))
  {
    FourInAll(s);
    hide Valid, DmaChannel;
    assert ch == ChangedChannels(s, Dma(on, toHsync));
  }

  lemma FourInAll(s: Audio)
    requires Valid(s)
    ensures |s.ch| == 4 && |s.ram| > 0
  {
  }

  function FetchChannel(c: Channel, word: nat): (r: Channel)
    ensures (ValidChannel(c) ==> ValidChannel(r)) && r.time == c.time
  {
    if !c.written then c
    else
      var d := c.(written := false, nextdat := word, pt := if c.wlen != 1 then c.pt + 2 else c.pt);
      if c.state != 2 && c.state != 3 then d
      else if c.wlen == 1 then d.(pt := c.lc, wlen := c.len, intreq2 := true)
      else d.(wlen := (c.wlen - 1) % 0x1_0000)
  }

  /** n sound data fetches, each asked for by the channel, with whatever words are there. */
  function Fetches(c: Channel, words: seq<nat>): (r: Channel) {
    if words == [] then c
    else FetchChannel(Fetches(c, words[..|words| - 1]).(written := true), words[|words| - 1])
  }

  /** The words of the sample that are still to be fetched; a length of zero stands for the longest one. */
  function WordsLeft(wlen: nat): nat { if wlen == 0 then 0x1_0000 else wlen }

  /** A playing channel fetches word after word, and with the last word of its sample it goes back to the
      location and length it has latched by then, with an interrupt pending. */
  lemma {:induction false} SampleRepeats(c: Channel, words: seq<nat>)
    requires (c.state == 2 || c.state == 3) && c.wlen < 0x1_0000 && 0 < |words| <= WordsLeft(c.wlen)
    ensures var r := Fetches(c, words);
            && r.nextdat == words[|words| - 1] && !r.written
            && (r.state, r.evtime, r.per, r.vol, r.dat, r.lc, r.len)
               == (c.state, c.evtime, c.per, c.vol, c.dat, c.lc, c.len)
            && (if |words| < WordsLeft(c.wlen) then
                  r.pt == c.pt + 2 * |words| && WordsLeft(r.wlen) == WordsLeft(c.wlen) - |words|
                    && r.intreq2 == c.intreq2 && r.wlen < 0x1_0000
                else r.pt == c.lc && r.wlen == c.len && r.intreq2)
    decreases |words|
  {
    var n := |words| - 1;
    var before := Fetches(c, words[..n]);
    if n > 0 {
      SampleRepeats(c, words[..n]);
    } else {
      assert before == c;
    }
    FetchPlays(before.(written := true), words[n]);
    hide FetchChannel;
  }

  // ------------------------------------------------------------- a sample played by DMA

  /** The handler of the channel is due, or a new line begins. */
  datatype Sound = Handler(irq: bool) | Line

  /** A channel with the words that it has fetched since it started, and, for every word that it has taken to
      play, which one that was. */
  datatype Playing = Playing(c: Channel, words: seq<nat>, heard: seq<nat>)

  /** The channel is played by DMA and attached to no other. */
  function Play(p: Playing, ram: seq<nat>, e: Sound): (r: Playing)
    requires |ram| > 0 && p.words != []
    ensures r.words != []
  {
    var word := Wget(ram, p.c.pt);
    match e
    case Handler(irq) =>
      Playing(Own(p.c, false, true, irq, word), p.words, if p.c.state == 3 then p.heard + [|p.words| - 1] else p.heard)
    case Line =>
      Playing(FetchChannel(p.c, word), if p.c.written then p.words + [word] else p.words, p.heard)
  }

  function PlayAll(p: Playing, ram: seq<nat>, es: seq<Sound>): (r: Playing)
    requires |ram| > 0 && p.words != []
    ensures r.words != []
  {
    if es == [] then p else Play(PlayAll(p, ram, es[..|es| - 1]), ram, es[|es| - 1])
  }

  /** Switching DMA on, the handler and the fetch at the next line, and the handler at the one after that. */
  function Started(c: Channel, ram: seq<nat>, toHsync: nat): (p: Playing)
    requires |ram| > 0
    ensures p.words != []
  {
    var on := DmaChannel(c, true, toHsync);
    var first := Own(on, false, true, false, Wget(ram, on.pt));
    var fetched := FetchChannel(first, Wget(ram, first.pt));
    var r := Own(fetched, false, true, false, Wget(ram, fetched.pt));
    Playing(r, [r.dat], [0])
  }

  /** Where in its sample the j-th word of a run is. */
  function Place(len: nat, j: nat): (k: nat)
    ensures k < WordsLeft(len)
  {
    if len == 2 && j == 1 then 0 else j % WordsLeft(len)
  }

  predicate InPlace(words: seq<nat>, ram: seq<nat>, lc: nat, len: nat)
    requires |ram| > 0
  {
    forall j :: 0 <= j < |words| ==> words[j] == Wget(ram, lc + 2 * Place(len, j))
  }

  /** Each of these is the one before it or the next. */
  predicate NoneLeftOut(heard: seq<nat>) {
    forall i :: 0 < i < |heard| ==> heard[i] == heard[i - 1] || heard[i] == heard[i - 1] + 1
  }

  /** The words fetched are those of the sample, over and over; they are taken one after the other, none is
      left out, and what sounds is the high and then the low byte of the one taken last. */
  predicate PlaysOn(p: Playing, ram: seq<nat>, lc: nat, len: nat)
    requires |ram| > 0
  {
    && p.words != [] && p.heard != [] && p.heard[0] == 0
    && InPlace(p.words, ram, lc, len) && NoneLeftOut(p.heard)
    && var last := p.heard[|p.heard| - 1];
      && (last == |p.words| - 1 || last == |p.words| - 2)
      && (p.c.state == 2 || p.c.state == 3)
      && p.c.sample == Signed8(if p.c.state == 2 then p.words[last] / 256 else p.words[last])
  }

  /** What else a playing channel keeps. */
  predicate Plays(p: Playing, ram: seq<nat>, lc: nat, len: nat)
    requires |ram| > 0
  {
    && PlaysOn(p, ram, lc, len) && p.c.dmaen && p.c.lc == lc && p.c.len == len && len < 0x1_0000
    && p.c.nextdat == p.words[|p.words| - 1] && p.c.dat == p.words[p.heard[|p.heard| - 1]]
    && p.heard[|p.heard| - 1] == (if p.c.written then |p.words| - 1 else |p.words| - 2)
    && p.c.pt == lc + 2 * Place(len, |p.words|) && p.c.wlen < 0x1_0000
    && WordsLeft(p.c.wlen) == WordsLeft(len) - |p.words| % WordsLeft(len)
  }

  /** However handlers and lines follow each other, a channel that DMA is switched on for plays its sample
      again and again. */
  lemma SampleLoops(c: Channel, ram: seq<nat>, toHsync: nat, es: seq<Sound>)
    requires c.state == 0 && c.len < 0x1_0000 && |ram| > 0
    ensures PlaysOn(PlayAll(Started(c, ram, toHsync), ram, es), ram, c.lc, c.len)
  {
    StartPlays(c, ram, toHsync);
    PlayAllKeeps(Started(c, ram, toHsync), ram, c.lc, c.len, es);
  }

  lemma StartPlays(c: Channel, ram: seq<nat>, toHsync: nat)
    requires c.state == 0 && c.len < 0x1_0000 && |ram| > 0
    ensures Plays(Started(c, ram, toHsync), ram, c.lc, c.len)
  {
    StartedIs(c, ram, toHsync);
    hide Started, Wget, Signed8;
    FirstPlaces(c.len);
  }

  /** After the first word. */
  function FirstLeft(len: nat): nat { if len == 1 then 1 else (len + 0xFFFF) % 0x1_0000 }

  lemma StartedIs(c: Channel, ram: seq<nat>, toHsync: nat)
    requires c.state == 0 && c.len < 0x1_0000 && |ram| > 0
    ensures var p, word := Started(c, ram, toHsync), Wget(ram, c.lc);
            && p.words == [word] && p.heard == [0] && p.c.state == 2 && p.c.dmaen && p.c.written
            && p.c.lc == c.lc && p.c.len == c.len && p.c.dat == p.c.nextdat == word
            && p.c.sample == Signed8(word / 256) && p.c.wlen == FirstLeft(c.len)
            && p.c.pt == c.lc + if FirstLeft(c.len) == 1 then 0 else 2
  {
    hide Wget, Signed8;
    assert c.len > 0 ==> (c.len + 0xFFFF) % 0x1_0000 == c.len - 1;
  }

  lemma FirstPlaces(len: nat)
    requires len < 0x1_0000
    ensures FirstLeft(len) < 0x1_0000 && WordsLeft(FirstLeft(len)) == WordsLeft(len) - 1 % WordsLeft(len)
    ensures Place(len, 0) == 0 && 2 * Place(len, 1) == if FirstLeft(len) == 1 then 0 else 2
  {
  }

  lemma {:induction false} PlayAllKeeps(p: Playing, ram: seq<nat>, lc: nat, len: nat, es: seq<Sound>)
    requires |ram| > 0 && p.words != [] && Plays(p, ram, lc, len)
    ensures Plays(PlayAll(p, ram, es), ram, lc, len)
  {
    hide Plays, Play;
    if es != [] {
      PlayAllKeeps(p, ram, lc, len, es[..|es| - 1]);
      PlayKeeps(PlayAll(p, ram, es[..|es| - 1]), ram, lc, len, es[|es| - 1]);
    }
  }

  lemma PlayKeeps(p: Playing, ram: seq<nat>, lc: nat, len: nat, e: Sound)
    requires |ram| > 0 && p.words != [] && Plays(p, ram, lc, len)
    ensures Plays(Play(p, ram, e), ram, lc, len)
  {
    hide Plays, Play;
    match e
    case Handler(irq) => HandlerKeeps(p, ram, lc, len, irq);
    case Line => LineKeeps(p, ram, lc, len);
  }

  lemma HandlerKeeps(p: Playing, ram: seq<nat>, lc: nat, len: nat, irq: bool)
    requires |ram| > 0 && p.words != [] && Plays(p, ram, lc, len)
    ensures Plays(Play(p, ram, Handler(irq)), ram, lc, len)
  {
    OwnPlays(p.c, irq, Wget(ram, p.c.pt));
    OneMoreHeard(p.heard, |p.words| - 1);
    hide Own, Wget, Signed8, Place, FetchChannel, InPlace, NoneLeftOut, WordsLeft;
  }

  lemma LineKeeps(p: Playing, ram: seq<nat>, lc: nat, len: nat)
    requires |ram| > 0 && p.words != [] && Plays(p, ram, lc, len)
    ensures Plays(Play(p, ram, Line), ram, lc, len)
  {
    FetchPlays(p.c, Wget(ram, p.c.pt));
    OneMoreWord(p.words, ram, lc, len);
    NextPlace(len, |p.words|, p.c.wlen);
    hide Own, Wget, Signed8, Place, FetchChannel, InPlace, NoneLeftOut;
  }

  /** The handler of a channel that is played by DMA. */
  lemma OwnPlays(c: Channel, irq: bool, word: nat)
    requires c.dmaen && (c.state == 2 || c.state == 3)
    ensures Own(c, false, true, irq, word) ==
            if c.state == 2 then c.(evtime := c.per, state := 3, sample := Signed8(c.dat))
            else c.(evtime := c.per, state := 2, sample := Signed8(c.nextdat / 256), dat := c.nextdat,
                    intreq2 := false, written := true)
  {
    hide Signed8;
  }

  /** The fetch of a channel that is playing. */
  lemma FetchPlays(c: Channel, word: nat)
    requires (c.state == 2 || c.state == 3) && c.wlen < 0x1_0000
    ensures FetchChannel(c, word) ==
            if !c.written then c
            else if c.wlen == 1 then c.(written := false, nextdat := word, pt := c.lc, wlen := c.len, intreq2 := true)
            else c.(written := false, nextdat := word, pt := c.pt + 2, wlen := if c.wlen == 0 then 0xFFFF else c.wlen - 1)
  {
  }

  lemma OneMoreHeard(heard: seq<nat>, next: nat)
    requires heard != [] && NoneLeftOut(heard)
    ensures next == heard[|heard| - 1] || next == heard[|heard| - 1] + 1 ==> NoneLeftOut(heard + [next])
  {
  }

  lemma OneMoreWord(words: seq<nat>, ram: seq<nat>, lc: nat, len: nat)
    requires |ram| > 0 && InPlace(words, ram, lc, len)
    ensures InPlace(words + [Wget(ram, lc + 2 * Place(len, |words|))], ram, lc, len)
  {
    hide Wget, Place;
  }

  /** One word further, or back to the start. */
  lemma NextPlace(len: nat, k: nat, wlen: nat)
    requires len < 0x1_0000 && wlen < 0x1_0000 && k > 0 && WordsLeft(wlen) == WordsLeft(len) - k % WordsLeft(len)
    ensures wlen == 1 ==> Place(len, k + 1) == 0 && (k + 1) % WordsLeft(len) == 0
    ensures wlen != 1 ==> Place(len, k + 1) == Place(len, k) + 1 && (k + 1) % WordsLeft(len) == k % WordsLeft(len) + 1
  {
    var m := WordsLeft(len);
    Around(k, m);
    hide WordsLeft;
  }

  lemma Around(k: nat, m: nat)
    requires m > 0
    ensures (k + 1) % m == if k % m == m - 1 then 0 else k % m + 1
  {
    var q, r := k / m, k % m;
    assert k == m * q + r;
    if r == m - 1 {
      assert m * (q + 1) == m * q + m;
      Remainder(k + 1, m, q + 1, 0);
    } else {
      Remainder(k + 1, m, q, r + 1);
    }
  }

  lemma Remainder(x: nat, m: nat, q: nat, r: nat)
    requires m > 0 && x == m * q + r && r < m
    ensures x % m == r
  {
    var d := q - x / m;
    assert m * d == x % m - r by {
      assert x == m * (x / m) + x % m;
      assert m * d == m * q - m * (x / m);
    }
    AtLeastOne(m, d);
  }

  lemma AtLeastOne(m: int, d: int)
    requires m > 0
    ensures (d > 0 ==> m * d >= m) && (d < 0 ==> m * d <= -m)
  {
  }

  /** Only a sample of two words is not played as it should: its second word is left out the first time. */
  lemma PlayedInOrderIff(c: Channel)
    requires c.state == 0 && c.len < 0x1_0000
    ensures c.len != 2 <==>
              forall ram: seq<nat>, toHsync: nat, es: seq<Sound> ::
                |ram| > 0 ==> InOrder(PlayAll(Started(c, ram, toHsync), ram, es), ram, c.lc, c.len)
  {
    hide Started, PlayAll, InOrder;
    if c.len != 2 {
      forall ram: seq<nat>, toHsync: nat, es: seq<Sound> | |ram| > 0
        ensures InOrder(PlayAll(Started(c, ram, toHsync), ram, es), ram, c.lc, c.len)
      {
        SampleLoops(c, ram, toHsync, es);
        AllInPlace(PlayAll(Started(c, ram, toHsync), ram, es), ram, c.lc, c.len);
      }
    } else {
      SecondWordLeftOut(c);
    }
  }

  lemma AllInPlace(p: Playing, ram: seq<nat>, lc: nat, len: nat)
    requires |ram| > 0 && len != 2 && PlaysOn(p, ram, lc, len)
    ensures InOrder(p, ram, lc, len)
  {
    hide Wget;
  }

  /** In a memory of alternating words the first two words fetched are the same. */
  lemma SecondWordLeftOut(c: Channel)
    requires c.state == 0 && c.len == 2
    ensures !InOrder(PlayAll(Started(c, [0, 1], 0), [0, 1], [Line]), [0, 1], c.lc, 2)
  {
    var ram := [0, 1];
    var start := Started(c, ram, 0);
    assert FirstLeft(2) == 1;
    StartedIs(c, ram, 0);
    OneSound(start, ram, Line);
    OtherWord(c.lc);
    hide Started, PlayAll, Wget, Own, FetchChannel;
    var p := PlayAll(start, ram, [Line]);
    assert p.words == [Wget(ram, c.lc), Wget(ram, c.lc)];
    assert p.words[1] != Wget(ram, c.lc + 2 * (1 % WordsLeft(2)));
  }

  lemma OneSound(p: Playing, ram: seq<nat>, e: Sound)
    requires |ram| > 0 && p.words != []
    ensures PlayAll(p, ram, [e]) == Play(p, ram, e)
  {
    hide Play;
    var es := [e];
    assert es[..|es| - 1] == [];
    assert PlayAll(p, ram, []) == p;
  }

  lemma OtherWord(lc: nat)
    ensures Wget([0, 1], lc) != Wget([0, 1], lc + 2)
  {
    assert (lc + 2) / 2 == lc / 2 + 1;
  }

  /** The j-th word is the one at place j, counted around. */
  predicate InOrder(p: Playing, ram: seq<nat>, lc: nat, len: nat)
    requires |ram| > 0
  {
    forall j :: 0 <= j < |p.words| ==> p.words[j] == Wget(ram, lc + 2 * (j % WordsLeft(len)))
  }

  function ChangeChannel(c: Channel, w: Change, irq: bool): (r: Channel)
    requires !w.Dma? && !w.Adk? && !w.Fetch?
    ensures (ValidChannel(c) ==> ValidChannel(r)) && r.time == c.time
  {
    match w
    case Period(_, v) => c.(per := ClampPeriod(v))
    case Volume(_, v) => c.(vol := if v / 64 % 2 == 1 then 63 else v % 64)
    case Length(_, v) => c.(len := v)
    case LocHigh(_, v) => c.(lc := c.lc % 0x1_0000 + v * 0x1_0000)
    case LocLow(_, v) => c.(lc := c.lc / 0x1_0000 * 0x1_0000 + v / 2 * 2)
    case Data(_, v) =>
      var d := c.(dat := v);
      if c.state == 0 && !irq then d.(state := 2, evtime := c.per) else d
  }

  /** The four channels after a change. */
  function ChangedChannels(s: Audio, w: Change): (r: seq<Channel>)
    requires |s.ch| == 4 && |s.ram| > 0 && ChangeOk(w)
    ensures |r| == 4
    ensures (forall i :: 0 <= i < 4 ==> ValidChannel(s.ch[i])) ==> forall i :: 0 <= i < 4 ==> ValidChannel(r[i])
    ensures forall i :: 0 <= i < 4 ==> r[i].time == s.ch[i].time
  {
    hide ValidChannel, DmaChannel, FetchChannel, ChangeChannel;
    if w.Dma? then seq(4, i requires 0 <= i < 4 => DmaChannel(s.ch[i], i in w.on, w.toHsync))
    else if w.Fetch? then seq(4, i requires 0 <= i < 4 => FetchChannel(s.ch[i], Wget(s.ram, s.ch[i].pt)))
    else if w.Adk? then
      MutingIsValid();
      seq(4, i requires 0 <= i < 4 => s.ch[i].(muted := i in w.vol || i in w.per))
    else s.ch[w.nr := ChangeChannel(s.ch[w.nr], w, w.nr in s.intreq)]
  }

  lemma MutingIsValid()
    ensures forall c, on :: ValidChannel(c) ==> ValidChannel(c.(muted := on))
  {
  }

  function Apply(s: Audio, w: Change): (r: Audio)
    requires Valid(s) && ChangeOk(w)
    ensures Valid(r) && r.next == s.next && r.interval == s.interval && r.out == s.out && r.divOk == s.divOk
    ensures |s.ch| == |r.ch| == 4 && forall i :: 0 <= i < 4 ==> r.ch[i].time == s.ch[i].time
  {
    hide ChangedChannels;
    s.(ch := ChangedChannels(s, w),
       adkVol := if w.Adk? then w.vol else s.adkVol,
       adkPer := if w.Adk? then w.per else s.adkPer,
       intreq := if w.Data? && s.ch[w.nr].state == 0 && w.nr !in s.intreq then s.intreq + {w.nr} else s.intreq)
  }

  /** The audio globals together with the cycle counter and last_audio_cycles. */
  datatype Core = Core(au: Audio, cycles: nat, last: nat)

  /** What can happen to the audio side: cycles pass, somebody calls update_audio, something is
      changed, or the interrupt requests are written, which does not call update_audio. */
  datatype Op = Wait(n: nat) | Sync | Write(w: Change) | Irq(to: set<int>)

  predicate CoreOk(m: Core) { Valid(m.au) && m.last <= m.cycles }

  predicate OpOk(op: Op) { op.Write? ==> ChangeOk(op.w) }

  function Synced(m: Core): (r: Core)
    requires CoreOk(m)
    ensures CoreOk(r)
  {
    m.(au := Update(m.au, m.cycles - m.last), last := m.cycles)
  }

  function Do(m: Core, op: Op): (r: Core)
    requires CoreOk(m) && OpOk(op)
    ensures CoreOk(r)
  {
    match op
    case Wait(n) => m.(cycles := m.cycles + n)
    case Sync => Synced(m)
    case Write(w) => Synced(m).(au := Apply(Synced(m).au, w))
    case Irq(to) => m.(au := m.au.(intreq := to))
  }

  function Run(m: Core, ops: seq<Op>): (r: Core)
    requires CoreOk(m) && forall op :: op in ops ==> OpOk(op)
    ensures CoreOk(r)
    decreases |ops|
  {
    if ops == [] then m else Run(Do(m, ops[0]), ops[1..])
  }

  /** The audio state that a listener would find now. */
  function View(m: Core): (r: Audio)
    requires CoreOk(m)
    ensures Valid(r)
  {
    Update(m.au, m.cycles - m.last)
  }

  function EagerDo(s: Audio, op: Op): (r: Audio)
    requires Valid(s) && OpOk(op)
    ensures Valid(r)
  {
    match op
    case Wait(n) => Update(s, n)
    case Sync => s
    case Write(w) => Apply(s, w)
    case Irq(to) => s.(intreq := to)
  }

  /** The reference: a machine that is always up to date. */
  function Eager(s: Audio, ops: seq<Op>): (r: Audio)
    requires Valid(s) && forall op :: op in ops ==> OpOk(op)
    ensures Valid(r)
    decreases |ops|
  {
    if ops == [] then s else Eager(EagerDo(s, ops[0]), ops[1..])
  }

  // ------------------------------------------- interrupt writes and handlers that are due

  /** Writing `to` to the interrupt requests before the handler of channel nr is as good as writing it
      afterwards: the handler requests nothing that is not in `to` anyway, and a channel that is played
      by the CPU finds the same answer to its question. */
  predicate Harmless(s: Audio, nr: nat, to: set<int>)
    requires nr < 4 && |s.ch| == 4
  {
    var c := s.ch[nr];
    var audav, audap := nr in s.adkVol, nr in s.adkPer;
    var napnav := (!audav && !audap) || audav;
    && (Raises(c, audap, napnav, nr in to) ==> nr in to)
    && (c.state == 3 && !c.dmaen ==> (nr in to <==> nr in s.intreq))
  }

  /** Exactly then the two orders agree. */
  lemma HandlerCommutesIff(s: Audio, nr: nat, to: set<int>)
    requires nr < 4 && |s.ch| == 4 && |s.ram| > 0
    ensures Handle(s.(intreq := to), nr) == Handle(s, nr).(intreq := to) <==> Harmless(s, nr, to)
    ensures !Harmless(s, nr, to) ==> Parted(Handle(s.(intreq := to), nr), Handle(s, nr), to, nr)
  {
    hide Signed8, Wget;
    var c, q := s.ch[nr], s.(intreq := to);
    var audav, audap := nr in s.adkVol, nr in s.adkPer;
    var napnav := (!audav && !audap) || audav;
    OwnIrq(c, audap, napnav, nr in to, nr in s.intreq, Wget(s.ram, c.pt));
    assert Handle(q, nr).ch[nr] == Own(c, audap, napnav, nr in to, Wget(s.ram, c.pt));
    assert Handle(s, nr).ch[nr] == Own(c, audap, napnav, nr in s.intreq, Wget(s.ram, c.pt));
    if Harmless(s, nr, to) && nr < 3 {
      assert Attach(c, s.ch[nr + 1], audav, audap, nr in to) == Attach(c, s.ch[nr + 1], audav, audap, nr in s.intreq);
    }
  }

  lemma OwnIrq(c: Channel, audap: bool, napnav: bool, a: bool, b: bool, word: nat)
    ensures !(c.state == 3 && !c.dmaen) || a == b ==> Own(c, audap, napnav, a, word) == Own(c, audap, napnav, b, word)
    ensures c.state == 3 && !c.dmaen && a != b ==>
              var x, y := Own(c, audap, napnav, a, word), Own(c, audap, napnav, b, word);
              (x.state == 0 && y.state == 2) || (x.state == 2 && y.state == 0)
  {
  }

  /** x, where `to` was written first, and y, where it is written last, differ in channel nr: it has
      requested an interrupt in x that is not in `to`, or it has just stopped in one of the two only. */
  predicate Parted(x: Audio, y: Audio, to: set<int>, nr: nat) {
    && nr < 4 && |x.ch| == |y.ch| == 4
    && ((nr in x.intreq && nr !in to)
        || (x.ch[nr].state == 0 && y.ch[nr].state == 2) || (x.ch[nr].state == 2 && y.ch[nr].state == 0))
  }

  /** The same for all handlers that are due, from channel nr on. */
  predicate HandlersHarmless(s: Audio, nr: nat, to: set<int>)
    requires nr <= 4 && |s.ch| == 4 && |s.ram| > 0
    decreases 4 - nr
  {
    if nr == 4 then true
    else if s.ch[nr].evtime == 0 && Busy(s.ch[nr]) then
      HandleKeeps(s, nr);
      Harmless(s, nr, to) && HandlersHarmless(Handle(s, nr), nr + 1, to)
    else HandlersHarmless(s, nr + 1, to)
  }

  lemma {:induction false} HandlersCommuteIff(s: Audio, nr: nat, to: set<int>) returns (k: nat)
    requires nr <= 4 && |s.ch| == 4 && |s.ram| > 0
    ensures HandleFrom(s.(intreq := to), nr) == HandleFrom(s, nr).(intreq := to) <==> HandlersHarmless(s, nr, to)
    ensures !HandlersHarmless(s, nr, to) ==> Parted(HandleFrom(s.(intreq := to), nr), HandleFrom(s, nr), to, k)
    decreases 4 - nr
  {
    hide Handle, Harmless;
    var q := s.(intreq := to);
    k := 0;
    if nr < 4 {
      if s.ch[nr].evtime == 0 && Busy(s.ch[nr]) {
        HandlerCommutesIff(s, nr, to);
        HandleKeeps(s, nr);
        HandleKeeps(q, nr);
        if Harmless(s, nr, to) {
          k := HandlersCommuteIff(Handle(s, nr), nr + 1, to);
        } else {
          k := nr;
          HandlersLeave(Handle(s, nr), nr + 1, nr);
          HandlersLeave(Handle(q, nr), nr + 1, nr);
        }
      } else {
        k := HandlersCommuteIff(s, nr + 1, to);
      }
    }
  }

  /** Requests are only ever added, and earlier channels and idle ones stay as they are. */
  lemma {:induction false} HandlersLeave(s: Audio, nr: nat, i: nat)
    requires nr <= 4 && |s.ch| == 4 && |s.ram| > 0 && i < 4
    ensures s.intreq <= HandleFrom(s, nr).intreq
    ensures i < nr || s.ch[i].state == 0 ==> HandleFrom(s, nr).ch[i].state == s.ch[i].state
    ensures s.ch[i].state == 2 ==> HandleFrom(s, nr).ch[i].state != 0
    decreases 4 - nr
  {
    if nr < 4 {
      var t := if s.ch[nr].evtime == 0 && Busy(s.ch[nr]) then Handle(s, nr) else s;
      HandleKeeps(s, nr);
      assert s.intreq <= t.intreq && (i == nr && s.ch[i].state == 2 ==> t.ch[i].state == 2 || t.ch[i].state == 3);
      hide Handle;
      HandlersLeave(t, nr + 1, i);
    }
  }

  /** One round: those of the handlers that it calls. */
  predicate RoundHarmless(s: Audio, n: nat, to: set<int>)
    requires Valid(s)
  {
    HandlersHarmless(BeforeHandlers(s, n), 0, to)
  }

  function BeforeHandlers(s: Audio, n: nat): (r: Audio)
    requires |s.ch| == 4
    ensures |r.ch| == 4 && r.ram == s.ram && r.intreq == s.intreq
    ensures forall i :: 0 <= i < 4 ==> r.ch[i].state == s.ch[i].state
  {
    if Rounded(s.next) == n then Emit(Advance(s, n)) else Advance(s, n)
  }

  lemma RoundCommutesIff(s: Audio, n: nat, to: set<int>) returns (k: nat)
    requires Valid(s) && Valid(s.(intreq := to))
    ensures Step(s.(intreq := to), n) == Step(s, n).(intreq := to) <==> RoundHarmless(s, n, to)
    ensures !RoundHarmless(s, n, to) ==> Parted(Step(s.(intreq := to), n), Step(s, n), to, k)
  {
    BeforeWithout(s, n, to);
    RoundIs(s, n);
    RoundIs(s.(intreq := to), n);
    RoundHarmlessIs(s, n, to);
    hide *;
    k := HandlersCommuteIff(BeforeHandlers(s, n), 0, to);
  }

  lemma BeforeWithout(s: Audio, n: nat, to: set<int>)
    requires |s.ch| == 4
    ensures BeforeHandlers(s.(intreq := to), n) == BeforeHandlers(s, n).(intreq := to)
  {
    hide AdvanceChannel, Average, Rounded;
  }

  lemma RoundIs(s: Audio, n: nat)
    requires Valid(s)
    ensures |s.ch| == 4 && |BeforeHandlers(s, n).ram| > 0 && Step(s, n) == HandleFrom(BeforeHandlers(s, n), 0)
  {
    hide HandleFrom, Rounded;
  }

  lemma RoundHarmlessIs(s: Audio, n: nat, to: set<int>)
    requires Valid(s)
    ensures |s.ch| == 4 && |BeforeHandlers(s, n).ram| > 0
    ensures RoundHarmless(s, n, to) == HandlersHarmless(BeforeHandlers(s, n), 0, to)
  {
    hide HandlersHarmless;
  }

  /** A round cannot bring back together what has parted in the round before. */
  lemma StayParted(x: Audio, y: Audio, n: nat, to: set<int>, k: nat)
    requires Valid(x) && Valid(y) && Parted(x, y, to, k)
    ensures Step(x, n) != Step(y, n).(intreq := to)
  {
    assert Step(x, n) == HandleFrom(BeforeHandlers(x, n), 0) && Step(y, n) == HandleFrom(BeforeHandlers(y, n), 0);
    hide BeforeHandlers, HandleFrom, Valid;
    HandlersLeave(BeforeHandlers(x, n), 0, k);
    HandlersLeave(BeforeHandlers(y, n), 0, k);
  }

  /** Every handler that a call of update_audio for p cycles would run. */
  predicate UpdateHarmless(s: Audio, p: nat, to: set<int>)
    requires Valid(s)
    decreases p, if Horizon(s) == 0 then 1 else 0
  {
    if p == 0 then true
    else
      var b := First(s, p);
      FirstRound(s, p);
      RoundHarmless(s, b, to) && UpdateHarmless(Step(s, b), p - b, to)
  }

  lemma IrqLeavesClock(s: Audio, to: set<int>)
    requires Valid(s)
    ensures Valid(s.(intreq := to)) && Horizon(s.(intreq := to)) == Horizon(s)
  {
  }

  /** Then the write may come before the update or after it. */
  lemma {:induction false} UpdateCommutes(s: Audio, p: nat, to: set<int>, j: nat)
    requires Valid(s) && j <= p && UpdateHarmless(s, p, to)
    ensures Valid(s.(intreq := to)) && Update(s.(intreq := to), j) == Update(s, j).(intreq := to)
    decreases p, if Horizon(s) == 0 then 1 else 0
  {
    hide Valid, Horizon, Step, RoundHarmless, Update;
    var q := s.(intreq := to);
    IrqLeavesClock(s, to);
    if j == 0 {
      NoCycles(s);
      NoCycles(q);
    } else if j < First(s, p) {
      QuietUpdate(s, j);
      QuietUpdate(q, j);
    } else {
      var b := First(s, p);
      var k := RoundCommutesIff(s, b, to);
      FirstRound(s, j);
      FirstRound(q, j);
      FirstRound(s, p);
      UpdateCommutes(Step(s, b), p - b, to, j - b);
    }
  }

  /** And otherwise the order shows, if not at the end then in some cycle on the way. */
  lemma {:induction false} UpdateParts(s: Audio, p: nat, to: set<int>) returns (j: nat)
    requires Valid(s) && !UpdateHarmless(s, p, to)
    ensures Valid(s.(intreq := to)) && 0 < j <= p && Update(s.(intreq := to), j) != Update(s, j).(intreq := to)
    decreases p, if Horizon(s) == 0 then 1 else 0
  {
    hide Valid, Horizon, Step, RoundHarmless, Update, Parted;
    var q := s.(intreq := to);
    IrqLeavesClock(s, to);
    var b := First(s, p);
    var k := RoundCommutesIff(s, b, to);
    FirstRound(s, p);
    if RoundHarmless(s, b, to) {
      j := UpdateParts(Step(s, b), p - b, to);
      j := b + j;
      FirstRound(s, j);
      FirstRound(q, j);
    } else if b > 0 {
      j := b;
      FirstRound(s, b);
      FirstRound(q, b);
      NoCycles(Step(s, b));
      NoCycles(Step(q, b));
    } else {
      j := 1;
      PartedAtOnce(s, to, k);
    }
  }

  /** The order shows in some cycle if and only if some handler on the way is not harmless. */
  lemma UpdateCommutesIff(s: Audio, p: nat, to: set<int>)
    requires Valid(s)
    ensures Valid(s.(intreq := to))
    ensures UpdateHarmless(s, p, to) <==>
            forall j: nat :: j <= p ==> Update(s.(intreq := to), j) == Update(s, j).(intreq := to)
  {
    IrqLeavesClock(s, to);
    hide *;
    if UpdateHarmless(s, p, to) {
      forall j: nat | j <= p ensures Update(s.(intreq := to), j) == Update(s, j).(intreq := to) {
        UpdateCommutes(s, p, to, j);
      }
    } else {
      var j := UpdateParts(s, p, to);
    }
  }

  /** A round without cycles that parts them is followed by one of a single cycle. */
  lemma PartedAtOnce(s: Audio, to: set<int>, k: nat)
    requires Valid(s) && Valid(s.(intreq := to)) && Horizon(s) == 0
    requires Parted(Step(s.(intreq := to), 0), Step(s, 0), to, k)
    ensures Update(s.(intreq := to), 1) != Update(s, 1).(intreq := to)
  {
    hide Valid, Horizon, Step, Update, Parted;
    var q := s.(intreq := to);
    IrqLeavesClock(s, to);
    FirstRound(s, 1);
    FirstRound(q, 1);
    var x, y := Step(q, 0), Step(s, 0);
    FirstRound(x, 1);
    FirstRound(y, 1);
    NoCycles(Step(x, 1));
    NoCycles(Step(y, 1));
    StayParted(x, y, 1, to, k);
  }

  /** Sample output and counting alone never make the order show. */
  lemma {:induction false} NoHandlerDue(s: Audio, p: nat, to: set<int>)
    requires Valid(s) && forall i :: 0 <= i < 4 && Busy(s.ch[i]) ==> s.ch[i].evtime > p
    ensures UpdateHarmless(s, p, to)
    decreases p, if Horizon(s) == 0 then 1 else 0
  {
    hide Valid, Horizon, Step, RoundHarmless;
    if p > 0 {
      var b := First(s, p);
      FirstRound(s, p);
      NoHandlerCalled(s, b, to);
      NoHandlerDue(Step(s, b), p - b, to);
    }
  }

  lemma NoHandlerCalled(s: Audio, b: nat, to: set<int>)
    requires Valid(s) && forall i :: 0 <= i < 4 && Busy(s.ch[i]) ==> s.ch[i].evtime > b
    ensures RoundHarmless(s, b, to) && |Step(s, b).ch| == 4
    ensures forall i :: 0 <= i < 4 ==>
              Step(s, b).ch[i].state == s.ch[i].state && Step(s, b).ch[i].evtime == s.ch[i].evtime - b
  {
    var e := BeforeHandlers(s, b);
    assert Step(s, b) == HandleFrom(e, 0);
    assert forall i :: 0 <= i < 4 ==> e.ch[i].state == s.ch[i].state && e.ch[i].evtime == s.ch[i].evtime - b;
    hide BeforeHandlers, HandleFrom, HandlersHarmless, Step;
    NothingHarmful(e, 0, to);
    NothingDue(e, 0);
  }

  lemma {:induction false} NothingHarmful(s: Audio, nr: nat, to: set<int>)
    requires |s.ch| == 4 && |s.ram| > 0 && nr <= 4 && forall i :: 0 <= i < 4 && Busy(s.ch[i]) ==> s.ch[i].evtime > 0
    ensures HandlersHarmless(s, nr, to)
    decreases 4 - nr
  {
    if nr < 4 {
      NothingHarmful(s, nr + 1, to);
    }
  }

  /** Whenever the interrupt requests are written, all handlers that are due by then are harmless. */
  predicate IrqHarmless(m: Core, ops: seq<Op>)
    requires CoreOk(m) && forall op :: op in ops ==> OpOk(op)
    decreases |ops|
  {
    if ops == [] then true
    else
      && (ops[0].Irq? ==> UpdateHarmless(m.au, m.cycles - m.last, ops[0].to))
      && IrqHarmless(Do(m, ops[0]), ops[1..])
  }

  /** The lazy machine shows what the eager machine has, however often update_audio is called. */
  lemma {:induction false} RunIsEager(m: Core, ops: seq<Op>)
    requires CoreOk(m) && (forall op :: op in ops ==> OpOk(op)) && IrqHarmless(m, ops)
    ensures View(Run(m, ops)) == Eager(View(m), ops)
    decreases |ops|
  {
    hide Valid, Update, Apply, Horizon, UpdateHarmless;
    if ops != [] {
      assert OpOk(ops[0]);
      DoView(m, ops[0]);
      RunIsEager(Do(m, ops[0]), ops[1..]);
    }
  }

  /** One operation of the lazy machine as the listener sees it. */
  lemma DoView(m: Core, op: Op)
    requires CoreOk(m) && OpOk(op)
    requires op.Irq? ==> UpdateHarmless(m.au, m.cycles - m.last, op.to)
    ensures View(Do(m, op)) == EagerDo(View(m), op)
  {
    hide Valid, Update, Apply, Horizon, UpdateHarmless;
    var p := m.cycles - m.last;
    match op {
      case Wait(n) => UpdateAdds(m.au, p, n);
      case Sync => NoCycles(View(m));
      case Write(w) => NoCycles(Apply(View(m), w));
      case Irq(to) => UpdateCommutes(m.au, p, to, p);
    }
  }

  lemma QuietUpdate(s: Audio, p: nat)
    requires Valid(s) && 0 < p < Horizon(s)
    ensures Update(s, p) == Advance(s, p)
  {
    hide *;
    FirstRound(s, p);
    QuietStep(s, p);
    NoCycles(Step(s, p));
  }

  function WithoutSyncs(ops: seq<Op>): seq<Op> {
    if ops == [] then [] else (if ops[0].Sync? then [] else [ops[0]]) + WithoutSyncs(ops[1..])
  }

  lemma {:induction false} EagerIgnoresSyncs(s: Audio, ops: seq<Op>)
    requires Valid(s) && forall op :: op in ops ==> OpOk(op)
    ensures forall op :: op in WithoutSyncs(ops) ==> OpOk(op)
    ensures Eager(s, ops) == Eager(s, WithoutSyncs(ops))
    decreases |ops|
  {
    hide Valid, Update, Apply;
    if ops != [] {
      assert OpOk(ops[0]);
      var rest := WithoutSyncs(ops[1..]);
      EagerIgnoresSyncs(EagerDo(s, ops[0]), ops[1..]);
      if ops[0].Sync? {
        assert WithoutSyncs(ops) == rest;
      } else {
        assert WithoutSyncs(ops) == [ops[0]] + rest;
        assert ([ops[0]] + rest)[1..] == rest;
      }
    }
  }

  /** Calls of update_audio may be added or left out anywhere. */
  lemma ExtraUpdatesAreHarmless(m: Core, ops: seq<Op>, other: seq<Op>)
    requires CoreOk(m) && (forall op :: op in ops ==> OpOk(op)) && (forall op :: op in other ==> OpOk(op))
    requires IrqHarmless(m, ops) && IrqHarmless(m, other) && WithoutSyncs(ops) == WithoutSyncs(other)
    ensures View(Run(m, ops)) == View(Run(m, other))
  {
    hide *;
    RunIsEager(m, ops);
    RunIsEager(m, other);
    EagerIgnoresSyncs(View(m), ops);
    EagerIgnoresSyncs(View(m), other);
  }

  function Waited(ops: seq<Op>): nat {
    if ops == [] then 0 else (if ops[0].Wait? then ops[0].n else 0) + Waited(ops[1..])
  }

  /** One operation of the lazy machine: its audio state is that of cycle `last`. */
  lemma DoClock(m: Core, op: Op)
    requires CoreOk(m) && OpOk(op) && AtCycle(m.au, m.last) && m.au.next >= 0.5 && m.au.interval >= 1.0
    ensures var r := Do(m, op);
            && AtCycle(r.au, r.last) && r.au.next >= 0.5 && r.au.interval == m.au.interval
            && r.cycles == m.cycles + if op.Wait? then op.n else 0
  {
    hide Times, Due, Update, Apply, Valid;
    UpdateClock(m.au, m.last, m.cycles - m.last);
    UpdateNotBehind(m.au, m.cycles - m.last);
  }

  lemma {:induction false} RunClock(m: Core, ops: seq<Op>)
    requires CoreOk(m) && (forall op :: op in ops ==> OpOk(op))
    requires AtCycle(m.au, m.last) && m.au.next >= 0.5 && m.au.interval >= 1.0
    ensures var r := Run(m, ops);
            && AtCycle(r.au, r.last) && r.au.next >= 0.5 && r.au.interval == m.au.interval
            && r.cycles == m.cycles + Waited(ops)
    decreases |ops|
  {
    hide CoreOk, AtCycle, Do;
    if ops != [] {
      DoClock(m, ops[0]);
      RunClock(Do(m, ops[0]), ops[1..]);
    }
  }

  /** Register writes, DMA, interrupt requests and extra updates do not move a single sample: in any
      run from reset the k-th sample is there exactly when cycle floor(k * interval + 1/2) has
      been reached. */
  lemma SampleTimesInRuns(interval: real, s: Audio, ops: seq<Op>, k: nat)
    requires interval >= 1.0 && |s.ram| > 0 && forall op :: op in ops ==> OpOk(op)
    ensures var m := Core(AfterReset(interval, s), 0, 0);
            CoreOk(m) && (|View(Run(m, ops)).out| >= k <==> Waited(ops) >= Due(k, interval))
  {
    ResetClock(interval, s);
    var m := Core(AfterReset(interval, s), 0, 0);
    assert CoreOk(m) && m.au.next >= 0.5;
    hide *;
    RunClock(m, ops);
    SamplesOfView(Run(m, ops), k);
  }

  lemma SamplesOfView(m: Core, k: nat)
    requires CoreOk(m) && AtCycle(m.au, m.last) && m.au.next >= 0.5 && m.au.interval >= 1.0
    ensures |View(m).out| >= k <==> m.cycles >= Due(k, m.au.interval)
  {
    hide AtCycle, Due, Update, Valid;
    UpdateClock(m.au, m.last, m.cycles - m.last);
    UpdateNotBehind(m.au, m.cycles - m.last);
    CountedSamples(View(m), m.cycles, k);
  }

  lemma {:induction false} UpdateNotBehind(s: Audio, n: nat)
    requires Valid(s) && s.next >= 0.5 && s.interval >= 1.0
    ensures Update(s, n).next >= 0.5 && Update(s, n).interval == s.interval
    decreases n, if Horizon(s) == 0 then 1 else 0
  {
    hide *;
    if n == 0 {
      NoCycles(s);
    } else {
      var b := First(s, n);
      FirstRound(s, n);
      StepNotBehind(s, b);
      UpdateNotBehind(Step(s, b), n - b);
    }
  }

  lemma StepNotBehind(s: Audio, b: nat)
    requires Valid(s) && s.next >= 0.5 && s.interval >= 1.0 && b <= Horizon(s)
    ensures Step(s, b).next >= 0.5 && Step(s, b).interval == s.interval
  {
    StepKeeps(s, b);
    hide Step, Horizon, Rounded;
    RoundingLeaves(s.next, b);
  }

  /** n cycles from now it makes no difference whether update_audio is called before the write. */
  predicate SyncUnseen(s: Audio, n: nat, to: set<int>)
    requires Valid(s)
  {
    var m := Core(s, 0, 0);
    View(Run(m, [Wait(n), Irq(to)])) == View(Run(m, [Wait(n), Sync, Irq(to)]))
  }

  /** A call of update_audio right before a write to the interrupt requests is never noticed, in whichever of
      the first p cycles the write comes, if and only if every handler due in them is harmless. */
  lemma SyncNeverShowsIff(s: Audio, p: nat, to: set<int>)
    requires Valid(s)
    ensures UpdateHarmless(s, p, to) <==> forall n: nat :: n <= p ==> SyncUnseen(s, n, to)
  {
    hide *;
    IrqLeavesClock(s, to);
    if UpdateHarmless(s, p, to) {
      forall n: nat | n <= p ensures SyncUnseen(s, n, to) {
        BothOrders(s, n, to);
        UpdateCommutes(s, p, to, n);
      }
    } else {
      var n := UpdateParts(s, p, to);
      BothOrders(s, n, to);
    }
  }

  lemma BothOrders(s: Audio, n: nat, to: set<int>)
    requires Valid(s)
    ensures Valid(s.(intreq := to))
    ensures SyncUnseen(s, n, to) <==> Update(s.(intreq := to), n) == Update(s, n).(intreq := to)
  {
    var m := Core(s, 0, 0);
    IrqLeavesClock(s, to);
    RunTwo(m, Wait(n), Irq(to));
    RunThree(m, Wait(n), Sync, Irq(to));
    hide Update, Valid, Horizon, Run, Do, View;
    WriteFirst(s, n, to);
    SyncFirst(s, n, to);
  }

  /** A write to the interrupt request register does not call update_audio, so it can change what a
      handler that was already due makes of it (UpdateCommutesIff says when): here a channel that is played by the
      CPU stops, or goes on, depending on whether anybody brought the audio side up to date. */
  lemma InterruptWritesAreNotSynced(s: Audio)
    requires Valid(s) && s.next >= 2.0 && s.ch[0].state == 3 && s.ch[0].evtime == 1 && !s.ch[0].dmaen
    requires s.intreq == {} && forall i :: 1 <= i < 4 ==> s.ch[i].state == 0
    ensures var m := Core(s, 0, 0);
            && View(Run(m, [Wait(1), Irq({0})])).ch[0].state == 0
            && View(Run(m, [Wait(1), Sync, Irq({0})])).ch[0].state == 2
  {
    var m := Core(s, 0, 0);
    RunTwo(m, Wait(1), Irq({0}));
    RunThree(m, Wait(1), Sync, Irq({0}));
    WriteFirst(s, 1, {0});
    SyncFirst(s, 1, {0});
    FirstChannelDue(s);
    FirstChannelDue(s.(intreq := {0}));
    hide Update, Run, Do;
  }

  lemma WriteFirst(s: Audio, n: nat, to: set<int>)
    requires Valid(s)
    ensures View(Do(Do(Core(s, 0, 0), Wait(n)), Irq(to))) == Update(s.(intreq := to), n)
  {
    IrqLeavesClock(s, to);
    hide *;
    DoWait(Core(s, 0, 0), n);
    DoIrq(Core(s, n, 0), to);
    ViewIs(s.(intreq := to), n, 0);
  }

  lemma SyncFirst(s: Audio, n: nat, to: set<int>)
    requires Valid(s)
    ensures View(Do(Do(Do(Core(s, 0, 0), Wait(n)), Sync), Irq(to))) == Update(s, n).(intreq := to)
  {
    assert CoreOk(Core(s, 0, 0));
    hide *;
    var u := Update(s, n);
    IrqLeavesClock(u, to);
    DoWait(Core(s, 0, 0), n);
    DoSync(s, n);
    DoIrq(Core(u, n, n), to);
    ViewIs(u.(intreq := to), n, n);
    NoCycles(u.(intreq := to));
  }

  lemma DoWait(m: Core, n: nat)
    requires CoreOk(m)
    ensures Do(m, Wait(n)) == m.(cycles := m.cycles + n) && CoreOk(Do(m, Wait(n)))
  {
    hide Valid, Synced, Apply;
  }

  lemma DoIrq(m: Core, to: set<int>)
    requires CoreOk(m)
    ensures Do(m, Irq(to)) == m.(au := m.au.(intreq := to)) && CoreOk(Do(m, Irq(to)))
  {
    hide Valid, Synced, Apply;
  }

  lemma DoSync(s: Audio, n: nat)
    requires Valid(s)
    ensures CoreOk(Core(s, n, 0)) && Do(Core(s, n, 0), Sync) == Core(Update(s, n), n, n) && CoreOk(Core(Update(s, n), n, n))
  {
    hide Valid, Update, Apply;
  }

  lemma ViewIs(s: Audio, cycles: nat, last: nat)
    requires Valid(s) && last <= cycles
    ensures CoreOk(Core(s, cycles, last)) && View(Core(s, cycles, last)) == Update(s, cycles - last)
  {
    hide Valid, Update;
  }

  lemma RunTwo(m: Core, a: Op, b: Op)
    requires CoreOk(m) && OpOk(a) && OpOk(b)
    ensures Run(m, [a, b]) == Do(Do(m, a), b)
  {
    hide Do, CoreOk;
    assert [a, b][1..] == [b] && [b][1..] == [];
    assert Run(Do(m, a), [b]) == Run(Do(Do(m, a), b), []);
  }

  lemma RunThree(m: Core, a: Op, b: Op, c: Op)
    requires CoreOk(m) && OpOk(a) && OpOk(b) && OpOk(c)
    ensures Run(m, [a, b, c]) == Do(Do(Do(m, a), b), c)
  {
    hide Do, CoreOk;
    assert [a, b, c][1..] == [b, c];
    RunTwo(Do(m, a), b, c);
  }

  lemma FirstChannelDue(s: Audio)
    requires Valid(s) && s.next >= 2.0 && s.ch[0].state == 3 && s.ch[0].evtime == 1 && !s.ch[0].dmaen
    requires forall i :: 1 <= i < 4 ==> s.ch[i].state == 0
    ensures Update(s, 1).ch[0].state == if 0 in s.intreq then 0 else 2
  {
    FirstCounted(s);
    OneSilentCycle(s);
    hide *;
    FirstHandled(Advance(s, 1));
  }

  lemma FirstCounted(s: Audio)
    requires Valid(s) && s.ch[0].state == 3 && s.ch[0].evtime == 1 && !s.ch[0].dmaen
    requires forall i :: 1 <= i < 4 ==> s.ch[i].state == 0
    ensures var a := Advance(s, 1);
            && |s.ch| == 4 && |a.ch| == 4 && |a.ram| > 0 && a.intreq == s.intreq
            && a.ch[0].state == 3 && a.ch[0].evtime == 0 && !a.ch[0].dmaen
            && (forall i :: 1 <= i < 4 ==> a.ch[i].state == 0)
            && (forall i :: 0 <= i < 4 ==> ValidChannel(a.ch[i]))
            && (forall i :: 0 <= i < 4 && Busy(s.ch[i]) ==> s.ch[i].evtime >= 1)
  {
    hide Output;
  }

  lemma OneSilentCycle(s: Audio)
    requires Valid(s) && s.next >= 2.0 && forall i :: 0 <= i < 4 && Busy(s.ch[i]) ==> s.ch[i].evtime >= 1
    ensures Update(s, 1) == HandleFrom(Advance(s, 1), 0)
  {
    assert Rounded(s.next) != 1;
    hide Update, FirstUnderflow, Output, HandleFrom, Horizon, Emit, Valid, Rounded;
    FirstRound(s, 1);
    HorizonAfter(s);
    NoCycles(Step(s, 1));
  }

  lemma FirstHandled(a: Audio)
    requires |a.ch| == 4 && |a.ram| > 0 && a.ch[0].state == 3 && a.ch[0].evtime == 0 && !a.ch[0].dmaen
    requires forall i :: 1 <= i < 4 ==> a.ch[i].state == 0
    requires forall i :: 0 <= i < 4 ==> ValidChannel(a.ch[i])
    ensures HandleFrom(a, 0).ch[0].state == if 0 in a.intreq then 0 else 2
  {
    HandleKeeps(a, 0);
    var h := Handle(a, 0);
    assert HandleFrom(a, 0) == HandleFrom(h, 1);
    assert h.ch[0].state == if 0 in a.intreq then 0 else 2;
    hide Handle, HandleFrom;
    HandleFromKeeps(h, 1);
  }

  // ------------------------------------------------------- the code, step by step

  /** The globals of audio.c. */
  class AudioUnit {
    var channel: seq<Channel>
    var nextSampleEvtime: real
    var sampleEvtimeInterval: real
    var adkVol: set<int>
    var adkPer: set<int>
    var intreq: set<int>
    var ram: seq<nat>
    var out: seq<(int, int)>
    var cycles: nat
    var lastAudioCycles: nat
    ghost var divOk: bool

    ghost function S(): Audio
      reads this
    {
      Audio(channel, nextSampleEvtime, sampleEvtimeInterval, adkVol, adkPer, intreq, ram, out, divOk)
    }

    ghost predicate Ok()
      reads this
    {
      Valid(S()) && lastAudioCycles <= cycles
    }

    /** anti_prehandler followed by the countdown of the channels. */
    method Prehandler(n: nat)
      requires |channel| == 4
      modifies `channel
      ensures channel == Advance(old(S()), n).ch
    {
      var i := 0;
      while i < 4
        invariant 0 <= i <= 4 && |channel| == 4
        invariant forall j :: 0 <= j < i ==> channel[j] == AdvanceChannel(old(channel[j]), n)
        invariant forall j :: i <= j < 4 ==> channel[j] == old(channel[j])
      {
        var output := Output(channel[i]);
        channel := channel[i := channel[i].(accum := channel[i].accum + output * n, time := channel[i].time + n)];
        channel := channel[i := channel[i].(evtime := channel[i].evtime - n)];
        i := i + 1;
      }
    }

    /** sample16si_anti_handler: averages, empties the accumulators and puts out a sample. */
    method AntiHandler()
      requires |channel| == 4
      modifies `channel, `out, `divOk
      ensures S() == Emit(old(S())).(next := nextSampleEvtime)
    {
      hide Quotient, Emit;
      var datas: seq<int> := [];
      var i := 0;
      while i < 4
        invariant 0 <= i <= 4 && |channel| == 4 && |datas| == i
        invariant forall j :: 0 <= j < i ==>
                    channel[j] == Emptied(old(channel[j])) && datas[j] == Average(old(channel[j]))
        invariant forall j :: i <= j < 4 ==> channel[j] == old(channel[j])
        invariant out == old(out)
        invariant divOk == (old(divOk) && forall j :: 0 <= j < i ==> old(channel[j].time) > 0)
      {
        divOk := divOk && channel[i].time > 0;
        datas := datas + [Quotient(channel[i].accum, channel[i].time)];
        channel := channel[i := channel[i].(accum := 0, time := 0)];
        i := i + 1;
      }
      out := out + [(datas[0] + datas[3], datas[1] + datas[2])];
      EmitIs(old(S()), channel, datas, divOk);
    }

    /** audio_handler */
    method AudioHandler(nr: nat)
      requires nr < 4 && |channel| == 4 && |ram| > 0
      modifies `channel, `intreq
      ensures S() == Handle(old(S()), nr)
    {
      hide Signed8, Wget;
      var c := channel[nr];
      var audav, audap := nr in adkVol, nr in adkPer;
      var napnav := (!audav && !audap) || audav;
      var irq := nr in intreq;
      var d, raise := HandleOwn(c, audap, napnav, irq, Wget(ram, c.pt));
      channel := channel[nr := d];
      if nr < 3 {
        var right := HandleRight(c, channel[nr + 1], audav, audap, irq);
        channel := channel[nr + 1 := right];
      }
      if raise {
        intreq := intreq + {nr};
      }
    }

    /** The switch of audio_handler, as far as the channel itself and its interrupt go. */
    static method HandleOwn(c0: Channel, audap: bool, napnav: bool, irq: bool, word: nat)
      returns (c: Channel, raise: bool)
      ensures c == Own(c0, audap, napnav, irq, word)
      ensures raise == Raises(c0, audap, napnav, irq)
    {
      hide Signed8;
      c, raise := c0, false;
      if c.state == 1 {
        c := c.(evtime := MAXHPOS, state := 5);
        raise := true;
        if c.wlen != 1 {
          c := c.(wlen := (c.wlen - 1) % 0x1_0000);
        }
        c := c.(nextdat := word);
      } else if c.state == 5 {
        c := c.(evtime := c.per, dat := c.nextdat);
        c := c.(sample := Signed8(c.dat / 256), state := 2);
        if napnav {
          c := c.(written := true);
        }
      } else if c.state == 2 {
        c, raise := From2To3(c, audap, napnav, irq, word);
      } else if c.state == 3 {
        c, raise := From3To2(c, audap, napnav, irq, word);
      } else if c.state != 0 {
        c := c.(state := 0);
      }
    }

    static method From2To3(c0: Channel, audap: bool, ghost napnav: bool, ghost irq: bool, ghost word: nat)
      returns (c: Channel, raise: bool)
      requires c0.state == 2
      ensures c == Own(c0, audap, napnav, irq, word) && raise == Raises(c0, audap, napnav, irq)
    {
      hide Signed8;
      c, raise := c0, false;
      c := c.(sample := Signed8(c.dat), evtime := c.per, state := 3);
      if audap {
        raise := c.intreq2 && c.dmaen;
        c := c.(intreq2 := false, dat := c.nextdat);
        if c.dmaen {
          c := c.(written := true);
        }
      }
    }

    static method From3To2(c0: Channel, ghost audap: bool, napnav: bool, irq: bool, ghost word: nat)
      returns (c: Channel, raise: bool)
      requires c0.state == 3
      ensures c == Own(c0, audap, napnav, irq, word) && raise == Raises(c0, audap, napnav, irq)
    {
      hide Signed8;
      c, raise := c0, false;
      c := c.(evtime := c.per);
      if irq && !c.dmaen {
        c := c.(state := 0, sample := 0);
      } else {
        c := c.(state := 2);
        raise := (c.intreq2 && c.dmaen && napnav) || (napnav && !c.dmaen);
        c := c.(intreq2 := false, dat := c.nextdat);
        c := c.(sample := Signed8(c.dat / 256));
        if c.dmaen && napnav {
          c := c.(written := true);
        }
      }
    }

    /** Period and volume attachment. */
    static method HandleRight(c: Channel, right0: Channel, audav: bool, audap: bool, irq: bool) returns (right: Channel)
      ensures right == Attach(c, right0, audav, audap, irq)
    {
      right := right0;
      if c.state == 2 && audap {
        if c.nextdat == 0 {
          right := right.(per := 65535);
        } else {
          right := right.(per := c.nextdat);
        }
      } else if c.state == 3 && !(irq && !c.dmaen) && audav {
        right := right.(vol := c.nextdat);
      }
    }

    /** The search for the nearest underflow in update_audio. */
    method Nearest(limit: nat) returns (best: int)
      requires |channel| == 4
      ensures best == FirstUnderflow(channel, limit)
    {
      best := limit;
      var i := 0;
      assert channel[0..] == channel;
      while i < 4
        invariant 0 <= i <= 4
        invariant FirstUnderflow(channel[i..], best) == FirstUnderflow(channel, limit)
      {
        assert channel[i..][0] == channel[i] && channel[i..][1..] == channel[i + 1..];
        if Busy(channel[i]) && best > channel[i].evtime {
          best := channel[i].evtime;
        }
        i := i + 1;
      }
    }

    /** The choice of the next event in update_audio. */
    method BestEvtime(nCycles: nat) returns (best: nat, rounded: nat)
      requires Valid(S()) && nCycles > 0
      ensures rounded == Rounded(nextSampleEvtime) && best == First(S(), nCycles)
    {
      var b := Nearest(nCycles + 1);
      rounded := nextSampleEvtime.Floor;
      if nextSampleEvtime - rounded as real >= 0.5 {
        rounded := rounded + 1;
      }
      FirstIsMin(S(), nCycles);
      hide FirstUnderflow, Valid, Horizon, First;
      if b > rounded {
        b := rounded;
      }
      if b > nCycles {
        b := nCycles;
      }
      best := b;
    }

    /** update_audio */
    method UpdateAudio()
      requires Ok()
      modifies `channel, `nextSampleEvtime, `intreq, `out, `divOk, `lastAudioCycles
      ensures Ok() && lastAudioCycles == cycles
      ensures S() == Update(old(S()), old(cycles - lastAudioCycles))
    {
      hide Valid, Horizon, Step, Update;
      var nCycles := cycles - lastAudioCycles;
      while nCycles > 0
        invariant 0 <= nCycles <= cycles - lastAudioCycles && lastAudioCycles == old(lastAudioCycles)
        invariant Valid(S())
        invariant Update(S(), nCycles) == Update(old(S()), old(cycles - lastAudioCycles))
        decreases nCycles, if Horizon(S()) == 0 then 1 else 0
      {
        FirstRound(S(), nCycles);
        var bestEvtime := OneRound(nCycles);
        nCycles := nCycles - bestEvtime;
      }
      NoCycles(S());
      lastAudioCycles := cycles - nCycles;
    }

    /** The body of the loop in update_audio. */
    method OneRound(nCycles: nat) returns (bestEvtime: nat)
      requires Valid(S()) && nCycles > 0
      modifies `channel, `nextSampleEvtime, `intreq, `out, `divOk
      ensures old(Valid(S())) && bestEvtime == First(old(S()), nCycles) && S() == Step(old(S()), bestEvtime)
    {
      hide Handle, Rounded, Horizon, Average, AdvanceChannel, Emptied;
      var rounded;
      bestEvtime, rounded := BestEvtime(nCycles);
      Prehandler(bestEvtime);
      nextSampleEvtime := nextSampleEvtime - bestEvtime as real;
      assert S() == Advance(old(S()), bestEvtime);
      if rounded == bestEvtime {
        nextSampleEvtime := nextSampleEvtime + sampleEvtimeInterval;
        AntiHandler();
      }
      Handlers();
    }

    /** The calls of the channel state machines. */
    method Handlers()
      requires |channel| == 4 && |ram| > 0
      modifies `channel, `intreq
      ensures S() == HandleFrom(old(S()), 0)
    {
      hide Handle;
      var i := 0;
      while i < 4
        invariant 0 <= i <= 4 && |channel| == 4
        invariant HandleFrom(S(), i) == HandleFrom(old(S()), 0)
      {
        if channel[i].evtime == 0 && Busy(channel[i]) {
          AudioHandler(i);
        }
        i := i + 1;
      }
    }

    /** audio_reset */
    method Reset()
      requires |ram| > 0 && sampleEvtimeInterval >= 0.5
      modifies this
      ensures S() == AfterReset(old(sampleEvtimeInterval), old(S())) && lastAudioCycles == 0
      ensures Valid(S())
    {
      var c := Channel(0, 0, 65535, 0, 0, 0, 0, true, 0, 0, false, false, false, 0, 0, 0, 0);
      channel := [c, c, c, c];
      lastAudioCycles := 0;
      nextSampleEvtime := sampleEvtimeInterval;
      out := [];
      divOk := true;
      ResetClock(sampleEvtimeInterval, S());
    }

    /** AUDxPER */
    method SetPeriod(nr: nat, v: nat)
      requires Ok() && nr < 4 && v < 0x1_0000
      modifies this
      ensures Ok() && lastAudioCycles == cycles == old(cycles)
      ensures S() == Apply(Update(old(S()), old(cycles - lastAudioCycles)), Period(nr, v))
    {
      hide Update;
      UpdateAudio();
      var period := v;
      if period == 0 {
        period := 65535;
      } else if period < 16 {
        period := 16;
      }
      channel := channel[nr := channel[nr].(per := period)];
    }

    /** AUDxVOL */
    method SetVolume(nr: nat, v: nat)
      requires Ok() && nr < 4 && v < 0x1_0000
      modifies this
      ensures Ok() && lastAudioCycles == cycles == old(cycles)
      ensures S() == Apply(Update(old(S()), old(cycles - lastAudioCycles)), Volume(nr, v))
    {
      hide Update;
      UpdateAudio();
      var volume := if v / 64 % 2 == 1 then 63 else v % 64;
      channel := channel[nr := channel[nr].(vol := volume)];
    }

    /** AUDxDAT */
    method SetData(nr: nat, v: nat)
      requires Ok() && nr < 4 && v < 0x1_0000
      modifies this
      ensures Ok() && lastAudioCycles == cycles == old(cycles)
      ensures S() == Apply(Update(old(S()), old(cycles - lastAudioCycles)), Data(nr, v))
    {
      hide Update;
      UpdateAudio();
      channel := channel[nr := channel[nr].(dat := v)];
      if channel[nr].state == 0 && nr !in intreq {
        channel := channel[nr := channel[nr].(state := 2)];
        intreq := intreq + {nr};
        channel := channel[nr := channel[nr].(evtime := channel[nr].per)];
      }
    }

    /** The audio part of DMACON. */
    method SetDma(on: set<int>, toHsync: nat)
      requires Ok()
      modifies this
      ensures Ok() && lastAudioCycles == cycles == old(cycles)
      ensures S() == Apply(Update(old(S()), old(cycles - lastAudioCycles)), Dma(on, toHsync))
    {
      hide Update, Horizon, Apply, DmaChannel, Valid;
      UpdateAudio();
      ghost var s := S();
      FourInAll(s);
      var i := 0;
      while i < 4
        invariant 0 <= i <= 4 && |channel| == |s.ch| == 4
        invariant S() == s.(ch := channel) && lastAudioCycles == cycles == old(cycles)
        invariant forall j :: 0 <= j < i ==> channel[j] == DmaChannel(s.ch[j], j in on, toHsync)
        invariant forall j :: i <= j < 4 ==> channel[j] == s.ch[j]
      {
        var c := SetDmaChannel(channel[i], i in on, toHsync);
        channel := channel[i := c];
        i := i + 1;
      }
      DmaDone(s, on, toHsync, channel);
    }

    static method SetDmaChannel(c0: Channel, on: bool, toHsync: nat) returns (c: Channel)
      ensures c == DmaChannel(c0, on, toHsync)
    {
      c := c0.(dmaen := on);
      if c.dmaen {
        if c.state == 0 {
          c := c.(state := 1);
          c := c.(pt := c.lc, wlen := c.len, written := true);
          c := c.(evtime := toHsync);
        }
      } else if c.state == 1 || c.state == 5 {
        c := c.(state := 0, sample := 0);
      }
    }

    /** The sound data fetch of hsync_handler. */
    method FetchLine()
      requires Ok()
      modifies this
      ensures Ok() && lastAudioCycles == cycles == old(cycles)
      ensures S() == Apply(Update(old(S()), old(cycles - lastAudioCycles)), Fetch)
    {
      hide Update, ValidChannel, Horizon, Wget;
      UpdateAudio();
      ghost var s := S();
      ghost var goal := Apply(s, Fetch);
      var i := 0;
      while i < 4
        invariant 0 <= i <= 4 && |channel| == 4
        invariant S() == s.(ch := channel) && lastAudioCycles == cycles == old(cycles)
        invariant forall j :: 0 <= j < i ==> channel[j] == FetchChannel(s.ch[j], Wget(s.ram, s.ch[j].pt))
        invariant forall j :: i <= j < 4 ==> channel[j] == s.ch[j]
      {
        var c := FetchOne(channel[i], Wget(ram, channel[i].pt));
        channel := channel[i := c];
        i := i + 1;
      }
      assert channel == goal.ch;
      assert S() == goal;
    }

    static method FetchOne(c0: Channel, word: nat) returns (c: Channel)
      ensures c == FetchChannel(c0, word)
    {
      c := c0;
      if c.written {
        c := c.(written := false);
        c := c.(nextdat := word);
        if c.wlen != 1 {
          c := c.(pt := c.pt + 2);
        }
        if c.state == 2 || c.state == 3 {
          if c.wlen == 1 {
            c := c.(pt := c.lc);
            c := c.(wlen := c.len);
            c := c.(intreq2 := true);
          } else {
            c := c.(wlen := (c.wlen - 1) % 0x1_0000);
          }
        }
      }
    }
  }

  lemma FirstIsMin(s: Audio, n: nat)
    requires Valid(s)
    ensures First(s, n) == Min(Min(FirstUnderflow(s.ch, n + 1), Rounded(s.next)), n)
  {
    hide FirstUnderflow, Rounded;
    CappedUnderflow(s.ch, Rounded(s.next), n + 1);
    CappedUnderflow(s.ch, n + 1, Rounded(s.next));
  }

  lemma {:induction false} CappedUnderflow(ch: seq<Channel>, a: int, b: int)
    ensures FirstUnderflow(ch, Min(b, a)) == Min(FirstUnderflow(ch, a), b)
  {
    if ch != [] {
      CappedUnderflow(ch[1..], if Busy(ch[0]) then Min(a, ch[0].evtime) else a, b);
    }
  }
}
