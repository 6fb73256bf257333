/**
 What the audio clock of src/audio.c puts out: over any run from reset, every pair of samples is the
 average of what the four channels have been putting out since the pair before it.
 */
module AudioSound {

  import opened AudioClock

  // ------------------------------------------------------------------- the levels

  /** The level of a channel: a channel that modulates the next one is silent. */
  function Level(s: Audio, i: nat): int
    requires i < 4 && |s.ch| == 4
  {
    if i in s.adkVol || i in s.adkPer then 0 else s.ch[i].sample * s.ch[i].vol
  }

  function Copies(s: Audio, n: nat): (h: seq<Audio>)
    ensures |h| == n
  {
    seq(n, i => s)
  }

  /** The state of the audio side during each of the next n cycles. */
  function During(s: Audio, n: nat): (h: seq<Audio>)
    requires Valid(s)
    ensures |h| == n
    decreases n, if Horizon(s) == 0 then 1 else 0
  {
    hide Step, Update, Horizon, Rounded;
    if n == 0 then []
    else
      var b := First(s, n);
      FirstRound(s, n);
      FourInAll(s);
      Copies(s, b) + During(Step(s, b), n - b)
  }

  /** The same for a whole run. */
  function History(s: Audio, ops: seq<Op>): (h: seq<Audio>)
    requires Valid(s) && forall op :: op in ops ==> OpOk(op)
    ensures |h| == Waited(ops)
    decreases |ops|
  {
    if ops == [] then []
    else
      (if ops[0].Wait? then During(s, ops[0].n) else []) + History(EagerDo(s, ops[0]), ops[1..])
  }

  predicate FourEach(h: seq<Audio>) { forall j :: 0 <= j < |h| ==> |h[j].ch| == 4 }

  /** The levels of channel i in cycles a .. b-1, added up. */
  function Total(h: seq<Audio>, a: int, b: int, i: nat): int
    requires FourEach(h) && 0 <= a <= b <= |h| && i < 4
    decreases b - a
  {
    if a == b then 0 else Total(h, a, b - 1, i) + Level(h[b - 1], i)
  }

  /** q is sum / n, rounded toward zero. */
  predicate TowardZero(sum: int, n: int, q: int) {
    if sum >= 0 then n * q <= sum < n * q + n else n * q - n < sum <= n * q
  }

  /** The averages of the four channels in these cycles. */
  predicate Means(d: seq<int>, h: seq<Audio>, a: int, b: int)
    requires FourEach(h) && 0 <= a <= b <= |h|
  {
    |d| == 4 && forall i :: 0 <= i < 4 ==> TowardZero(Total(h, a, b, i), b - a, d[i])
  }

  /** The pair for these cycles: channels 0 and 3 go to one side, 1 and 2 to the other. */
  ghost predicate PairOf(p: (int, int), h: seq<Audio>, a: int, b: int)
    requires FourEach(h) && 0 <= a <= b <= |h|
  {
    exists d: seq<int> :: Means(d, h, a, b) && p == (d[0] + d[3], d[1] + d[2])
  }

  // ------------------------------------------------------------------- one stretch

  /** Exactly the channels that modulate are muted. */
  predicate Muting(s: Audio) {
    |s.ch| == 4 && forall i :: 0 <= i < 4 ==> (s.ch[i].muted <==> i in s.adkVol || i in s.adkPer)
  }

  /** The accumulators have added up the levels since the last output. */
  predicate Gathered(s: Audio, h: seq<Audio>)
    requires FourEach(h)
  {
    |s.ch| == 4 && 0 <= Due(|s.out|, s.interval) <= |h|
    && forall i :: 0 <= i < 4 ==> s.ch[i].accum == Total(h, Due(|s.out|, s.interval), |h|, i)
  }

  ghost predicate Right(s: Audio, h: seq<Audio>, k: nat)
    requires FourEach(h) && k < |s.out|
  {
    && 0 <= Due(k, s.interval) < Due(k + 1, s.interval) <= |h|
    && PairOf(s.out[k], h, Due(k, s.interval), Due(k + 1, s.interval))
  }

  ghost predicate AllRight(s: Audio, h: seq<Audio>)
    requires FourEach(h)
  {
    forall k :: 0 <= k < |s.out| ==> Right(s, h, k)
  }

  ghost predicate Heard(s: Audio, h: seq<Audio>) {
    && Valid(s) && FourEach(h) && AtCycle(s, |h|) && s.interval >= 1.0 && s.next >= 0.5
    && Muting(s) && Gathered(s, h) && AllRight(s, h)
  }

  lemma {:induction false} TotalOfPart(h: seq<Audio>, more: seq<Audio>, a: int, b: int, i: nat)
    requires FourEach(h) && FourEach(h + more) && 0 <= a <= b <= |h| && i < 4
    ensures Total(h + more, a, b, i) == Total(h, a, b, i)
    decreases b - a
  {
    if a < b {
      TotalOfPart(h, more, a, b - 1, i);
    }
  }

  lemma {:induction false} TotalGrows(h: seq<Audio>, s: Audio, n: nat, a: int, i: nat)
    requires FourEach(h) && |s.ch| == 4 && 0 <= a <= |h| && i < 4
    ensures FourEach(h + Copies(s, n))
    ensures Total(h + Copies(s, n), a, |h| + n, i) == Total(h, a, |h|, i) + Level(s, i) * n
  {
    var all := h + Copies(s, n);
    if n == 0 {
      assert all == h;
    } else {
      TotalGrows(h, s, n - 1, a, i);
      var before := h + Copies(s, n - 1);
      assert all == before + [s];
      TotalOfPart(before, [s], a, |h| + n - 1, i);
      assert Level(s, i) * n == Level(s, i) * (n - 1) + Level(s, i);
    }
  }

  lemma RightStays(s: Audio, t: Audio, h: seq<Audio>, more: seq<Audio>)
    requires FourEach(h) && FourEach(h + more) && AllRight(s, h)
    requires t.interval == s.interval && t.out == s.out
    ensures AllRight(t, h + more)
  {
    forall k | 0 <= k < |t.out| ensures Right(t, h + more, k) {
      assert Right(s, h, k);
      var a, b := Due(k, s.interval), Due(k + 1, s.interval);
      var d: seq<int> :| Means(d, h, a, b) && s.out[k] == (d[0] + d[3], d[1] + d[2]);
      MeansStay(d, h, more, a, b);
    }
  }

  lemma MeansStay(d: seq<int>, h: seq<Audio>, more: seq<Audio>, a: int, b: int)
    requires FourEach(h) && FourEach(h + more) && 0 <= a <= b <= |h| && Means(d, h, a, b)
    ensures Means(d, h + more, a, b)
  {
    forall i | 0 <= i < 4 ensures TowardZero(Total(h + more, a, b, i), b - a, d[i]) {
      TotalOfPart(h, more, a, b, i);
    }
  }

  lemma QuotientIsTowardZero(a: int, b: nat)
    requires b > 0
    ensures TowardZero(a, b, Quotient(a, b))
  {
    if a >= 0 {
      assert a == b * (a / b) + a % b;
    } else {
      assert -a == b * (-a / b) + -a % b;
      assert b * -(-a / b) == -(b * (-a / b));
    }
  }

  /** Counting n cycles adds n times the level. */
  lemma AdvanceGathers(s: Audio, h: seq<Audio>, n: nat)
    requires FourEach(h) && Muting(s) && Gathered(s, h)
    ensures FourEach(h + Copies(s, n)) && Gathered(Advance(s, n), h + Copies(s, n)) && Muting(Advance(s, n))
  {
    hide Due, Level;
    forall i | 0 <= i < 4
      ensures Advance(s, n).ch[i].accum == Total(h + Copies(s, n), Due(|s.out|, s.interval), |h| + n, i)
    {
      TotalGrows(h, s, n, Due(|s.out|, s.interval), i);
      OutputIsLevel(s, i);
    }
  }

  lemma OutputIsLevel(s: Audio, i: nat)
    requires Muting(s) && i < 4
    ensures Output(s.ch[i]) == Level(s, i)
  {
  }

  /** Putting out the averages. */
  lemma EmitIsRight(a: Audio, h: seq<Audio>)
    requires FourEach(h) && Muting(a) && Gathered(a, h) && AllRight(a, h) && a.interval >= 1.0
    requires Due(|a.out| + 1, a.interval) == |h| && forall i :: 0 <= i < 4 ==> a.ch[i].time == |h| - Due(|a.out|, a.interval)
    ensures Muting(Emit(a)) && Gathered(Emit(a), h) && AllRight(Emit(a), h)
  {
    var e, k := Emit(a), |a.out|;
    NextDue(k, a.interval);
    hide Due, Total, TowardZero, Quotient;
    var d := [Average(a.ch[0]), Average(a.ch[1]), Average(a.ch[2]), Average(a.ch[3])];
    forall i | 0 <= i < 4 ensures TowardZero(Total(h, Due(k, a.interval), |h|, i), |h| - Due(k, a.interval), d[i]) {
      QuotientIsTowardZero(a.ch[i].accum, a.ch[i].time);
    }
    assert Means(d, h, Due(k, a.interval), |h|);
    assert Right(e, h, k);
    OldStayRight(a, e, h);
    NothingYet(h);
  }

  lemma OldStayRight(a: Audio, e: Audio, h: seq<Audio>)
    requires FourEach(h) && AllRight(a, h) && e.interval == a.interval && |e.out| == |a.out| + 1 && e.out[..|a.out|] == a.out
    requires Right(e, h, |a.out|)
    ensures AllRight(e, h)
  {
    hide PairOf, Due;
    forall k | 0 <= k < |e.out| ensures Right(e, h, k) {
      if k < |a.out| {
        assert Right(a, h, k) && e.out[k] == a.out[k];
      }
    }
  }

  lemma NothingYet(h: seq<Audio>)
    requires FourEach(h)
    ensures forall i :: 0 <= i < 4 ==> Total(h, |h|, |h|, i) == 0
  {
  }

  /** The handlers leave all this alone. */
  lemma SameClockHeard(s: Audio, t: Audio, h: seq<Audio>)
    requires FourEach(h) && SameClock(s, t) && Muting(s) && Gathered(s, h) && AllRight(s, h)
    ensures Muting(t) && Gathered(t, h) && AllRight(t, h)
  {
    hide Due, PairOf, Total;
    assert h + [] == h;
    RightStays(s, t, h, []);
  }

  lemma StepHeard(s: Audio, h: seq<Audio>, b: nat)
    requires Heard(s, h) && b <= Horizon(s)
    ensures Heard(Step(s, b), h + Copies(s, b))
  {
    assert Valid(s) && FourEach(h) && AtCycle(s, |h|) && Muting(s) && Gathered(s, h) && AllRight(s, h);
    StepStays(s, |h|, b);
    StepGathers(s, h, b);
    hide *;
    HeardIs(Step(s, b), h + Copies(s, b));
  }

  lemma HeardIs(s: Audio, h: seq<Audio>)
    requires Valid(s) && FourEach(h) && AtCycle(s, |h|) && s.interval >= 1.0 && s.next >= 0.5
    requires Muting(s) && Gathered(s, h) && AllRight(s, h)
    ensures Heard(s, h)
  {
  }

  lemma StepStays(s: Audio, n: nat, b: nat)
    requires Valid(s) && AtCycle(s, n) && s.interval >= 1.0 && s.next >= 0.5 && b <= Horizon(s)
    ensures Valid(Step(s, b)) && AtCycle(Step(s, b), n + b) && Step(s, b).next >= 0.5 && Step(s, b).interval == s.interval
  {
    hide *;
    StepKeeps(s, b);
    StepClock(s, n, b);
    StepNotBehind(s, b);
  }

  lemma StepGathers(s: Audio, h: seq<Audio>, b: nat)
    requires Valid(s) && FourEach(h) && AtCycle(s, |h|) && s.interval >= 1.0
    requires Muting(s) && Gathered(s, h) && AllRight(s, h)
    ensures FourEach(h + Copies(s, b))
    ensures var r := Step(s, b); Muting(r) && Gathered(r, h + Copies(s, b)) && AllRight(r, h + Copies(s, b))
  {
    var a, more := Advance(s, b), h + Copies(s, b);
    FourInAll(s);
    assert |a.ch| == 4 && |a.ram| > 0 && a.interval == s.interval && a.out == s.out;
    AdvanceClock(s, |h|, b);
    RoundIs(s, b);
    assert BeforeHandlers(s, b) == if Rounded(s.next) == b then Emit(a) else a;
    AdvanceGathers(s, h, b);
    hide Due, PairOf, Total, Horizon, Rounded, Advance, Emit, HandleFrom, Valid, Muting, Gathered, AllRight,
         BeforeHandlers, Step;
    RightStays(s, a, h, Copies(s, b));
    if Rounded(s.next) == b {
      DueNow(s, |h|, b);
      EmitIsRight(a, more);
      HandleFromFrame(Emit(a), 0);
      SameClockHeard(Emit(a), HandleFrom(Emit(a), 0), more);
    } else {
      HandleFromFrame(a, 0);
      SameClockHeard(a, HandleFrom(a, 0), more);
    }
  }

  // ---------------------------------------------------------------------- whole runs

  lemma {:induction false} UpdateHeard(s: Audio, h: seq<Audio>, n: nat)
    requires Valid(s) && Heard(s, h)
    ensures Heard(Update(s, n), h + During(s, n))
    decreases n, if Horizon(s) == 0 then 1 else 0
  {
    hide *;
    DuringIs(s, n);
    if n == 0 {
      NoCycles(s);
      NothingMore(h);
    } else {
      var b := First(s, n);
      FirstRound(s, n);
      StepHeard(s, h, b);
      UpdateHeard(Step(s, b), h + Copies(s, b), n - b);
      Joined(h, Copies(s, b), During(Step(s, b), n - b));
    }
  }

  lemma NothingMore(h: seq<Audio>)
    ensures h + [] == h
  {
  }

  lemma Joined(h: seq<Audio>, more: seq<Audio>, rest: seq<Audio>)
    ensures h + (more + rest) == (h + more) + rest
  {
  }

  lemma DuringIs(s: Audio, n: nat)
    requires Valid(s)
    ensures n == 0 ==> During(s, n) == []
    ensures n > 0 ==> var b := First(s, n);
                      b <= n && Valid(Step(s, b)) && During(s, n) == Copies(s, b) + During(Step(s, b), n - b)
  {
    hide Step, Update, Horizon, Rounded, Valid;
    if n > 0 {
      FirstRound(s, n);
    }
  }

  lemma ApplyHeard(s: Audio, h: seq<Audio>, w: Change)
    requires Heard(s, h) && ChangeOk(w)
    ensures Heard(Apply(s, w), h)
  {
    var t := Apply(s, w);
    assert Valid(s) && Muting(s) && Gathered(s, h) && AllRight(s, h) && AtCycle(s, |h|) && FourEach(h);
    assert t.next == s.next && t.interval == s.interval && t.out == s.out;
    hide *;
    ApplyGathers(s, w);
    ApplyClock(s, |h|, w);
    GatheredStays(s, t, h);
    NothingMore(h);
    RightStays(s, t, h, []);
    HeardIs(t, h);
  }

  lemma GatheredStays(s: Audio, t: Audio, h: seq<Audio>)
    requires FourEach(h) && Gathered(s, h) && |t.ch| == 4 && t.out == s.out && t.interval == s.interval
    requires forall i :: 0 <= i < 4 ==> t.ch[i].accum == s.ch[i].accum
    ensures Gathered(t, h)
  {
    hide Due, Total;
  }

  lemma ApplyGathers(s: Audio, w: Change)
    requires Valid(s) && Muting(s) && ChangeOk(w)
    ensures |s.ch| == 4 && Muting(Apply(s, w)) && |Apply(s, w).ch| == 4
    ensures forall i :: 0 <= i < 4 ==> Apply(s, w).ch[i].accum == s.ch[i].accum
  {
    FourInAll(s);
    hide Valid, Wget, DmaChannel, FetchChannel, ChangeChannel;
    forall c: Channel, on: bool, n: nat
      ensures DmaChannel(c, on, n).muted == c.muted && DmaChannel(c, on, n).accum == c.accum {
      DmaLeaves(c, on, n);
    }
    forall c: Channel, n: nat ensures FetchChannel(c, n).muted == c.muted && FetchChannel(c, n).accum == c.accum {
      FetchLeaves(c, n);
    }
    if !w.Dma? && !w.Adk? && !w.Fetch? {
      ChangeLeaves(s.ch[w.nr], w, w.nr in s.intreq);
    }
  }

  lemma DmaLeaves(c: Channel, on: bool, n: nat)
    ensures DmaChannel(c, on, n).muted == c.muted && DmaChannel(c, on, n).accum == c.accum
  {
  }

  lemma FetchLeaves(c: Channel, n: nat)
    ensures FetchChannel(c, n).muted == c.muted && FetchChannel(c, n).accum == c.accum
  {
  }

  lemma ChangeLeaves(c: Channel, w: Change, irq: bool)
    requires !w.Dma? && !w.Adk? && !w.Fetch?
    ensures ChangeChannel(c, w, irq).muted == c.muted && ChangeChannel(c, w, irq).accum == c.accum
  {
  }

  lemma DoHeard(s: Audio, h: seq<Audio>, op: Op)
    requires Heard(s, h) && OpOk(op)
    ensures Heard(EagerDo(s, op), h + if op.Wait? then During(s, op.n) else [])
  {
    hide Update, Apply, During, Due, PairOf, Total;
    assert h + [] == h;
    match op
    case Wait(n) => UpdateHeard(s, h, n);
    case Sync =>
    case Write(w) => ApplyHeard(s, h, w);
    case Irq(to) => IrqHeard(s, h, to);
  }

  lemma IrqHeard(s: Audio, h: seq<Audio>, to: set<int>)
    requires Heard(s, h)
    ensures Heard(s.(intreq := to), h)
  {
    assert h + [] == h;
    RightStays(s, s.(intreq := to), h, []);
    hide Due, Total, PairOf, AllRight;
  }

  lemma {:induction false} RunHeard(s: Audio, h: seq<Audio>, ops: seq<Op>)
    requires Heard(s, h) && forall op :: op in ops ==> OpOk(op)
    ensures Heard(Eager(s, ops), h + History(s, ops))
    decreases |ops|
  {
    assert Valid(s);
    hide Heard, During, EagerDo, OpOk, Valid, Update, Apply, AtCycle, Muting, Gathered, AllRight;
    if ops == [] {
      assert h + [] == h;
    } else {
      assert OpOk(ops[0]);
      var more := if ops[0].Wait? then During(s, ops[0].n) else [];
      DoHeard(s, h, ops[0]);
      RunHeard(EagerDo(s, ops[0]), h + more, ops[1..]);
      Joined(h, more, History(EagerDo(s, ops[0]), ops[1..]));
    }
  }

  /** Over any run from reset, once ADKCON has been written: the k-th pair put out is for cycles
      floor(k * interval + 1/2) up to floor((k + 1) * interval + 1/2), and it is made of the averages of
      the levels that the channels have had in these cycles. */
  lemma SoundOfRun(interval: real, s: Audio, vol: set<int>, per: set<int>, ops: seq<Op>, k: nat)
    requires interval >= 1.0 && |s.ram| > 0 && forall op :: op in ops ==> OpOk(op)
    ensures Valid(AfterReset(interval, s))
    ensures var start := Apply(AfterReset(interval, s), Adk(vol, per));
            var r, h := Eager(start, ops), History(start, ops);
            && |h| == Waited(ops) && FourEach(h)
            && (k < |r.out| ==>
                  0 <= Due(k, interval) < Due(k + 1, interval) <= |h|
                  && PairOf(r.out[k], h, Due(k, interval), Due(k + 1, interval)))
  {
    ResetHeard(interval, s, vol, per);
    var start := Apply(AfterReset(interval, s), Adk(vol, per));
    RunHeard(start, [], ops);
    assert [] + History(start, ops) == History(start, ops);
    EagerInterval(start, ops);
    hide Apply, AfterReset, Eager, History, PairOf, Due, Muting, Gathered, AtCycle;
    if k < |Eager(start, ops).out| {
      assert Right(Eager(start, ops), History(start, ops), k);
    }
  }

  lemma {:induction false} EagerInterval(s: Audio, ops: seq<Op>)
    requires Valid(s) && s.next >= 0.5 && s.interval >= 1.0 && forall op :: op in ops ==> OpOk(op)
    ensures Eager(s, ops).interval == s.interval
    decreases |ops|
  {
    hide Valid, Update, Apply;
    if ops != [] {
      assert OpOk(ops[0]);
      if ops[0].Wait? {
        UpdateNotBehind(s, ops[0].n);
      }
      EagerInterval(EagerDo(s, ops[0]), ops[1..]);
    }
  }

  lemma ResetHeard(interval: real, s: Audio, vol: set<int>, per: set<int>)
    requires interval >= 1.0 && |s.ram| > 0
    ensures Valid(AfterReset(interval, s)) && Heard(Apply(AfterReset(interval, s), Adk(vol, per)), [])
    ensures Apply(AfterReset(interval, s), Adk(vol, per)).interval == interval
  {
    ResetClock(interval, s);
    ApplyClock(AfterReset(interval, s), 0, Adk(vol, per));
    hide Due, Times;
    assert Due(0, interval) == 0 by { DueAtStart(interval); }
  }

  lemma DueAtStart(interval: real)
    ensures Due(0, interval) == 0
  {
  }

  lemma ApplyClock(s: Audio, n: nat, w: Change)
    requires Valid(s) && AtCycle(s, n) && ChangeOk(w)
    ensures AtCycle(Apply(s, w), n)
  {
    hide Due, Times, Valid;
  }

  /** The same for the lazy machine, when interrupt requests are written harmlessly. */
  lemma SoundOfLazyRun(interval: real, s: Audio, vol: set<int>, per: set<int>, ops: seq<Op>, k: nat)
    requires interval >= 1.0 && |s.ram| > 0 && forall op :: op in ops ==> OpOk(op)
    requires Valid(AfterReset(interval, s))
    requires IrqHarmless(Core(Apply(AfterReset(interval, s), Adk(vol, per)), 0, 0), ops)
    ensures var start := Apply(AfterReset(interval, s), Adk(vol, per));
            var out, h := View(Run(Core(start, 0, 0), ops)).out, History(start, ops);
            k < |out| ==>
              FourEach(h) && 0 <= Due(k, interval) < Due(k + 1, interval) <= |h|
              && PairOf(out[k], h, Due(k, interval), Due(k + 1, interval))
  {
    var start := Apply(AfterReset(interval, s), Adk(vol, per));
    assert CoreOk(Core(start, 0, 0));
    hide *;
    SoundOfRun(interval, s, vol, per, ops, k);
    RunIsEager(Core(start, 0, 0), ops);
    ViewIs(start, 0, 0);
    NoCycles(start);
  }

  /** In particular: if every channel keeps its sample and its volume, the pair is made of the products, and
      a channel that modulates the volume or the period of the next one adds nothing. */
  lemma SteadySound(p: (int, int), h: seq<Audio>, a: int, b: int, v: seq<int>)
    requires FourEach(h) && 0 <= a < b <= |h| && |v| == 4 && PairOf(p, h, a, b)
    requires forall j, i :: a <= j < b && 0 <= i < 4 ==>
               v[i] == if i in h[j].adkVol || i in h[j].adkPer then 0 else h[j].ch[i].sample * h[j].ch[i].vol
    ensures p == (v[0] + v[3], v[1] + v[2])
  {
    var d: seq<int> :| Means(d, h, a, b) && p == (d[0] + d[3], d[1] + d[2]);
    forall i | 0 <= i < 4 ensures d[i] == v[i] {
      SteadyTotal(h, a, b, i, v[i]);
      OnlyMean(v[i], b - a, d[i]);
    }
  }

  lemma {:induction false} SteadyTotal(h: seq<Audio>, a: int, b: int, i: nat, v: int)
    requires FourEach(h) && 0 <= a <= b <= |h| && i < 4 && forall j :: a <= j < b ==> Level(h[j], i) == v
    ensures Total(h, a, b, i) == (b - a) * v
    decreases b - a
  {
    if a < b {
      SteadyTotal(h, a, b - 1, i, v);
      assert (b - a) * v == (b - 1 - a) * v + v;
    }
  }

  lemma OnlyMean(v: int, n: int, q: int)
    requires n > 0 && TowardZero(n * v, n, q)
    ensures q == v
  {
    assert n * (v - q) == n * v - n * q;
    SignOf(n, v);
    Small(n, v - q);
  }

  lemma SignOf(n: int, v: int)
    requires n > 0
    ensures n * v >= 0 <==> v >= 0
  {
  }

  lemma Small(n: int, d: int)
    requires n > 0 && -n < n * d < n
    ensures d == 0
  {
    AtLeastOne(n, d);
  }

  /** The times are those of the source: the nearest cycle, halves rounded up. */
  lemma DueIsNearest(k: nat, interval: real)
    ensures Due(k, interval) as real - 0.5 <= k as real * interval < Due(k, interval) as real + 0.5
  {
  }

  // ------------------------------------------------------------ what a handler decides

  /** Bytes are signed, and words are read from even addresses. */
  lemma BytesAndWords(x: nat, ram: seq<nat>, i: nat)
    requires i < |ram| && ram[i] < 0x1_0000
    ensures -128 <= Signed8(x) < 128 && (Signed8(x) - x) % 256 == 0
    ensures Wget(ram, 2 * i) == ram[i]
  {
    SignedByte(x);
    SameByte(x);
    EvenAddress(i);
    hide Signed8;
    Fits(i, |ram|);
  }

  lemma SameByte(x: nat)
    ensures (Signed8(x) - x) % 256 == 0
  {
    var q, b := x / 256, x % 256;
    assert x == 256 * q + b;
    Multiple(if b < 128 then -q else -q - 1);
    assert Signed8(x) - x == 256 * if b < 128 then -q else -q - 1;
  }

  lemma Multiple(q: int)
    ensures 256 * q % 256 == 0
  {
  }

  lemma EvenAddress(i: nat)
    ensures 2 * i / 2 == i
  {
  }

  lemma Fits(i: nat, n: nat)
    requires i < n
    ensures i % n == i
  {
  }

  /** A channel that modulates the period or the volume of the next one hands it the word that it would
      otherwise play; a period of zero stands for the longest one.  Everything else of the next channel stays. */
  lemma NextChannel(s: Audio, nr: nat)
    requires nr < 3 && |s.ch| == 4 && |s.ram| > 0
    ensures var r, c := Handle(s, nr).ch[nr + 1], s.ch[nr];
            && (c.state == 2 && nr in s.adkPer ==>
                  r == s.ch[nr + 1].(per := if c.nextdat == 0 then 65535 else c.nextdat))
            && (c.state == 3 && nr in s.adkVol && (c.dmaen || nr !in s.intreq) ==> r == s.ch[nr + 1].(vol := c.nextdat))
            && (!(c.state == 2 && nr in s.adkPer) && !(c.state == 3 && nr in s.adkVol && (c.dmaen || nr !in s.intreq)) ==>
                  r == s.ch[nr + 1])
  {
    hide Own, Raises, Wget;
  }

  /** A channel played by the CPU: after the low byte it stops if nobody has answered the last request;
      otherwise it asks for the next word and goes on with the high byte of the one it has. */
  lemma PlayedByCpu(s: Audio, nr: nat)
    requires nr < 4 && |s.ch| == 4 && |s.ram| > 0 && !s.ch[nr].dmaen && s.ch[nr].state == 3
    ensures var r, c := Handle(s, nr), s.ch[nr];
            && (nr in s.intreq ==> r.ch[nr] == c.(state := 0, sample := 0, evtime := c.per) && r.intreq == s.intreq)
            && (nr !in s.intreq ==>
                  && r.ch[nr].state == 2 && r.ch[nr].evtime == c.per && r.ch[nr].dat == c.nextdat
                  && r.ch[nr].sample == Signed8(c.nextdat / 256) && r.ch[nr].written == c.written
                  && (nr in r.intreq <==> nr !in s.adkPer || nr in s.adkVol))
  {
    hide Attach, Wget, Signed8;
  }

  /** The requests for interrupts of a channel that is played by DMA. */
  function Asked(p: Playing, ram: seq<nat>, es: seq<Sound>): (n: nat)
    requires |ram| > 0 && p.words != []
  {
    if es == [] then 0
    else
      var q, e := PlayAll(p, ram, es[..|es| - 1]), es[|es| - 1];
      Asked(p, ram, es[..|es| - 1]) + if e.Handler? && Raises(q.c, false, true, e.irq) then 1 else 0
  }

  /** However handlers and lines follow each other, the channel has asked once for every time that it has
      come to the last word of its sample. */
  lemma InterruptPerPass(c: Channel, ram: seq<nat>, toHsync: nat, es: seq<Sound>)
    requires c.state == 0 && c.len < 0x1_0000 && |ram| > 0 && !c.intreq2
    ensures var start := Started(c, ram, toHsync);
            var heard, length := PlayAll(start, ram, es).heard, if c.len == 0 then 0x1_0000 else c.len;
            && heard != []
            && Asked(start, ram, es) == (heard[|heard| - 1] + 1) / length - 1 / length
  {
    StartPlays(c, ram, toHsync);
    StartAsks(c, ram, toHsync);
    hide Started;
    AsksAlong(Started(c, ram, toHsync), ram, c.lc, c.len, es);
  }

  /** The mark for an interrupt is there from the fetch of the last word until it is taken. */
  predicate Asks(p: Playing, len: nat) {
    p.c.intreq2 <==> !p.c.written && |p.words| % WordsLeft(len) == 0
  }

  lemma StartAsks(c: Channel, ram: seq<nat>, toHsync: nat)
    requires c.state == 0 && c.len < 0x1_0000 && |ram| > 0 && !c.intreq2
    ensures Asks(Started(c, ram, toHsync), c.len) && Started(c, ram, toHsync).heard == [0]
  {
    hide Wget, Signed8;
  }

  lemma {:induction false} AsksAlong(p: Playing, ram: seq<nat>, lc: nat, len: nat, es: seq<Sound>)
    requires |ram| > 0 && p.words != [] && Plays(p, ram, lc, len) && Asks(p, len) && p.heard == [0]
    ensures var r := PlayAll(p, ram, es);
            && Plays(r, ram, lc, len) && Asks(r, len)
            && Asked(p, ram, es) == (r.heard[|r.heard| - 1] + 1) / WordsLeft(len) - 1 / WordsLeft(len)
  {
    hide Play, Plays, Asks, Raises;
    PlayAllKeeps(p, ram, lc, len, es);
    PlaysHears(PlayAll(p, ram, es), ram, lc, len);
    if es != [] {
      var q, e := PlayAll(p, ram, es[..|es| - 1]), es[|es| - 1];
      AsksAlong(p, ram, lc, len, es[..|es| - 1]);
      PlaysHears(q, ram, lc, len);
      OneAsks(q, ram, lc, len, e);
    }
  }

  lemma PlaysHears(p: Playing, ram: seq<nat>, lc: nat, len: nat)
    requires |ram| > 0 && Plays(p, ram, lc, len)
    ensures p.heard != []
  {
  }

  lemma OneAsks(p: Playing, ram: seq<nat>, lc: nat, len: nat, e: Sound)
    requires |ram| > 0 && p.words != [] && Plays(p, ram, lc, len) && Asks(p, len)
    ensures var r, m := Play(p, ram, e), WordsLeft(len);
            && p.heard != [] && r.heard != [] && Asks(r, len)
            && (r.heard[|r.heard| - 1] + 1) / m == (p.heard[|p.heard| - 1] + 1) / m
                 + if e.Handler? && Raises(p.c, false, true, e.irq) then 1 else 0
  {
    var m, k := WordsLeft(len), |p.words|;
    hide Wget, Signed8, InPlace, NoneLeftOut, Place, WordsLeft, Own, FetchChannel;
    match e
    case Handler(irq) =>
      OwnPlays(p.c, irq, Wget(ram, p.c.pt));
      if k >= 2 {
        NextQuotient(k - 1, m);
      }
    case Line =>
      FetchPlays(p.c, Wget(ram, p.c.pt));
      NextPlace(len, k, p.c.wlen);
      NotOne(len, k, p.c.wlen);
  }

  lemma NotOne(len: nat, k: nat, wlen: nat)
    requires len < 0x1_0000 && wlen < 0x1_0000 && WordsLeft(wlen) == WordsLeft(len) - k % WordsLeft(len)
    ensures wlen != 1 ==> (k + 1) % WordsLeft(len) != 0
  {
    Around(k, WordsLeft(len));
  }

  /** Counting one further, the quotient grows exactly at a multiple. */
  lemma NextQuotient(k: nat, m: nat)
    requires m > 0
    ensures (k + 1) / m == k / m + if (k + 1) % m == 0 then 1 else 0
  {
    Around(k, m);
    var a, b := (k + 1) / m, k / m;
    DivMod(k + 1, m);
    DivMod(k, m);
    assert m * (a - b) == m * a - m * b;
    if (k + 1) % m == 0 {
      ExactlyOne(m, a - b);
    } else {
      AtLeastOne(m, a - b);
    }
  }

  lemma DivMod(x: nat, m: nat)
    requires m > 0
    ensures x == m * (x / m) + x % m
  {
  }

  lemma ExactlyOne(m: int, d: int)
    requires m > 0 && m * d == m
    ensures d == 1
  {
  }

  // ------------------------------------------------------------- register writes

  /** A write reaches the channel that it is for and no other. */
  lemma WriteReaches(s: Audio, w: Change)
    requires Valid(s) && ChangeOk(w) && !w.Dma? && !w.Adk? && !w.Fetch?
    ensures |s.ch| == |Apply(s, w).ch| == 4 && forall i :: 0 <= i < 4 && i != w.nr ==> Apply(s, w).ch[i] == s.ch[i]
  {
    FourInAll(s);
    hide Valid, ChangeChannel;
  }

  /** What the registers of channel nr become. */
  lemma RegistersWritten(s: Audio, nr: nat, v: nat)
    requires Valid(s) && nr < 4 && v < 0x1_0000
    ensures |s.ch| == 4
    ensures Apply(s, Period(nr, v)).ch[nr] == s.ch[nr].(per := if v == 0 then 65535 else if v < 16 then 16 else v)
    ensures v < 64 ==> Apply(s, Volume(nr, v)).ch[nr] == s.ch[nr].(vol := v)
    ensures 64 <= v < 128 ==> Apply(s, Volume(nr, v)).ch[nr] == s.ch[nr].(vol := 63)
    ensures Apply(s, Volume(nr, v)) == Apply(s, Volume(nr, v % 128))
    ensures Apply(s, Length(nr, v)).ch[nr] == s.ch[nr].(len := v)
  {
    FourInAll(s);
    LowSeven(v);
    hide Valid, DmaChannel, FetchChannel;
  }

  lemma LowSeven(v: nat)
    ensures v / 64 % 2 == v % 128 / 64 % 2 && v % 64 == v % 128 % 64
  {
    var q, r := v / 128, v % 128;
    assert v == 128 * q + r;
    Sixtyfourths(2 * q, r);
    Sixtyfourths(0, r);
    TwiceMore(q, r / 64);
  }

  lemma Sixtyfourths(q: nat, r: nat)
    ensures (64 * q + r) / 64 == q + r / 64 && (64 * q + r) % 64 == r % 64
  {
  }

  lemma TwiceMore(q: nat, r: nat)
    ensures (2 * q + r) % 2 == r % 2
  {
  }

  /** The location of a sample is written in two halves, in either order, and is even. */
  lemma LocationIsLoaded(s: Audio, nr: nat, hi: nat, lo: nat)
    requires Valid(s) && nr < 4 && hi < 0x1_0000 && lo < 0x1_0000
    ensures var up, down := Apply(Apply(s, LocHigh(nr, hi)), LocLow(nr, lo)), Apply(Apply(s, LocLow(nr, lo)), LocHigh(nr, hi));
            |up.ch| == |down.ch| == 4 && up.ch[nr].lc == down.ch[nr].lc == 0x1_0000 * hi + lo - lo % 2
  {
    FourInAll(s);
    hide Valid, DmaChannel, FetchChannel;
    Halves(s.ch[nr].lc, hi, lo);
  }

  lemma Halves(lc: nat, hi: nat, lo: nat)
    requires lo < 0x1_0000
    ensures (lc % 0x1_0000 + hi * 0x1_0000) / 0x1_0000 * 0x1_0000 + lo / 2 * 2 == 0x1_0000 * hi + lo - lo % 2
    ensures (lc / 0x1_0000 * 0x1_0000 + lo / 2 * 2) % 0x1_0000 + hi * 0x1_0000 == 0x1_0000 * hi + lo - lo % 2
  {
    HighHalf(hi, lc % 0x1_0000);
    HighHalf(lc / 0x1_0000, lo / 2 * 2);
  }

  lemma HighHalf(q: nat, r: nat)
    requires r < 0x1_0000
    ensures (r + q * 0x1_0000) / 0x1_0000 == q && (q * 0x1_0000 + r) % 0x1_0000 == r
  {
  }

  /** A data word starts an idle channel unless its last request is unanswered, and then asks for an interrupt. */
  lemma DataWritten(s: Audio, nr: nat, v: nat)
    requires Valid(s) && nr < 4 && v < 0x1_0000
    ensures var r := Apply(s, Data(nr, v));
            && |s.ch| == |r.ch| == 4
            && (s.ch[nr].state == 0 && nr !in s.intreq ==>
                  r.ch[nr] == s.ch[nr].(dat := v, state := 2, evtime := s.ch[nr].per) && r.intreq == s.intreq + {nr})
            && (s.ch[nr].state != 0 || nr in s.intreq ==> r.ch[nr] == s.ch[nr].(dat := v) && r.intreq == s.intreq)
  {
    FourInAll(s);
    hide Valid, DmaChannel, FetchChannel;
  }

  /** DMA off stops a channel that has not begun to play, and leaves a playing one to the CPU; DMA on starts an
      idle channel at the location and length that it has latched. */
  lemma DmaSwitched(s: Audio, on: set<int>, toHsync: nat, i: nat)
    requires Valid(s) && i < 4
    ensures var r := Apply(s, Dma(on, toHsync));
            && |s.ch| == |r.ch| == 4
            && var c, d := s.ch[i], r.ch[i];
               if i in on then
                 if c.state == 0
                 then d == c.(dmaen := true, state := 1, pt := c.lc, wlen := c.len, written := true, evtime := toHsync)
                 else d == c.(dmaen := true)
               else if c.state == 1 || c.state == 5 then d == c.(dmaen := false, state := 0, sample := 0)
               else d == c.(dmaen := false)
  {
    FourInAll(s);
    hide Valid, ChangeChannel, FetchChannel;
  }

  /** The handler of a channel that is being started by DMA takes one line, asks for an interrupt and counts the word;
      then the channel plays half words, one for each period. */
  lemma HandlerTimes(s: Audio, nr: nat)
    requires nr < 4 && |s.ch| == 4 && |s.ram| > 0
    ensures var c, d := s.ch[nr], Handle(s, nr).ch[nr];
            && (c.state == 1 ==>
                  d == c.(evtime := 227, state := 5, nextdat := Wget(s.ram, c.pt), wlen := d.wlen)
                  && d.wlen == (if c.wlen == 1 then 1 else if c.wlen == 0 then 65535 else (c.wlen - 1) % 0x1_0000)
                  && nr in Handle(s, nr).intreq)
            && (c.state == 5 || c.state == 2 || (c.state == 3 && (c.dmaen || nr !in s.intreq)) ==> d.evtime == c.per)
            && (c.state == 5 || c.state == 3 ==> d.state == 2 || (c.state == 3 && !c.dmaen && nr in s.intreq && d.state == 0))
            && (c.state == 2 ==> d.state == 3)
  {
    hide Attach, Wget, Signed8;
  }

  /** After a reset every channel is idle and silent, with the longest period, and nothing has been put out. */
  lemma ResetIsSilent(interval: real, s: Audio, i: nat)
    requires i < 4
    ensures var r := AfterReset(interval, s);
            && |r.ch| == 4 && r.out == [] && r.next == interval && r.interval == interval
            && r.ch[i].state == 0 && r.ch[i].per == 65535 && r.ch[i].vol == 0 && r.ch[i].sample == 0
            && r.ch[i].accum == 0 && r.ch[i].time == 0 && !r.ch[i].dmaen
  {
  }
}
