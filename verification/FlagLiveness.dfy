/**
 Condition-flag liveness in m68k_scan_block of src/compiler.c: a forward scan of every basic
 block, followed by backward rounds over the blocks in order.  Normally there is just one round.
 */
module FlagLiveness {

  datatype Flag = X | N | Z | V | C

  const ALL := {X, N, Z, V, C}

  /** One entry of insn_info: the flags the opcode table says are set and used, whether
      flags_used has been forced to 31 (returns, jumps and calls), and stop_translation. */
  datatype Insn = Insn(fset: set<Flag>, fuse: set<Flag>, forced: bool, stop: bool)

  /** A basic block and the blocks that may follow it (bb_next1 and bb_next2). */
  datatype Block = Block(insns: seq<Insn>, next: set<nat>)

  type Program = seq<Block>

  predicate BlockOk(p: Program, b: Block) {
    && b.insns != [] && (forall s :: s in b.next ==> s < |p|)
    && OnlyLastLeaves(b.insns)
  }

  /** Returns, jumps and calls end the block, and only its end can stop the translation. */
  predicate OnlyLastLeaves(insns: seq<Insn>) {
    forall i :: 0 <= i < |insns| - 1 ==> !insns[i].forced && !insns[i].stop
  }

  predicate Wellformed(p: Program) { forall b :: b in p ==> BlockOk(p, b) }

  function Used(i: Insn): set<Flag> { if i.forced then ALL else i.fuse }

  // --------------------------------------------------------------------- forward scan

  /** live_at_start and may_clear_las after the instructions. */
  function ForwardFrom(insns: seq<Insn>, live: set<Flag>, mayClear: set<Flag>): set<Flag> {
    if insns == [] then live
    else
      var may := mayClear - insns[0].fuse;
      ForwardFrom(insns[1..], live - insns[0].fset * may, may)
  }

  /** What the forward scan takes to be live at the start of a block. */
  function Forward(insns: seq<Insn>): set<Flag> { ForwardFrom(insns, ALL, ALL) }

  // ------------------------------------------------------------------- backward passes

  /** Live before the instructions when `end` is live after them. */
  function Backward(insns: seq<Insn>, end: set<Flag>): set<Flag> {
    if insns == [] then end else (Backward(insns[1..], end) - insns[0].fset) + Used(insns[0])
  }

  lemma {:induction false} BackwardIsMonotone(insns: seq<Insn>, a: set<Flag>, b: set<Flag>)
    requires a <= b
    ensures Backward(insns, a) <= Backward(insns, b)
  {
    if insns != [] {
      BackwardIsMonotone(insns[1..], a, b);
    }
  }

  type Starts = seq<set<Flag>>

  /** The flags live at the end of block b, going by the starts of the blocks that follow. */
  function EndLive(p: Program, b: nat, starts: Starts): set<Flag>
    requires Wellformed(p) && b < |p| && |starts| == |p|
  {
    assert p[b] in p;
    if p[b].insns[|p[b].insns| - 1].stop then ALL
    else set s, f | s in p[b].next && f in starts[s] :: f
  }

  lemma EndLiveIsMonotone(p: Program, b: nat, s: Starts, t: Starts)
    requires Wellformed(p) && b < |p| && |s| == |t| == |p| && Below(s, t)
    ensures EndLive(p, b, s) <= EndLive(p, b, t)
  {
    assert p[b] in p;
    if !p[b].insns[|p[b].insns| - 1].stop {
      forall f | f in EndLive(p, b, s) ensures f in EndLive(p, b, t) {
        var i :| i in p[b].next && f in s[i];
        assert f in t[i];
      }
    }
  }

  predicate Below(s: Starts, t: Starts) { |s| == |t| && forall i :: 0 <= i < |s| ==> s[i] <= t[i] }

  /** The starts with which the backward rounds begin. */
  function Initial(p: Program): (s: Starts)
    ensures |s| == |p|
  {
    seq(|p|, i requires 0 <= i < |p| => Forward(p[i].insns))
  }

  /** The backward pass over block b puts its result in place of the old start. */
  function PassBlock(p: Program, b: nat, s: Starts): (t: Starts)
    requires Wellformed(p) && b < |p| && |s| == |p|
    ensures |t| == |p|
  {
    s[b := Backward(p[b].insns, EndLive(p, b, s))]
  }

  /** The starts after the backward passes over blocks 0 .. n-1 of a round. */
  function Passed(p: Program, s: Starts, n: nat): (t: Starts)
    requires Wellformed(p) && n <= |p| && |s| == |p|
    ensures |t| == |p|
  {
    if n == 0 then s else PassBlock(p, n - 1, Passed(p, s, n - 1))
  }

  /** flags_live_at_end of instruction k of block b as the round records it. */
  function Recorded(p: Program, s: Starts, b: nat, k: nat): set<Flag>
    requires Wellformed(p) && b < |p| && |s| == |p| && k < |p[b].insns|
  {
    Backward(p[b].insns[k + 1..], EndLive(p, b, Passed(p, s, b)))
  }

  // ---------------------------------------------------------------------- what is live

  /** Some path of at most n steps from just before instruction k of block b reads flag f before
      anything writes it.  Code that is not translated may read every flag. */
  ghost predicate Live(p: Program, b: nat, k: nat, f: Flag, n: nat)
    requires Wellformed(p) && b < |p| && k <= |p[b].insns|
    decreases n
  {
    assert p[b] in p;
    if n == 0 then false
    else if k < |p[b].insns| then
      f in Used(p[b].insns[k]) || (f !in p[b].insns[k].fset && Live(p, b, k + 1, f, n - 1))
    else
      p[b].insns[k - 1].stop || exists s :: s in p[b].next && Live(p, s, 0, f, n - 1)
  }

  /** Starts from which each block's own pass adds nothing. */
  ghost predicate Covers(p: Program, s: Starts)
    requires Wellformed(p) && |s| == |p|
  {
    forall b :: 0 <= b < |p| ==> Backward(p[b].insns, EndLive(p, b, s)) <= s[b]
  }

  /** Such starts contain every flag that is live. */
  lemma {:induction false} CoverContainsLive(p: Program, s: Starts, b: nat, k: nat, f: Flag, n: nat)
    requires Wellformed(p) && |s| == |p| && Covers(p, s) && b < |p| && k <= |p[b].insns| && Live(p, b, k, f, n)
    ensures f in Backward(p[b].insns[k..], EndLive(p, b, s))
    decreases n
  {
    assert p[b] in p;
    var insns := p[b].insns;
    if k < |insns| {
      assert insns[k..][1..] == insns[k + 1..];
      if f !in Used(insns[k]) {
        CoverContainsLive(p, s, b, k + 1, f, n - 1);
      }
    } else if !insns[k - 1].stop {
      var t :| t in p[b].next && Live(p, t, 0, f, n - 1);
      CoverContainsLive(p, s, t, 0, f, n - 1);
      assert p[t].insns[0..] == p[t].insns;
    }
  }

  /** A backward pass only takes flags away, and what is left still covers. */
  lemma PassKeepsCover(p: Program, b: nat, s: Starts)
    requires Wellformed(p) && b < |p| && |s| == |p| && Covers(p, s)
    ensures var t := PassBlock(p, b, s); Below(t, s) && Covers(p, t)
  {
    hide Backward, EndLive;
    var t := PassBlock(p, b, s);
    assert Below(t, s);
    forall i | 0 <= i < |p| ensures Backward(p[i].insns, EndLive(p, i, t)) <= t[i] {
      EndLiveIsMonotone(p, i, t, s);
      BackwardIsMonotone(p[i].insns, EndLive(p, i, t), EndLive(p, i, s));
    }
  }

  /** So does a whole round, or any part of it. */
  lemma {:induction false} RoundShrinks(p: Program, s: Starts, n: nat)
    requires Wellformed(p) && n <= |p| && |s| == |p| && Covers(p, s)
    ensures Below(Passed(p, s, n), s) && Covers(p, Passed(p, s, n))
  {
    hide Covers, PassBlock;
    if n > 0 {
      RoundShrinks(p, s, n - 1);
      PassKeepsCover(p, n - 1, Passed(p, s, n - 1));
      BelowIsTransitive(PassBlock(p, n - 1, Passed(p, s, n - 1)), Passed(p, s, n - 1), s);
    }
  }

  lemma BelowIsTransitive(a: Starts, b: Starts, c: Starts)
    requires Below(a, b) && Below(b, c)
    ensures Below(a, c)
  {
  }

  /** Every flag live after an instruction is recorded for it. */
  ghost predicate Sound(p: Program, s: Starts)
    requires Wellformed(p) && |s| == |p|
  {
    forall b, k, f, n: nat :: 0 <= b < |p| && 0 < k <= |p[b].insns| && Live(p, b, k, f, n)
      ==> f in Recorded(p, s, b, k - 1)
  }

  lemma RecordedCovers(p: Program, s: Starts)
    requires Wellformed(p) && |s| == |p| && Covers(p, s)
    ensures Sound(p, s)
  {
    forall b, k, f, n: nat | 0 <= b < |p| && 0 < k <= |p[b].insns| && Live(p, b, k, f, n)
      ensures f in Recorded(p, s, b, k - 1)
    {
      RoundShrinks(p, s, b);
      hide Covers, Live, EndLive;
      CoverContainsLive(p, Passed(p, s, b), b, k, f, n);
    }
  }

  // ------------------------------------------------------ the forward scan covers

  /** A forced instruction that declares no write it does not also declare a use of. */
  predicate Honest(i: Insn) { i.forced ==> i.fset <= i.fuse }

  predicate AllHonest(p: Program) { forall b, i :: b in p && i in b.insns ==> Honest(i) }

  /** The forward scan finds exactly what a backward pass from all flags finds. */
  lemma {:induction false} ForwardIsBackward(insns: seq<Insn>, live: set<Flag>, may: set<Flag>)
    requires OnlyLastLeaves(insns) && forall i :: i in insns ==> Honest(i)
    ensures ForwardFrom(insns, live, may) == live - (may - Backward(insns, ALL))
  {
    EveryFlag();
    if insns != [] {
      var m := may - insns[0].fuse;
      forall i | 0 <= i < |insns[1..]| - 1 ensures !insns[1..][i].forced && !insns[1..][i].stop {
        assert insns[1..][i] == insns[i + 1];
      }
      ForwardIsBackward(insns[1..], live - insns[0].fset * m, m);
      assert Honest(insns[0]);
      if insns[0].forced {
        assert insns[1..] == [];
      }
    }
  }

  lemma EveryFlag()
    ensures forall f: Flag :: f in ALL
  {
    forall f: Flag ensures f in ALL {
      match f {
        case X =>
        case N =>
        case Z =>
        case V =>
        case C =>
      }
    }
  }

  lemma InitialCovers(p: Program)
    requires Wellformed(p) && AllHonest(p)
    ensures Covers(p, Initial(p))
  {
    EveryFlag();
    var s := Initial(p);
    forall b | 0 <= b < |p| ensures Backward(p[b].insns, EndLive(p, b, s)) <= s[b] {
      assert p[b] in p;
      ForwardIsBackward(p[b].insns, ALL, ALL);
      BackwardIsMonotone(p[b].insns, EndLive(p, b, s), ALL);
    }
  }

  /** One backward round is enough: every flag that some path can still read before writing is
      recorded as live, provided no forced use hides a declared write. */
  lemma OneRoundIsSound(p: Program)
    requires Wellformed(p) && AllHonest(p)
    ensures Sound(p, Initial(p))
  {
    hide Covers, Sound;
    InitialCovers(p);
    RecordedCovers(p, Initial(p));
  }

  // -------------------------------------------------------- when one round is not enough

  /** Block 0 does nothing and goes on to block 1, which ends in instruction t. */
  function TwoBlocks(t: Insn): Program {
    [Block([Insn({}, {}, false, false)], {1}), Block([t], {})]
  }

  /** A forced instruction with a declared write that is not declared as used makes the first
      round miss that flag in an earlier block. */
  lemma DishonestTerminatorIsUnsound(t: Insn)
    requires t.forced && !(t.fset <= t.fuse)
    ensures Wellformed(TwoBlocks(t)) && !Sound(TwoBlocks(t), Initial(TwoBlocks(t)))
  {
    var p := TwoBlocks(t);
    var s := Initial(p);
    var f :| f in t.fset && f !in t.fuse;
    EveryFlag();
    var none: seq<Insn> := [];
    assert [t][1..] == none;
    assert ForwardFrom([t], ALL, ALL) == ForwardFrom([t][1..], ALL - t.fset * (ALL - t.fuse), ALL - t.fuse);
    assert Forward([t]) == ALL - t.fset * (ALL - t.fuse);
    assert f !in s[1];
    assert Live(p, 1, 0, f, 1);
    assert Live(p, 0, 1, f, 2);
    assert p[0].insns[1..] == none;
    assert Passed(p, s, 0) == s;
    assert f !in Recorded(p, s, 0, 0);
  }

  predicate OnlyForced(p: Program, t: Insn) { forall b, i :: b in p && i in b.insns && i.forced ==> i == t }

  /** For a terminator whose use is forced: one round is sound for every program in which it is the
      only one, if and only if every flag it is declared to write it is also declared to use. */
  lemma SoundIffForcedUsesDeclared(t: Insn)
    requires t.forced
    ensures (forall p: Program :: Wellformed(p) && OnlyForced(p, t) ==> Sound(p, Initial(p))) <==> t.fset <= t.fuse
  {
    hide Sound;
    if t.fset <= t.fuse {
      forall p: Program | Wellformed(p) && OnlyForced(p, t) ensures Sound(p, Initial(p)) {
        assert AllHonest(p);
        OneRoundIsSound(p);
      }
    } else {
      DishonestTerminatorIsUnsound(t);
      assert OnlyForced(TwoBlocks(t), t);
    }
  }

  /** One column of the opcode table: five characters for X, N, Z, V and C. */
  function FlagAt(i: nat): Flag
    requires i < 5
  {
    if i == 0 then X else if i == 1 then N else if i == 2 then Z else if i == 3 then V else C
  }

  /** flagdead: '-' and '/' set nothing, '?' counts as setting everything. */
  function DeclaredSet(s: string): set<Flag>
    requires |s| == 5
  {
    if '?' in s then ALL else set i | 0 <= i < 5 && s[i] != '-' && s[i] != '/' :: FlagAt(i)
  }

  /** flaglive: '-' uses nothing, '?' counts as using everything. */
  function DeclaredUse(s: string): set<Flag>
    requires |s| == 5
  {
    if '?' in s then ALL else set i | 0 <= i < 5 && s[i] != '-' :: FlagAt(i)
  }

  /** A terminator as the table declares it. */
  function Terminator(fset: string, fuse: string): Insn
    requires |fset| == |fuse| == 5
  {
    Insn(DeclaredSet(fset), DeclaredUse(fuse), true, true)
  }

  /** The instructions that end a block with their uses forced to all flags. */
  datatype Mnemonic = RTS | RTE | RTR | RTD | JMP | ILLEGAL | BSR | JSR

  /** Their lines in the table. */
  function TableTerminator(m: Mnemonic): Insn {
    match m
    case RTS => Terminator("-----", "-----")
    case RTE => Terminator("XNZVC", "-----")
    case RTR => Terminator("XNZVC", "-----")
    case RTD => Terminator("?????", "?????")
    case ILLEGAL => Terminator("?????", "?????")
    case JMP => Terminator("/////", "/////")
    case BSR => Terminator("/////", "/////")
    case JSR => Terminator("/////", "/////")
  }

  /** All of them are safe but RTE and RTR, which are declared to set all flags and to use none. */
  lemma TableTerminators(m: Mnemonic)
    ensures Honest(TableTerminator(m)) <==> m != RTE && m != RTR
  {
    assert X in Terminator("XNZVC", "-----").fset by {
      assert "XNZVC"[0] == 'X' && FlagAt(0) == X;
      assert '?' !in "XNZVC";
    }
    assert '?' !in "-----";
    assert forall i :: 0 <= i < 5 ==> "-----"[i] == '-';
    assert forall i :: 0 <= i < 5 ==> "/////"[i] == '/';
    assert '?' !in "/////";
    assert "?????"[0] == '?';
  }

  // --------------------------------------------------------- rounds until nothing changes

  /** The starts after n whole rounds. */
  function Rounds(p: Program, s: Starts, n: nat): (t: Starts)
    requires Wellformed(p) && |s| == |p|
    ensures |t| == |p|
  {
    if n == 0 then s else Passed(p, Rounds(p, s, n - 1), |p|)
  }

  predicate Settled(p: Program, s: Starts)
    requires Wellformed(p) && |s| == |p|
  {
    Passed(p, s, |p|) == s
  }

  /** The union of two sets of starts. */
  function Joined(s: Starts, t: Starts): (u: Starts)
    requires |s| == |t|
    ensures |u| == |s| && forall i :: 0 <= i < |s| ==> u[i] == s[i] + t[i]
  {
    seq(|s|, i requires 0 <= i < |s| => s[i] + t[i])
  }

  lemma {:induction false} BackwardJoins(insns: seq<Insn>, a: set<Flag>, b: set<Flag>)
    ensures Backward(insns, a + b) == Backward(insns, a) + Backward(insns, b)
  {
    if insns != [] {
      BackwardJoins(insns[1..], a, b);
    }
  }

  lemma EndLiveJoins(p: Program, b: nat, s: Starts, t: Starts)
    requires Wellformed(p) && b < |p| && |s| == |t| == |p|
    ensures EndLive(p, b, Joined(s, t)) == EndLive(p, b, s) + EndLive(p, b, t)
  {
    var u := Joined(s, t);
    EndLiveIsMonotone(p, b, s, u);
    EndLiveIsMonotone(p, b, t, u);
    assert p[b] in p;
    if !p[b].insns[|p[b].insns| - 1].stop {
      forall f | f in EndLive(p, b, u) ensures f in EndLive(p, b, s) + EndLive(p, b, t) {
        var i :| i in p[b].next && f in u[i];
        assert f in s[i] || f in t[i];
      }
    }
  }

  lemma {:induction false} PassedJoins(p: Program, s: Starts, t: Starts, n: nat)
    requires Wellformed(p) && n <= |p| && |s| == |t| == |p|
    ensures Passed(p, Joined(s, t), n) == Joined(Passed(p, s, n), Passed(p, t, n))
  {
    hide EndLive, Backward;
    if n > 0 {
      var a, b := Passed(p, s, n - 1), Passed(p, t, n - 1);
      PassedJoins(p, s, t, n - 1);
      EndLiveJoins(p, n - 1, a, b);
      BackwardJoins(p[n - 1].insns, EndLive(p, n - 1, a), EndLive(p, n - 1, b));
    }
  }

  /** The join with settled starts goes through the rounds unharmed. */
  lemma {:induction false} RoundsJoin(p: Program, s: Starts, t: Starts, n: nat)
    requires Wellformed(p) && |s| == |t| == |p| && Settled(p, t)
    ensures Rounds(p, Joined(s, t), n) == Joined(Rounds(p, s, n), t)
  {
    hide Passed;
    if n > 0 {
      RoundsJoin(p, s, t, n - 1);
      PassedJoins(p, Rounds(p, s, n - 1), t, |p|);
    }
  }

  lemma {:induction false} PassedIsMonotone(p: Program, s: Starts, t: Starts, n: nat)
    requires Wellformed(p) && n <= |p| && |s| == |t| == |p| && Below(s, t)
    ensures Below(Passed(p, s, n), Passed(p, t, n))
  {
    hide EndLive, Backward;
    if n > 0 {
      var a, b := Passed(p, s, n - 1), Passed(p, t, n - 1);
      PassedIsMonotone(p, s, t, n - 1);
      EndLiveIsMonotone(p, n - 1, a, b);
      BackwardIsMonotone(p[n - 1].insns, EndLive(p, n - 1, a), EndLive(p, n - 1, b));
    }
  }

  lemma {:induction false} RoundsAreMonotone(p: Program, s: Starts, t: Starts, n: nat)
    requires Wellformed(p) && |s| == |t| == |p| && Below(s, t)
    ensures Below(Rounds(p, s, n), Rounds(p, t, n))
  {
    hide Passed;
    if n > 0 {
      RoundsAreMonotone(p, s, t, n - 1);
      PassedIsMonotone(p, Rounds(p, s, n - 1), Rounds(p, t, n - 1), |p|);
    }
  }

  /** Covering starts go on covering, and shrinking. */
  lemma {:induction false} RoundsKeepCover(p: Program, s: Starts, n: nat)
    requires Wellformed(p) && |s| == |p| && Covers(p, s)
    ensures Covers(p, Rounds(p, s, n)) && Below(Rounds(p, s, n), s)
  {
    hide Passed, Covers;
    if n > 0 {
      RoundsKeepCover(p, s, n - 1);
      RoundShrinks(p, Rounds(p, s, n - 1), |p|);
      BelowIsTransitive(Rounds(p, s, n), Rounds(p, s, n - 1), s);
    } else {
      assert Below(s, s);
    }
  }

  /** The number of live flags in all the starts together. */
  function Bits(s: Starts): nat { if s == [] then 0 else |s[0]| + Bits(s[1..]) }

  lemma SmallerSet(a: set<Flag>, b: set<Flag>)
    requires a <= b
    ensures |a| <= |b| && (|a| == |b| ==> a == b)
  {
    assert b == a + (b - a);
    assert |b| == |a| + |b - a|;
  }

  lemma {:induction false} BelowHasFewerBits(s: Starts, t: Starts)
    requires Below(s, t)
    ensures Bits(s) <= Bits(t) && (Bits(s) == Bits(t) ==> s == t)
  {
    if s != [] {
      SmallerSet(s[0], t[0]);
      BelowHasFewerBits(s[1..], t[1..]);
      assert s == [s[0]] + s[1..] && t == [t[0]] + t[1..];
    }
  }

  lemma {:induction false} AtMostFive(s: Starts)
    ensures Bits(s) <= 5 * |s|
  {
    if s != [] {
      EveryFlag();
      SmallerSet(s[0], ALL);
      AtMostFive(s[1..]);
    }
  }

  function Nothing(p: Program): (s: Starts)
    ensures |s| == |p| && forall i :: 0 <= i < |s| ==> s[i] == {}
  {
    seq(|p|, i => {})
  }

  /** From nothing the starts grow round by round, so they settle or gain a bit each time. */
  lemma {:induction false} NothingGrows(p: Program, n: nat)
    requires Wellformed(p)
    ensures Below(Rounds(p, Nothing(p), n), Rounds(p, Nothing(p), n + 1))
    ensures Settled(p, Rounds(p, Nothing(p), n)) || Bits(Rounds(p, Nothing(p), n + 1)) > n
  {
    hide Passed;
    var s := Nothing(p);
    if n > 0 {
      NothingGrows(p, n - 1);
      PassedIsMonotone(p, Rounds(p, s, n - 1), Rounds(p, s, n), |p|);
    }
    BelowHasFewerBits(Rounds(p, s, n), Rounds(p, s, n + 1));
  }

  lemma NothingSettles(p: Program)
    requires Wellformed(p)
    ensures Settled(p, Rounds(p, Nothing(p), 5 * |p|))
  {
    NothingGrows(p, 5 * |p|);
    AtMostFive(Rounds(p, Nothing(p), 5 * |p| + 1));
  }

  /** The forward scan misses only flags that the block itself reads first. */
  lemma {:induction false} ForwardMisses(insns: seq<Insn>, live: set<Flag>, may: set<Flag>)
    ensures Backward(insns, ALL) * live <= ForwardFrom(insns, live, may) + Backward(insns, {})
  {
    if insns != [] {
      var m := may - insns[0].fuse;
      var rest, kept := insns[1..], live - insns[0].fset * m;
      ForwardMisses(rest, kept, m);
      forall f | f in Backward(insns, ALL) && f in live
        ensures f in ForwardFrom(insns, live, may) + Backward(insns, {})
      {
        if f !in Used(insns[0]) {
          assert f in Backward(rest, ALL) * kept;
        }
      }
    }
  }

  /** Block b's entry after the passes over blocks 0 .. n-1. */
  lemma {:induction false} PassedAt(p: Program, s: Starts, n: nat, b: nat)
    requires Wellformed(p) && n <= |p| && |s| == |p| && b < |p|
    ensures Passed(p, s, n)[b] == if b < n then Backward(p[b].insns, EndLive(p, b, Passed(p, s, b))) else s[b]
  {
    hide EndLive, Backward;
    if n > 0 {
      PassedAt(p, s, n - 1, b);
    }
  }

  /** Settled starts cover: no pass of the round changes anything. */
  lemma SettledCovers(p: Program, s: Starts)
    requires Wellformed(p) && |s| == |p| && Settled(p, s)
    ensures Covers(p, s)
  {
    hide EndLive, Backward, Passed;
    forall b | 0 <= b < |p| ensures Backward(p[b].insns, EndLive(p, b, s)) <= s[b] {
      var t := Passed(p, s, b);
      forall i | 0 <= i < |p| ensures t[i] == s[i] {
        PassedAt(p, s, b, i);
        PassedAt(p, s, |p|, i);
      }
      assert t == s;
      PassedAt(p, s, |p|, b);
    }
  }

  /** Whatever the forward scan misses, settled starts contain. */
  lemma InitialAndSettledCover(p: Program, least: Starts)
    requires Wellformed(p) && |least| == |p| && Settled(p, least)
    ensures Covers(p, Joined(Initial(p), least))
  {
    hide Backward, EndLive, Settled;
    var s := Joined(Initial(p), least);
    EveryFlag();
    SettledCovers(p, least);
    forall b | 0 <= b < |p| ensures Backward(p[b].insns, EndLive(p, b, s)) <= s[b] {
      ForwardMisses(p[b].insns, ALL, ALL);
      assert s[b] == Forward(p[b].insns) + least[b];
      BackwardIsMonotone(p[b].insns, EndLive(p, b, s), ALL);
      BackwardIsMonotone(p[b].insns, {}, EndLive(p, b, least));
      assert Backward(p[b].insns, ALL) * ALL == Backward(p[b].insns, ALL);
    }
  }

  lemma JoinBelow(s: Starts, t: Starts)
    requires Below(s, t)
    ensures Joined(t, s) == t
  {
    forall i | 0 <= i < |t| ensures Joined(t, s)[i] == t[i] {
      assert s[i] <= t[i];
    }
  }

  /** After 5 * |p| rounds the starts cover, whatever the instructions declare. */
  lemma RoundsCover(p: Program, n: nat)
    requires Wellformed(p) && n >= 5 * |p|
    ensures Covers(p, Rounds(p, Initial(p), n))
  {
    hide Covers, Settled, Rounds;
    var least, s := Rounds(p, Nothing(p), 5 * |p|), Initial(p);
    NothingSettles(p);
    InitialAndSettledCover(p, least);
    RoundsKeepCover(p, Joined(s, least), n);
    RoundsJoin(p, s, least, n);
    RoundsSettled(p, n - 5 * |p|);
    RoundsAreMonotone(p, Nothing(p), s, n);
    assert 5 * |p| + (n - 5 * |p|) == n;
    assert Below(least, Rounds(p, s, n));
    JoinBelow(least, Rounds(p, s, n));
  }

  lemma {:induction false} RoundsSettled(p: Program, k: nat)
    requires Wellformed(p)
    ensures Rounds(p, Nothing(p), 5 * |p| + k) == Rounds(p, Nothing(p), 5 * |p|)
  {
    hide Passed;
    if k > 0 {
      RoundsSettled(p, k - 1);
      NothingSettles(p);
    }
  }

  /** From there each round settles or takes a flag away. */
  lemma {:induction false} LaterRoundsShrink(p: Program, k: nat)
    requires Wellformed(p)
    ensures var s, n := Initial(p), 5 * |p| + k;
      Settled(p, Rounds(p, s, n)) || Bits(Rounds(p, s, n)) > Bits(Rounds(p, s, n + 1))
  {
    hide Passed, Covers;
    var n := 5 * |p| + k;
    var s := Rounds(p, Initial(p), n);
    RoundsCover(p, n);
    RoundShrinks(p, s, |p|);
    BelowHasFewerBits(Rounds(p, Initial(p), n + 1), s);
  }

  /** Rounds repeated until one changes nothing come to an end: at most ten per block come
      before that one, whatever the instructions declare. */
  lemma RepeatedRoundsSettle(p: Program)
    requires Wellformed(p)
    ensures exists n :: 0 <= n <= 10 * |p| && Settled(p, Rounds(p, Initial(p), n))
  {
    hide Settled, Rounds;
    AtMostFive(Rounds(p, Initial(p), 5 * |p|));
    assert 5 * |p| + 0 == 5 * |p|;
    SettlesWithin(p, 0);
  }

  /** Unless the starts settle first, k rounds after the first 5 * |p| leave only so many flags. */
  lemma {:induction false} SettlesWithin(p: Program, k: nat)
    requires Wellformed(p) && Bits(Rounds(p, Initial(p), 5 * |p| + k)) + k <= 5 * |p|
    ensures exists n :: 0 <= n <= 10 * |p| && Settled(p, Rounds(p, Initial(p), n))
    decreases 5 * |p| - k
  {
    hide Settled, Rounds;
    if !Settled(p, Rounds(p, Initial(p), 5 * |p| + k)) {
      LaterRoundsShrink(p, k);
      assert 5 * |p| + k + 1 == 5 * |p| + (k + 1);
      SettlesWithin(p, k + 1);
    }
  }

  // ------------------------------------------------------------------------ the scanner

  /** The flags recorded for every instruction of every block. */
  type Record = seq<seq<set<Flag>>>

  /** Every flag live after an instruction is in the record. */
  ghost predicate RecordSound(p: Program, ends: Record)
    requires Wellformed(p)
  {
    |ends| == |p| && forall b, k, f, n: nat :: 0 <= b < |p| && 0 < k <= |p[b].insns| && Live(p, b, k, f, n) ==>
      k <= |ends[b]| && f in ends[b][k - 1]
  }

  /** The record of one block's backward pass. */
  predicate BlockRecord(insns: seq<Insn>, end: set<Flag>, r: seq<set<Flag>>) {
    |r| == |insns| && forall k :: 0 <= k < |insns| ==> r[k] == Backward(insns[k + 1..], end)
  }

  lemma RecordGrows(insns: seq<Insn>, end: set<Flag>, r: seq<set<Flag>>)
    requires insns != [] && BlockRecord(insns[1..], end, r)
    ensures BlockRecord(insns, end, [Backward(insns[1..], end)] + r)
  {
    forall k | 0 < k < |insns| ensures ([Backward(insns[1..], end)] + r)[k] == Backward(insns[k + 1..], end) {
      assert insns[1..][k..] == insns[k + 1..];
      assert r[k - 1] == Backward(insns[1..][k - 1 + 1..], end);
    }
  }

  /** The record of the first n blocks in a round that starts from s. */
  predicate RecordOf(p: Program, s: Starts, ends: Record, n: nat)
    requires Wellformed(p) && |s| == |p| && n <= |p|
  {
    && |ends| == |p|
    && forall b :: 0 <= b < n ==> BlockRecord(p[b].insns, EndLive(p, b, Passed(p, s, b)), ends[b])
  }

  lemma SoundRoundSoundRecord(p: Program, s: Starts, ends: Record)
    requires Wellformed(p) && |s| == |p| && Sound(p, s) && RecordOf(p, s, ends, |p|)
    ensures RecordSound(p, ends)
  {
    hide Live, EndLive, Passed, Backward;
    forall b, k, f, n: nat | 0 <= b < |p| && 0 < k <= |p[b].insns| && Live(p, b, k, f, n)
      ensures k <= |ends[b]| && f in ends[b][k - 1]
    {
      assert f in Recorded(p, s, b, k - 1);
      assert ends[b][k - 1] == Backward(p[b].insns[k - 1 + 1..], EndLive(p, b, Passed(p, s, b)));
    }
  }

  /** m68k_scan_block's view of the blocks: bb_stack with its flags_live_at_start, and the
      flags_live_at_end entries of insn_info. */
  class Scanner {
    const blocks: Program
    var liveAtStart: Starts
    var liveAtEnd: Record

    ghost predicate Valid()
      reads this
    {
      Wellformed(blocks) && |liveAtStart| == |liveAtEnd| == |blocks|
    }

    /** Scans all blocks forward. */
    constructor (p: Program)
      requires Wellformed(p)
      ensures Valid() && blocks == p && liveAtStart == Initial(p)
    {
      blocks := p;
      var starts: Starts := [];
      var i := 0;
      while i < |p|
        invariant 0 <= i <= |p| && |starts| == i
        invariant forall b :: 0 <= b < i ==> starts[b] == Forward(p[b].insns)
      {
        var live := ScanForward(p[i].insns);
        starts := starts + [live];
        i := i + 1;
      }
      liveAtStart := starts;
      liveAtEnd := seq(|p|, b => []);
      assert starts == Initial(p);
    }

    /** The forward scan of one block. */
    static method ScanForward(insns: seq<Insn>) returns (live: set<Flag>)
      ensures live == Forward(insns)
    {
      live := ALL;
      var mayClear := ALL;
      var i := 0;
      while i < |insns|
        invariant 0 <= i <= |insns|
        invariant ForwardFrom(insns[i..], live, mayClear) == Forward(insns)
      {
        assert insns[i..][1..] == insns[i + 1..];
        mayClear := mayClear - insns[i].fuse;
        live := live - insns[i].fset * mayClear;
        i := i + 1;
      }
    }

    /** The union over the blocks that may follow. */
    method LiveAtEndOf(b: nat) returns (live: set<Flag>)
      requires Valid() && b < |blocks|
      ensures live == EndLive(blocks, b, liveAtStart)
    {
      assert blocks[b] in blocks;
      var insns := blocks[b].insns;
      if insns[|insns| - 1].stop {
        return ALL;
      }
      live := {};
      var left := blocks[b].next;
      while left != {}
        invariant left <= blocks[b].next
        invariant live == set s, f | s in blocks[b].next - left && f in liveAtStart[s] :: f
      {
        var s :| s in left;
        live := live + liveAtStart[s];
        left := left - {s};
      }
    }

    /** The backward pass over block b, from its last instruction to its first. */
    method PassBackward(b: nat)
      requires Valid() && b < |blocks|
      modifies this
      ensures Valid()
      ensures liveAtStart == PassBlock(blocks, b, old(liveAtStart))
      ensures liveAtEnd == old(liveAtEnd)[b := liveAtEnd[b]]
      ensures BlockRecord(blocks[b].insns, EndLive(blocks, b, old(liveAtStart)), liveAtEnd[b])
    {
      hide EndLive;
      assert blocks[b] in blocks;
      var insns := blocks[b].insns;
      var live := LiveAtEndOf(b);
      ghost var end := live;
      var record: seq<set<Flag>> := [];
      var i := |insns|;
      assert insns[i..] == [];
      while i > 0
        invariant 0 <= i <= |insns| && liveAtStart == old(liveAtStart) && liveAtEnd == old(liveAtEnd)
        invariant live == Backward(insns[i..], end)
        invariant BlockRecord(insns[i..], end, record)
      {
        i := i - 1;
        assert insns[i..][1..] == insns[i + 1..];
        RecordGrows(insns[i..], end, record);
        record := [live] + record;
        live := live - insns[i].fset + Used(insns[i]);
      }
      assert insns[0..] == insns;
      liveAtEnd := liveAtEnd[b := record];
      liveAtStart := liveAtStart[b := live];
    }

    /** One round over all blocks in order; says whether some start changed. */
    method Round() returns (changed: bool)
      requires Valid()
      modifies this
      ensures Valid()
      ensures liveAtStart == Passed(blocks, old(liveAtStart), |blocks|)
      ensures RecordOf(blocks, old(liveAtStart), liveAtEnd, |blocks|)
      ensures changed <==> !Settled(blocks, old(liveAtStart))
    {
      hide BlockRecord, EndLive, Backward;
      ghost var s := liveAtStart;
      changed := false;
      var i := 0;
      while i < |blocks|
        invariant 0 <= i <= |blocks| && Valid()
        invariant liveAtStart == Passed(blocks, s, i)
        invariant RecordOf(blocks, s, liveAtEnd, i)
        invariant changed <==> exists b :: 0 <= b < i && liveAtStart[b] != s[b]
      {
        var was := liveAtStart[i];
        PassedAt(blocks, s, i, i);
        PassBackward(i);
        changed := changed || was != liveAtStart[i];
        i := i + 1;
      }
    }

    /** The rounds: quiet_compile keeps the change from being noticed. */
    method BackwardRounds(quiet: bool)
      requires Valid() && liveAtStart == Initial(blocks)
      modifies this
      ensures Valid()
      ensures quiet ==> RecordOf(blocks, Initial(blocks), liveAtEnd, |blocks|)
      ensures !quiet ==> Settled(blocks, liveAtStart) && RecordOf(blocks, liveAtStart, liveAtEnd, |blocks|)
      ensures !quiet || AllHonest(blocks) ==> RecordSound(blocks, liveAtEnd)
    {
      hide Covers, Sound, RecordOf, RecordSound, Passed, AllHonest;
      ghost var s, n, before := liveAtStart, 1, liveAtStart;
      var changed := Round();
      changed := changed && !quiet;
      while changed
        invariant Valid() && n >= 1 && (quiet ==> n == 1 && !changed)
        invariant before == Rounds(blocks, s, n - 1) && liveAtStart == Rounds(blocks, s, n)
        invariant RecordOf(blocks, before, liveAtEnd, |blocks|)
        invariant !quiet ==> (changed <==> !Settled(blocks, before))
        decreases if n < 5 * |blocks| then 5 * |blocks| - n else 0, Bits(liveAtStart), if changed then 1 else 0
      {
        if n >= 5 * |blocks| {
          assert 5 * |blocks| + (n - 5 * |blocks|) == n;
          LaterRoundsShrink(blocks, n - 5 * |blocks|);
        }
        before := liveAtStart;
        changed := Round();
        n := n + 1;
      }
      if !quiet {
        SettledCovers(blocks, before);
        RecordedCovers(blocks, before);
        SoundRoundSoundRecord(blocks, before, liveAtEnd);
      } else if AllHonest(blocks) {
        OneRoundIsSound(blocks);
        SoundRoundSoundRecord(blocks, before, liveAtEnd);
      }
    }
  }

  /** The equations that a pass solves, flag by flag: what is recorded after an instruction is what the next one uses, all
      flags if its use is forced, and what is live after that and not set by it; after the last instruction it is all
      flags if translation stops there, and otherwise what is live at the start of some successor. */
  lemma PassEquations(p: Program, s: Starts, b: nat, k: nat, f: Flag)
    requires Wellformed(p) && b < |p| && |s| == |p| && k < |p[b].insns|
    ensures var insns := p[b].insns;
            && (k + 1 < |insns| ==>
                  (f in Recorded(p, s, b, k) <==>
                     insns[k + 1].forced || f in insns[k + 1].fuse
                     || (f !in insns[k + 1].fset && f in Recorded(p, s, b, k + 1))))
            && (k + 1 == |insns| ==>
                  (f in Recorded(p, s, b, k) <==>
                     insns[k].stop || exists n :: n in p[b].next && n < |p| && f in Passed(p, s, b)[n]))
    ensures var insns := p[b].insns;
            f in Passed(p, s, b + 1)[b] <==>
              insns[0].forced || f in insns[0].fuse || (f !in insns[0].fset && f in Recorded(p, s, b, 0))
  {
    var insns := p[b].insns;
    assert p[b] in p;
    var end := EndLive(p, b, Passed(p, s, b));
    AnyFlag(f);
    if k + 1 < |insns| {
      assert insns[k + 1..][0] == insns[k + 1] && insns[k + 1..][1..] == insns[k + 2..];
    } else {
      assert insns[k + 1..] == [];
    }
  }

  lemma AnyFlag(f: Flag)
    ensures f in ALL
  {
  }

  /** A flag is live at an instruction if some path reads it before writing it: there, or later. */
  lemma LiveMeans(p: Program, b: nat, k: nat, f: Flag, n: nat)
    requires Wellformed(p) && b < |p| && k <= |p[b].insns|
    ensures !Live(p, b, k, f, 0)
    ensures k < |p[b].insns| ==>
              (Live(p, b, k, f, n + 1) <==>
                 p[b].insns[k].forced || f in p[b].insns[k].fuse
                 || (f !in p[b].insns[k].fset && Live(p, b, k + 1, f, n)))
    ensures k == |p[b].insns| ==>
              p[b] in p
              && (Live(p, b, k, f, n + 1) <==>
                    p[b].insns[k - 1].stop || exists s :: s in p[b].next && Live(p, s, 0, f, n))
  {
    AnyFlag(f);
    assert p[b] in p;
  }

  /** The flag columns of the table: what the eight instructions are declared to set and to use. */
  lemma TableColumns()
    ensures TableTerminator(RTS).fset == {} && TableTerminator(RTS).fuse == {}
    ensures TableTerminator(RTE).fset == ALL && TableTerminator(RTE).fuse == {}
    ensures TableTerminator(RTR) == TableTerminator(RTE)
    ensures TableTerminator(RTD).fset == ALL && TableTerminator(RTD).fuse == ALL
    ensures TableTerminator(ILLEGAL) == TableTerminator(RTD)
    ensures TableTerminator(JMP).fset == {} && TableTerminator(JMP).fuse == ALL
    ensures TableTerminator(BSR) == TableTerminator(JMP) && TableTerminator(JSR) == TableTerminator(JMP)
    ensures forall m: Mnemonic :: TableTerminator(m).forced && TableTerminator(m).stop
  {
    assert '?' in "?????" by { assert "?????"[0] == '?'; }
    Column("-----", {}, {});
    Column("XNZVC", ALL, ALL);
    Column("/////", {}, ALL);
  }

  lemma Column(s: string, sets: set<Flag>, uses: set<Flag>)
    requires |s| == 5 && '?' !in s
    requires (s == "-----" && sets == {} && uses == {}) || (s == "XNZVC" && sets == ALL && uses == ALL)
             || (s == "/////" && sets == {} && uses == ALL)
    ensures DeclaredSet(s) == sets && DeclaredUse(s) == uses
  {
    assert FlagAt(0) == X && FlagAt(1) == N && FlagAt(2) == Z && FlagAt(3) == V && FlagAt(4) == C;
    if s != "-----" {
      assert forall i :: 0 <= i < 5 ==> s[i] != '-';
      forall f | f in ALL ensures f in DeclaredUse(s) {
        var i := if f == X then 0 else if f == N then 1 else if f == Z then 2 else if f == V then 3 else 4;
        assert FlagAt(i) == f && s[i] != '-';
      }
    }
    if s == "XNZVC" {
      forall f | f in ALL ensures f in DeclaredSet(s) {
        var i := if f == X then 0 else if f == N then 1 else if f == Z then 2 else if f == V then 3 else 4;
        assert FlagAt(i) == f && s[i] != '-' && s[i] != '/';
      }
    }
  }
}
