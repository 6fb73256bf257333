/**
 The code-page allocator of the 68k compiler in src/compiler.c: pages of 32 units of 512 bytes,
 handed out in runs of units that are recorded in 32-bit masks.  Unit 0 holds the page header.
 */
module CodePages {

  import opened Words

  const UNIT := 512
  const UNITS := 32
  const PAGE := 16384

  // ------------------------------------------------------------------------- search

  /** Units j .. j+bits-1 are all free. */
  predicate Free(mask: Word, bits: nat, j: nat) { And(mask, Shl(Ones(bits), j)) == Zero() }

  lemma FreeMeans(mask: Word, bits: nat, j: nat)
    ensures Free(mask, bits, j) <==> forall i :: j <= i < j + bits && i < 32 ==> !mask[i]
  {
    var w := And(mask, Shl(Ones(bits), j));
    assert forall i :: 0 <= i < 32 ==> w[i] == (mask[i] && j <= i < j + bits);
    if forall i :: j <= i < j + bits && i < 32 ==> !mask[i] {
      assert w == Zero();
    } else {
      var i :| j <= i < j + bits && i < 32 && mask[i];
      assert w[i] && !Zero()[i];
    }
  }

  /** The first place at or after j where `bits` units are free, or 33 - bits. */
  function FirstFit(mask: Word, bits: nat, j: nat): (r: nat)
    requires bits < 32 && j <= 33 - bits
    ensures j <= r <= 33 - bits
    ensures r < 33 - bits ==> Free(mask, bits, r)
    ensures forall k :: j <= k < r ==> !Free(mask, bits, k)
    decreases 33 - bits - j
  {
    if j == 33 - bits || Free(mask, bits, j) then j else FirstFit(mask, bits, j + 1)
  }

  /** The end of the run of free units that starts at `last`. */
  function Extend(mask: Word, last: nat): (r: nat)
    requires last <= 32
    ensures last <= r <= 32 && (forall i :: last <= i < r ==> !mask[i]) && (r < 32 ==> mask[r])
    decreases 32 - last
  {
    if last < 32 && !mask[last] then Extend(mask, last + 1) else last
  }

  // ------------------------------------------------------------------ pages and blocks

  datatype Page = Page(mask: Word, mem: seq<int>)

  /** A hash_block that owns code: its page (numbered in order of creation), its first unit,
      alloclen, page_allocmask and the address of its 68k code.  `units` and `code` record what
      it holds: the number of units in the mask and the bytes it emitted. */
  datatype Block = Block(page: nat, first: nat, alloclen: nat, mask: Word, units: nat, code: seq<int>, addr: bv32)

  /** The code pages, the blocks that own code, and the list of all blocks. */
  datatype Heap = Heap(pages: seq<Page>, blocks: map<int, Block>, lru: seq<int>)

  const EMPTY := Heap([], map[], [])

  predicate HasRoom(mask: Word, bits: nat)
    requires bits < 32
  {
    FirstFit(mask, bits, 1) < 33 - bits
  }

  /** The newest of the pages 0 .. k-1 with room for `bits` units; |pages| if there is none. */
  function FindPage(pages: seq<Page>, bits: nat, k: nat): (r: nat)
    requires bits < 32 && k <= |pages|
    ensures r < k || r == |pages|
    ensures r < |pages| ==> HasRoom(pages[r].mask, bits)
    ensures forall p :: 0 <= p < k && (r == |pages| || p > r) ==> !HasRoom(pages[p].mask, bits)
  {
    if k == 0 then |pages|
    else if HasRoom(pages[k - 1].mask, bits) then k - 1
    else FindPage(pages, bits, k - 1)
  }

  // -------------------------------------------------------------------- operations

  /** n rounded up to whole units. */
  function RoundUp(n: nat): nat { (n + UNIT - 1) / UNIT * UNIT }

  function FreshPage(): Page { Page(Range(0, 1), seq(PAGE, i => 0)) }

  /** Entering a block into the heap and its units into the page's mask. */
  function Place(h: Heap, id: int, b: Block): Heap
    requires b.page < |h.pages|
  {
    h.(pages := h.pages[b.page := h.pages[b.page].(mask := Or(h.pages[b.page].mask, b.mask))],
       blocks := h.blocks[id := b])
  }

  /** The block at unit j with everything that is free behind it. */
  function BlockAt(pages: seq<Page>, p: nat, j: nat, bits: nat, addr: bv32): Block
    requires p < |pages| && j + bits <= 32
  {
    var last := Extend(pages[p].mask, j + bits);
    Block(p, j, (last - j) * UNIT, Range(j, last), last - j, [], addr)
  }

  /** alloc_code: the units for a function of n instructions, or the same heap if there are to
      be none: the function is too long, or a new page is needed and cannot be had. */
  function Alloc(h: Heap, id: int, n: nat, pageOk: bool, addr: bv32): Heap {
    var bits := RoundUp(n * 32) / UNIT;
    if RoundUp(n * 32) >= PAGE - UNIT then h
    else
      var p := FindPage(h.pages, bits, |h.pages|);
      if p < |h.pages| then Place(h, id, BlockAt(h.pages, p, FirstFit(h.pages[p].mask, bits, 1), bits, addr))
      else if !pageOk then h
      else
        var pages := h.pages + [FreshPage()];
        Place(h.(pages := pages), id, BlockAt(pages, p, 1, bits, addr))
  }

  /** Writing code at the start of the block: assemble() stops at the end of the allocation. */
  function Fit(code: seq<int>, room: nat): seq<int> { if |code| <= room then code else code[..room] }

  function Patch(mem: seq<int>, at: nat, code: seq<int>): seq<int> {
    seq(|mem|, i requires 0 <= i < |mem| => if at <= i < at + |code| then code[i - at] else mem[i])
  }

  function Emit(h: Heap, id: int, code: seq<int>): Heap {
    if id !in h.blocks || h.blocks[id].page >= |h.pages| then h
    else
      var b := h.blocks[id];
      var c := Fit(code, b.alloclen);
      Heap(h.pages[b.page := h.pages[b.page].(mem := Patch(h.pages[b.page].mem, b.first * UNIT, c))],
           h.blocks[id := b.(code := c)], h.lru)
  }

  /** The search for the trimmed mask: `bits` ones, shifted until all of them are in `mask`. */
  function TrimShift(mask: Word, bits: nat, k: nat): (r: nat)
    requires k <= 32
    ensures k <= r <= 32 && (r < 32 ==> And(Shl(Ones(bits), r), mask) == Shl(Ones(bits), r))
    decreases 32 - k
  {
    if k == 32 || And(Shl(Ones(bits), k), mask) == Shl(Ones(bits), k) then k else TrimShift(mask, bits, k + 1)
  }

  /** Count of the bits that Shl(Ones(bits), k) keeps in 32 bits. */
  function Kept(bits: nat, k: nat): nat { if k >= 32 then 0 else if k + bits > 32 then 32 - k else bits }

  /** The end of m68k_compile_block: keep what `needed` bytes take, give back the rest. */
  function Trim(h: Heap, id: int, needed: nat): Heap {
    if id !in h.blocks || h.blocks[id].page >= |h.pages| then h
    else
      var b := h.blocks[id];
      var bits := RoundUp(needed) / UNIT;
      var k := TrimShift(b.mask, bits, 0);
      var m := Shl(Ones(bits), k);
      Heap(h.pages[b.page := h.pages[b.page].(mask := Or(AndNot(h.pages[b.page].mask, b.mask), m))],
           h.blocks[id := b.(mask := m, units := Kept(bits, k))], h.lru)
  }

  /** Giving up a block: its units become free and it no longer has a page. */
  function Release(h: Heap, id: int): Heap {
    if id !in h.blocks || h.blocks[id].page >= |h.pages| then h
    else
      var b := h.blocks[id];
      Heap(h.pages[b.page := h.pages[b.page].(mask := AndNot(h.pages[b.page].mask, b.mask))], h.blocks - {id}, h.lru)
  }

  /** From the allocation on. */
  function Finish(a: Heap, id: int, code: seq<int>, bad: bool): Heap {
    if id !in a.blocks then a
    else
      var e := Emit(a, id, code);
      if bad || |code| > a.blocks[id].alloclen then Release(e, id) else Trim(e, id, |code|)
  }

  /** m68k_compile_block for a block that has not been compiled before: allocate, emit, and then
      trim, or give everything back if the code did not fit or could not be compiled. */
  function Compile(h: Heap, id: int, n: nat, code: seq<int>, bad: bool, pageOk: bool, addr: bv32): Heap {
    if id in h.lru then h
    else
      Finish(Alloc(h.(lru := h.lru + [id]), id, n, pageOk, addr), id, code, bad)
  }

  /** The test by which flush_icache spares a block. */
  predicate Spared(addr: bv32) { addr & !0xF80000 == 0xF80000 }

  /** flush_icache: walks the list of blocks, frees those with code and forgets them. */
  function Flush(h: Heap, k: nat): Heap
    requires k <= |h.lru|
    decreases |h.lru| - k
  {
    if k == |h.lru| then h
    else
      var id := h.lru[k];
      if id in h.blocks && h.blocks[id].page < |h.pages| && !Spared(h.blocks[id].addr)
      then Flush(Release(h, id).(lru := h.lru[..k] + h.lru[k + 1..]), k)
      else Flush(h, k + 1)
  }

  // ---------------------------------------------------------------------- invariant

  /** The block owns one contiguous run of units, starting at compile_start, below the header,
      and its code lies in memory in that run. */
  predicate BlockOk(pages: seq<Page>, b: Block) {
    && b.page < |pages| && |pages[b.page].mem| == PAGE
    && 1 <= b.first && b.first + b.units <= UNITS
    && b.mask == Range(b.first, b.first + b.units)
    && |b.code| <= b.units * UNIT <= b.alloclen
    && b.first * UNIT + b.alloclen <= PAGE
    && pages[b.page].mem[b.first * UNIT .. b.first * UNIT + |b.code|] == b.code
  }

  predicate Disjoint(a: Block, b: Block) {
    a.page != b.page || a.first + a.units <= b.first || b.first + b.units <= a.first || a.units == 0 || b.units == 0
  }

  ghost predicate Used(blocks: map<int, Block>, p: nat, i: nat)
    requires i < 32
  {
    exists id :: id in blocks && blocks[id].page == p && blocks[id].mask[i]
  }

  /** Unit i of a page is in use exactly if it is the header or in the mask of some block. */
  ghost predicate PageOk(h: Heap, p: nat)
    requires p < |h.pages|
  {
    |h.pages[p].mem| == PAGE && forall i :: 0 <= i < 32 ==> (h.pages[p].mask[i] <==> i == 0 || Used(h.blocks, p, i))
  }

  ghost predicate Inv(h: Heap) {
    && (forall id :: id in h.blocks ==> id in h.lru && BlockOk(h.pages, h.blocks[id]))
    && (forall x, y :: x in h.blocks && y in h.blocks && x != y ==> Disjoint(h.blocks[x], h.blocks[y]))
    && (forall p :: 0 <= p < |h.pages| ==> PageOk(h, p))
  }

  /** Replacing, adding or removing one block changes the use of its own units only. */
  lemma UsedUpdate(blocks: map<int, Block>, id: int, b: Block, p: nat, i: nat)
    requires i < 32
    ensures Used(blocks[id := b], p, i) <==> (b.page == p && b.mask[i]) || Used(blocks - {id}, p, i)
  {
    var r := blocks[id := b];
    if b.page == p && b.mask[i] {
      assert id in r;
    }
    if Used(blocks - {id}, p, i) {
      var x :| x in blocks - {id} && blocks[x].page == p && blocks[x].mask[i];
      assert x in r && r[x] == blocks[x];
    }
    if Used(r, p, i) {
      var x :| x in r && r[x].page == p && r[x].mask[i];
      assert x != id ==> x in blocks - {id};
    }
  }

  lemma UsedRemove(blocks: map<int, Block>, id: int, p: nat, i: nat)
    requires i < 32 && id in blocks
    requires forall x :: x in blocks && x != id && blocks[x].page == blocks[id].page ==>
               !(blocks[x].mask[i] && blocks[id].mask[i])
    ensures Used(blocks - {id}, p, i) <==> Used(blocks, p, i) && !(blocks[id].page == p && blocks[id].mask[i])
  {
    if Used(blocks, p, i) && !(blocks[id].page == p && blocks[id].mask[i]) {
      var x :| x in blocks && blocks[x].page == p && blocks[x].mask[i];
      assert x in blocks - {id};
    }
  }

  lemma PlaceKeeps(h: Heap, id: int, b: Block)
    requires Inv(h) && id !in h.blocks && id in h.lru && BlockOk(h.pages, b)
    requires forall i :: 0 <= i < 32 && b.mask[i] ==> !h.pages[b.page].mask[i]
    ensures Inv(Place(h, id, b))
  {
    var r := Place(h, id, b);
    assert PageOk(h, b.page);
    PlaceShape(h, id, b);
    hide Place, BlockOk, PageOk;
    forall x | x in h.blocks ensures Disjoint(h.blocks[x], b) {
      FreeIsDisjoint(h, x, b);
    }
    forall x | x in r.blocks ensures x in r.lru && BlockOk(r.pages, r.blocks[x]) {
      PlaceBlock(h, id, b, r.blocks[x]);
    }
    forall p | 0 <= p < |r.pages| ensures PageOk(r, p) {
      PlacePage(h, id, b, p);
    }
  }

  lemma PlaceShape(h: Heap, id: int, b: Block)
    requires b.page < |h.pages|
    ensures var r := Place(h, id, b); |r.pages| == |h.pages| && r.lru == h.lru && r.blocks == h.blocks[id := b]
  {
  }

  lemma PlaceBlock(h: Heap, id: int, b: Block, c: Block)
    requires b.page < |h.pages| && BlockOk(h.pages, c)
    ensures BlockOk(Place(h, id, b).pages, c)
  {
  }

  lemma PlacePage(h: Heap, id: int, b: Block, p: nat)
    requires id !in h.blocks && b.page < |h.pages| && p < |h.pages| && PageOk(h, p)
    ensures PageOk(Place(h, id, b), p)
  {
    var r := Place(h, id, b);
    assert h.blocks - {id} == h.blocks;
    hide Used;
    forall i | 0 <= i < 32 ensures r.pages[p].mask[i] <==> i == 0 || Used(r.blocks, p, i) {
      UsedUpdate(h.blocks, id, b, p, i);
    }
  }

  lemma FreeIsDisjoint(h: Heap, x: int, b: Block)
    requires x in h.blocks && BlockOk(h.pages, h.blocks[x]) && BlockOk(h.pages, b) && PageOk(h, b.page)
    requires forall i :: 0 <= i < 32 && b.mask[i] ==> !h.pages[b.page].mask[i]
    ensures Disjoint(h.blocks[x], b)
  {
    var a := h.blocks[x];
    if !Disjoint(a, b) {
      var i := if a.first < b.first then b.first else a.first;
      assert a.mask[i] && b.mask[i];
      assert Used(h.blocks, b.page, i);
    }
  }

  lemma NewPageKeeps(h: Heap)
    requires Inv(h)
    ensures Inv(h.(pages := h.pages + [FreshPage()]))
  {
    var r := h.(pages := h.pages + [FreshPage()]);
    forall id | id in r.blocks ensures BlockOk(r.pages, r.blocks[id]) {
      assert BlockOk(h.pages, h.blocks[id]);
    }
    forall p | 0 <= p < |r.pages| ensures PageOk(r, p) {
      if p < |h.pages| {
        assert PageOk(h, p);
      } else {
        assert forall id :: id in h.blocks ==> BlockOk(h.pages, h.blocks[id]);
      }
    }
  }

  /** alloc_code hands out units that were free, and no others. */
  lemma AllocKeeps(h: Heap, id: int, n: nat, pageOk: bool, addr: bv32)
    requires Inv(h) && id !in h.blocks && id in h.lru
    ensures var r := Alloc(h, id, n, pageOk, addr);
            && Inv(r)
            && r.lru == h.lru && (forall x :: x in r.blocks <==> x in h.blocks || (x == id && r != h))
            && (forall x :: x in h.blocks ==> r.blocks[x] == h.blocks[x])
            && (id in r.blocks ==> r.blocks[id].alloclen == r.blocks[id].units * UNIT >= n * 32)
  {
    hide Place, RoundUp, BlockAt;
    if RoundUp(n * 32) < PAGE - UNIT {
      var bits := RoundUp(n * 32) / UNIT;
      var p := FindPage(h.pages, bits, |h.pages|);
      if p < |h.pages| {
        FreeMeans(h.pages[p].mask, bits, FirstFit(h.pages[p].mask, bits, 1));
        BlockAtKeeps(h, id, p, FirstFit(h.pages[p].mask, bits, 1), bits, n * 32, addr);
      } else if pageOk {
        NewPageKeeps(h);
        BlockAtKeeps(h.(pages := h.pages + [FreshPage()]), id, p, 1, bits, n * 32, addr);
      }
    }
  }

  lemma BlockAtKeeps(h: Heap, id: int, p: nat, j: nat, bits: nat, size: nat, addr: bv32)
    requires Inv(h) && id !in h.blocks && id in h.lru && p < |h.pages| && 1 <= j && j + bits <= 32
    requires bits == RoundUp(size) / UNIT && forall i :: j <= i < j + bits ==> !h.pages[p].mask[i]
    ensures var b := BlockAt(h.pages, p, j, bits, addr);
            && b.page == p && b.alloclen == b.units * UNIT >= size
            && Inv(Place(h, id, b)) && Place(h, id, b) == h.(pages := Place(h, id, b).pages, blocks := h.blocks[id := b])
  {
    assert PageOk(h, p);
    PlaceKeeps(h, id, BlockAt(h.pages, p, j, bits, addr));
  }

  // ---------------------------------------------------------------- emission

  /** Emission stays within the units of the block, so every other block's code stays put. */
  lemma EmitKeeps(h: Heap, id: int, code: seq<int>)
    requires Inv(h) && id in h.blocks && h.blocks[id].alloclen == h.blocks[id].units * UNIT
    ensures var r := Emit(h, id, code);
            && Inv(r) && r.lru == h.lru
            && r.blocks == h.blocks[id := h.blocks[id].(code := Fit(code, h.blocks[id].alloclen))]
  {
    var r, b := Emit(h, id, code), h.blocks[id];
    assert BlockOk(h.pages, b);
    EmitShape(h, id, code);
    hide Patch, Fit, Emit;
    forall x | x in r.blocks ensures x in r.lru && BlockOk(r.pages, r.blocks[x]) {
      EmitBlock(h, id, code, x);
    }
    hide BlockOk;
    forall p | 0 <= p < |r.pages| ensures PageOk(r, p) {
      assert PageOk(h, p);
      EmitPage(h, id, code, p);
    }
  }

  lemma EmitShape(h: Heap, id: int, code: seq<int>)
    requires id in h.blocks && h.blocks[id].page < |h.pages|
    ensures var r := Emit(h, id, code);
            && r.lru == h.lru && |r.pages| == |h.pages|
            && r.blocks == h.blocks[id := h.blocks[id].(code := Fit(code, h.blocks[id].alloclen))]
            && forall p :: 0 <= p < |h.pages| ==>
                 r.pages[p].mask == h.pages[p].mask && |r.pages[p].mem| == |h.pages[p].mem|
  {
    hide Fit;
  }

  lemma EmitPage(h: Heap, id: int, code: seq<int>, p: nat)
    requires id in h.blocks && h.blocks[id].page < |h.pages| && p < |h.pages| && PageOk(h, p)
    ensures p < |Emit(h, id, code).pages| && PageOk(Emit(h, id, code), p)
  {
    EmitShape(h, id, code);
    hide Emit, Fit, Used;
    forall i | 0 <= i < 32 ensures Used(Emit(h, id, code).blocks, p, i) == Used(h.blocks, p, i) {
      SameUse(h.blocks, Emit(h, id, code).blocks, p, i);
    }
  }

  lemma EmitBlock(h: Heap, id: int, code: seq<int>, x: int)
    requires id in h.blocks && h.blocks[id].alloclen == h.blocks[id].units * UNIT && x in h.blocks
    requires BlockOk(h.pages, h.blocks[id]) && BlockOk(h.pages, h.blocks[x])
    requires x != id ==> Disjoint(h.blocks[x], h.blocks[id])
    ensures var r := Emit(h, id, code);
            BlockOk(r.pages, r.blocks[x]) && |r.pages[h.blocks[id].page].mem| == PAGE
  {
    hide Patch;
    var b := h.blocks[id];
    var c := Fit(code, b.alloclen);
    PatchedHere(h.pages[b.page].mem, b.first * UNIT, c);
    PatchedElsewhere(h.pages[b.page].mem, b.first * UNIT, c, h.blocks[x].first * UNIT, |h.blocks[x].code|,
                     x != id && h.blocks[x].page == b.page);
  }

  lemma SameUse(a: map<int, Block>, b: map<int, Block>, p: nat, i: nat)
    requires i < 32 && a.Keys == b.Keys
    requires forall id :: id in a ==> a[id].page == b[id].page && a[id].mask == b[id].mask
    ensures Used(a, p, i) == Used(b, p, i)
  {
    if Used(a, p, i) {
      var id :| id in a && a[id].page == p && a[id].mask[i];
      assert id in b;
    }
    if Used(b, p, i) {
      var id :| id in b && b[id].page == p && b[id].mask[i];
      assert id in a;
    }
  }

  lemma PatchedHere(mem: seq<int>, at: nat, code: seq<int>)
    requires at + |code| <= |mem|
    ensures |Patch(mem, at, code)| == |mem| && Patch(mem, at, code)[at .. at + |code|] == code
  {
  }

  lemma PatchedElsewhere(mem: seq<int>, at: nat, code: seq<int>, from: nat, n: nat, samePage: bool)
    requires at + |code| <= |mem| && from + n <= |mem|
    requires samePage ==> n == 0 || |code| == 0 || from + n <= at || at + |code| <= from
    ensures |Patch(mem, at, code)| == |mem|
    ensures samePage ==> Patch(mem, at, code)[from .. from + n] == mem[from .. from + n]
  {
  }

  // --------------------------------------------------------------- giving back units

  lemma ReleaseKeeps(h: Heap, id: int)
    requires Inv(h) && id in h.blocks
    ensures var r := Release(h, id);
            && Inv(r) && r.lru == h.lru && r.blocks == h.blocks - {id}
            && (forall i :: 0 <= i < 32 && h.blocks[id].mask[i] ==> !r.pages[h.blocks[id].page].mask[i])
            && BlockOk(r.pages, h.blocks[id]) && |r.pages| == |h.pages|
  {
    var r, b := Release(h, id), h.blocks[id];
    assert BlockOk(h.pages, b) && PageOk(h, b.page);
    forall x | x in r.blocks ensures x in r.lru && BlockOk(r.pages, r.blocks[x]) {
      assert BlockOk(h.pages, h.blocks[x]);
    }
    forall p | 0 <= p < |r.pages| ensures PageOk(r, p) {
      assert PageOk(h, p);
      forall i | 0 <= i < 32 ensures r.pages[p].mask[i] <==> i == 0 || Used(r.blocks, p, i) {
        forall x | x in h.blocks && x != id && h.blocks[x].page == b.page ensures !(h.blocks[x].mask[i] && b.mask[i]) {
          assert BlockOk(h.pages, h.blocks[x]) && Disjoint(h.blocks[x], b);
        }
        UsedRemove(h.blocks, id, p, i);
      }
    }
  }

  /** The shifted mask of `bits` ones that first fits inside a run of units: it starts where the
      run starts when it is no longer than the run.  A longer one is shifted until no bit is
      left, unless the run ends with the page, where the excess is shifted out at once. */
  lemma {:induction false} TrimShiftIs(first: nat, units: nat, bits: nat, k: nat)
    requires first < 32 && first + units <= 32 && k <= 32 && 1 <= bits && 1 <= units
    ensures k <= first && (bits <= units || first + units == 32)
            ==> TrimShift(Range(first, first + units), bits, k) == first
    ensures bits > units && first + units < 32 ==> TrimShift(Range(first, first + units), bits, k) == 32
    decreases 32 - k
  {
    if k < 32 {
      TrimTest(first, units, bits, k);
      TrimShiftIs(first, units, bits, k + 1);
    }
  }

  lemma TrimTest(first: nat, units: nat, bits: nat, k: nat)
    requires first + units <= 32 && k < 32 && 1 <= bits
    ensures And(Shl(Ones(bits), k), Range(first, first + units)) == Shl(Ones(bits), k)
            <==> first <= k && (if k + bits > 32 then 32 else k + bits) <= first + units
  {
    var w, m := Shl(Ones(bits), k), Range(first, first + units);
    var a := And(w, m);
    assert w[k] && (a[k] <==> first <= k < first + units);
    var top := (if k + bits > 32 then 32 else k + bits) - 1;
    assert w[top] && (a[top] <==> first <= top < first + units);
    if first <= k && top < first + units {
      assert a == w;
    }
  }

  /** Trimming keeps the units that the emitted code needs and gives back the rest. */
  lemma TrimKeeps(h: Heap, id: int, needed: nat)
    requires Inv(h) && id in h.blocks && |h.blocks[id].code| <= needed <= h.blocks[id].units * UNIT
    ensures var r, b := Trim(h, id, needed), h.blocks[id];
            && Inv(r) && r.lru == h.lru && r.blocks.Keys == h.blocks.Keys
            && r.blocks[id] == b.(units := RoundUp(needed) / UNIT,
                                  mask := Range(b.first, b.first + RoundUp(needed) / UNIT))
            && forall x :: x in h.blocks && x != id ==> r.blocks[x] == h.blocks[x]
  {
    var b, q := h.blocks[id], Release(h, id);
    assert id in h.lru && BlockOk(h.pages, b);
    var bits := RoundUp(needed) / UNIT;
    var c := b.(units := bits, mask := Range(b.first, b.first + bits));
    hide *;
    Rounded(needed, b.units);
    ReleaseKeeps(h, id);
    Shorter(q.pages, b, c);
    TrimIsReplace(h, id, needed);
    PlaceKeeps(q, id, c);
  }

  lemma Rounded(needed: nat, units: nat)
    requires needed <= units * UNIT
    ensures RoundUp(needed) / UNIT <= units && needed <= RoundUp(needed) / UNIT * UNIT
  {
  }

  /** Trimming is giving back and taking the shorter run. */
  lemma TrimIsReplace(h: Heap, id: int, needed: nat)
    requires id in h.blocks && BlockOk(h.pages, h.blocks[id]) && RoundUp(needed) / UNIT <= h.blocks[id].units
    ensures var b, q := h.blocks[id], Release(h, id);
            var c := b.(units := RoundUp(needed) / UNIT, mask := Range(b.first, b.first + RoundUp(needed) / UNIT));
            && c.page < |q.pages| && Trim(h, id, needed) == Place(q, id, c)
            && Place(q, id, c).lru == h.lru && Place(q, id, c).blocks == h.blocks[id := c]
  {
    var b := h.blocks[id];
    TrimmedMask(b, RoundUp(needed) / UNIT);
    hide BlockOk, TrimShift, RoundUp, Range, Shl, Ones, Kept, Or, AndNot;
    assert (h.blocks - {id})[id := b.(units := RoundUp(needed) / UNIT,
                                      mask := Range(b.first, b.first + RoundUp(needed) / UNIT))]
           == h.blocks[id := b.(units := RoundUp(needed) / UNIT,
                                mask := Range(b.first, b.first + RoundUp(needed) / UNIT))];
  }

  lemma Shorter(pages: seq<Page>, b: Block, c: Block)
    requires BlockOk(pages, b) && c == b.(mask := Range(b.first, b.first + c.units), units := c.units)
    requires c.units <= b.units && |b.code| <= c.units * UNIT
    ensures BlockOk(pages, c) && forall i :: 0 <= i < 32 && c.mask[i] ==> b.mask[i]
  {
  }

  lemma TrimmedMask(b: Block, bits: nat)
    requires 1 <= b.first && b.first + b.units <= UNITS && b.mask == Range(b.first, b.first + b.units) && bits <= b.units
    ensures var k := TrimShift(b.mask, bits, 0);
            Shl(Ones(bits), k) == Range(b.first, b.first + bits) && Kept(bits, k) == bits
  {
    hide TrimShift, Range, Shl, Ones, Kept;
    if bits == 0 {
      TrimToNothing(b.mask, b.first);
    } else {
      TrimShiftIs(b.first, b.units, bits, 0);
      ShiftedOnes(bits, b.first);
      KeptWhole(bits, b.first);
    }
  }

  lemma KeptWhole(bits: nat, k: nat)
    requires k < 32 && k + bits <= UNITS
    ensures Kept(bits, k) == bits
  {
  }

  lemma TrimToNothing(mask: Word, first: nat)
    ensures TrimShift(mask, 0, 0) == 0 && Shl(Ones(0), 0) == Range(first, first + 0) && Kept(0, 0) == 0
  {
    assert Shl(Ones(0), 0) == And(Shl(Ones(0), 0), mask);
  }

  // ------------------------------------------------------------------- whole runs

  /** A compilation leaves a consistent heap and touches no other block. */
  lemma CompileKeeps(h: Heap, id: int, n: nat, code: seq<int>, bad: bool, pageOk: bool, addr: bv32)
    requires Inv(h)
    ensures var r := Compile(h, id, n, code, bad, pageOk, addr);
            && Inv(r)
            && (forall x :: x in h.blocks ==> x in r.blocks && r.blocks[x] == h.blocks[x])
            && (id in r.blocks && id !in h.lru ==> r.blocks[id].code == code)
  {
    if id !in h.lru {
      assert id !in h.blocks;
      var h0 := h.(lru := h.lru + [id]);
      LruKeeps(h, h0);
      AllocKeeps(h0, id, n, pageOk, addr);
      hide Inv, Alloc, Finish;
      var a := Alloc(h0, id, n, pageOk, addr);
      if id in a.blocks {
        FinishKeeps(a, id, code, bad);
      } else {
        NothingToFinish(a, id, code, bad);
      }
    }
  }

  lemma NothingToFinish(a: Heap, id: int, code: seq<int>, bad: bool)
    requires id !in a.blocks
    ensures Finish(a, id, code, bad) == a
  {
  }

  lemma FinishKeeps(a: Heap, id: int, code: seq<int>, bad: bool)
    requires Inv(a) && id in a.blocks && a.blocks[id].alloclen == a.blocks[id].units * UNIT
    ensures var r := Finish(a, id, code, bad);
            && Inv(r)
            && (forall x :: x in a.blocks && x != id ==> x in r.blocks && r.blocks[x] == a.blocks[x])
            && (id in r.blocks ==> r.blocks[id].code == code)
  {
    hide Inv, Emit, Release, Trim;
    EmitKeeps(a, id, code);
    var e := Emit(a, id, code);
    if bad || |code| > a.blocks[id].alloclen {
      ReleaseKeeps(e, id);
    } else {
      TrimKeeps(e, id, |code|);
    }
  }

  lemma LruKeeps(h: Heap, r: Heap)
    requires Inv(h) && r == h.(lru := r.lru) && forall id :: id in h.blocks ==> id in r.lru
    ensures Inv(r)
  {
    forall p | 0 <= p < |r.pages| ensures PageOk(r, p) {
      assert PageOk(h, p);
    }
  }

  /** The test meant to spare blocks from the Kickstart ROM never spares any: it clears the very
      bits that it then compares. */
  lemma NothingIsSpared(addr: bv32)
    ensures !Spared(addr)
  {
  }

  /** So flush_icache frees all compiled code: afterwards no block owns any, and every page has
      only its header in use. */
  lemma {:induction false} FlushEmpties(h: Heap, k: nat)
    requires Inv(h) && k <= |h.lru| && forall id :: id in h.blocks ==> id in h.lru[k..]
    ensures var r := Flush(h, k);
            Inv(r) && r.blocks == map[] && forall p :: 0 <= p < |r.pages| ==> r.pages[p].mask == Range(0, 1)
    decreases |h.lru| - k
  {
    if k == |h.lru| {
      assert forall id :: id !in h.blocks;
      assert h.blocks == map[];
      forall p | 0 <= p < |h.pages| ensures h.pages[p].mask == Range(0, 1) {
        assert PageOk(h, p);
      }
    } else {
      var id := h.lru[k];
      assert h.lru[k..] == [id] + h.lru[k + 1..];
      if id in h.blocks {
        assert BlockOk(h.pages, h.blocks[id]);
        NothingIsSpared(h.blocks[id].addr);
        ReleaseKeeps(h, id);
        var q := Release(h, id);
        var r := q.(lru := h.lru[..k] + h.lru[k + 1..]);
        assert r.lru[k..] == h.lru[k + 1..];
        LruKeeps(q, r);
        hide Inv, Release;
        FlushEmpties(r, k);
      } else {
        FlushEmpties(h, k + 1);
      }
    }
  }

  datatype Op = CompileBlock(id: int, n: nat, code: seq<int>, bad: bool, pageOk: bool, addr: bv32) | FlushIcache

  function Do(h: Heap, op: Op): Heap {
    match op
    case CompileBlock(id, n, code, bad, pageOk, addr) => Compile(h, id, n, code, bad, pageOk, addr)
    case FlushIcache => Flush(h, 0)
  }

  function Run(h: Heap, ops: seq<Op>): Heap {
    if ops == [] then h else Do(Run(h, ops[..|ops| - 1]), ops[|ops| - 1])
  }

  /** Over any run of compilations, failed compilations and flushes: live blocks hold disjoint
      contiguous runs of units whose union with the header is exactly the page's mask, and the
      code of every live block is intact in its own units. */
  lemma {:induction false} RunKeeps(ops: seq<Op>)
    ensures Inv(Run(EMPTY, ops))
  {
    hide Compile, Flush, Inv;
    if ops == [] {
      assert Inv(EMPTY) by { EmptyIsOk(); }
    } else {
      var h := Run(EMPTY, ops[..|ops| - 1]);
      RunKeeps(ops[..|ops| - 1]);
      match ops[|ops| - 1] {
        case CompileBlock(id, n, code, bad, pageOk, addr) => CompileKeeps(h, id, n, code, bad, pageOk, addr);
        case FlushIcache =>
          BlocksListed(h);
          FlushEmpties(h, 0);
      }
    }
  }

  lemma EmptyIsOk()
    ensures Inv(EMPTY)
  {
  }

  lemma BlocksListed(h: Heap)
    requires Inv(h)
    ensures forall id :: id in h.blocks ==> id in h.lru[0..]
  {
    assert h.lru[0..] == h.lru;
  }

  /** Once compiled, a block keeps its place and its code, byte for byte, whatever else is
      compiled, until the next flush. */
  lemma {:induction false} CodeStays(h: Heap, ops: seq<Op>, x: int)
    requires Inv(h) && x in h.blocks && FlushIcache !in ops
    ensures var r, b := Run(h, ops), h.blocks[x];
            && Inv(r) && x in r.blocks && r.blocks[x] == b && b.page < |r.pages|
            && b.first * UNIT + |b.code| <= |r.pages[b.page].mem|
            && r.pages[b.page].mem[b.first * UNIT .. b.first * UNIT + |b.code|] == b.code
  {
    hide Compile;
    if ops == [] {
      assert BlockOk(h.pages, h.blocks[x]);
    } else {
      var q := Run(h, ops[..|ops| - 1]);
      CodeStays(h, ops[..|ops| - 1], x);
      var op := ops[|ops| - 1];
      assert op.CompileBlock?;
      CompileKeeps(q, op.id, op.n, op.code, op.bad, op.pageOk, op.addr);
      assert BlockOk(Run(h, ops).pages, Run(h, ops).blocks[x]);
    }
  }

  /** A new page is made only when no page has room, and room is always found where it is. */
  lemma NewPageOnlyWhenNeeded(h: Heap, id: int, n: nat, addr: bv32)
    requires RoundUp(n * 32) < PAGE - UNIT
    ensures |Alloc(h, id, n, true, addr).pages| > |h.pages| <==>
            forall p, j :: 0 <= p < |h.pages| && 1 <= j < 33 - RoundUp(n * 32) / UNIT ==>
              !Free(h.pages[p].mask, RoundUp(n * 32) / UNIT, j)
  {
    var bits := RoundUp(n * 32) / UNIT;
    var p := FindPage(h.pages, bits, |h.pages|);
    if p < |h.pages| {
      assert Free(h.pages[p].mask, bits, FirstFit(h.pages[p].mask, bits, 1));
    }
  }

  // ------------------------------------------------------- the code, step by step

  lemma OneMore(j: nat, last: nat)
    requires j <= last < 32
    ensures Or(Range(j, last), Shl(Ones(1), last)) == Range(j, last + 1)
  {
  }

  lemma ShiftedOut(bits: nat, mask: Word)
    ensures And(Shl(Ones(bits), 32), mask) == Shl(Ones(bits), 32)
  {
  }

  lemma NotListed(h: Heap, id: int)
    requires Inv(h) && id !in h.lru
    ensures id !in h.blocks
  {
  }

  lemma BlockIsOk(h: Heap, id: int)
    requires Inv(h) && id in h.blocks
    ensures BlockOk(h.pages, h.blocks[id])
  {
  }

  /** The allocator's state in compiler.c. */
  class Compiler {
    var pages: seq<Page>
    var blocks: map<int, Block>
    var lru: seq<int>

    ghost function H(): Heap
      reads this
    {
      Heap(pages, blocks, lru)
    }

    /** new_code_page */
    method NewCodePage(pageOk: bool)
      modifies `pages
      ensures pages == if pageOk then old(pages) + [FreshPage()] else old(pages)
    {
      if pageOk {
        pages := pages + [FreshPage()];
      }
    }

    /** The search loops of alloc_code. */
    method Search(allocbits: nat) returns (p: nat, j: nat)
      requires allocbits < 32
      ensures p == FindPage(pages, allocbits, |pages|)
      ensures p < |pages| ==> j == FirstFit(pages[p].mask, allocbits, 1)
    {
      p, j := |pages|, 1;
      var k := |pages|;
      while k > 0
        invariant 0 <= k <= |pages|
        invariant FindPage(pages, allocbits, k) == FindPage(pages, allocbits, |pages|)
      {
        var mask := pages[k - 1].mask;
        j := 1;
        while j < 33 - allocbits
          invariant 1 <= j <= 33 - allocbits
          invariant FirstFit(mask, allocbits, j) == FirstFit(mask, allocbits, 1)
        {
          if And(mask, Shl(Ones(allocbits), j)) == Zero() {
            p := k - 1;
            return;
          }
          j := j + 1;
        }
        k := k - 1;
      }
    }

    /** alloc_code */
    method AllocCode(id: int, ninsns: nat, pageOk: bool, addr: bv32) returns (ok: bool)
      modifies `pages, `blocks
      ensures H() == Alloc(old(H()), id, ninsns, pageOk, addr)
      ensures ok ==> id in blocks
      ensures !ok ==> blocks == old(blocks)
    {
      hide RoundUp, Or, And, Ones, Shl, Range, Extend, FindPage, FirstFit, FreshPage;
      var allocsize := RoundUp(ninsns * 32);
      if allocsize >= PAGE - UNIT {
        return false;
      }
      var allocbits := allocsize / UNIT;
      var p, j := Search(allocbits);
      if p == |pages| {
        NewCodePage(pageOk);
        if !pageOk {
          return false;
        }
        j := 1;
      }
      var allocmask, lastBit := TakeAll(pages[p].mask, allocbits, j);
      allocsize := (lastBit - j) * UNIT;
      blocks := blocks[id := Block(p, j, allocsize, allocmask, lastBit - j, [], addr)];
      pages := pages[p := pages[p].(mask := Or(pages[p].mask, allocmask))];
      return true;
    }

    /** The loop of alloc_code that takes all the space there is. */
    static method TakeAll(pagemask: Word, allocbits: nat, j: nat) returns (allocmask: Word, lastBit: nat)
      requires allocbits + j <= 32
      ensures lastBit == Extend(pagemask, j + allocbits) && allocmask == Range(j, lastBit)
    {
      allocmask := Shl(Ones(allocbits), j);
      ShiftedOnes(allocbits, j);
      lastBit := allocbits + j;
      while lastBit < 32 && !pagemask[lastBit]
        invariant allocbits + j <= lastBit <= 32
        invariant allocmask == Range(j, lastBit)
        invariant Extend(pagemask, lastBit) == Extend(pagemask, j + allocbits)
      {
        OneMore(j, lastBit);
        allocmask := Or(allocmask, Shl(Ones(1), lastBit));
        lastBit := lastBit + 1;
      }
    }

    /** assemble() for each byte of the code in turn. */
    method Assemble(id: int, code: seq<int>) returns (fits: bool)
      requires id in blocks && BlockOk(pages, blocks[id]) && blocks[id].alloclen == blocks[id].units * UNIT
      modifies `pages, `blocks
      ensures H() == Emit(old(H()), id, code) && fits == (|code| <= old(blocks[id].alloclen))
    {
      var b := blocks[id];
      var mem := pages[b.page].mem;
      var current, last := 0, b.alloclen;
      fits := true;
      var i := 0;
      while i < |code|
        invariant 0 <= i <= |code| && current == if i <= last then i else last
        invariant fits == (i <= last) && |mem| == PAGE
        invariant mem == Patch(old(pages[b.page].mem), b.first * UNIT, code[..current])
      {
        if current < last {
          mem := mem[b.first * UNIT + current := code[i]];
          current := current + 1;
        } else {
          fits := false;
        }
        i := i + 1;
      }
      assert code[..current] == Fit(code, last);
      pages := pages[b.page := pages[b.page].(mem := mem)];
      blocks := blocks[id := b.(code := code[..current])];
    }

    /** The end of m68k_compile_block. */
    method TrimBlock(id: int, neededLen: nat)
      requires id in blocks && blocks[id].page < |pages|
      modifies `pages, `blocks
      ensures H() == Trim(old(H()), id, neededLen)
    {
      hide RoundUp, Kept, TrimShift, Shl, Ones, Or, AndNot;
      var b := blocks[id];
      var allocbits := RoundUp(neededLen) / UNIT;
      var allocmask, k := ShiftIntoPlace(b.mask, allocbits);
      pages := pages[b.page := pages[b.page].(mask := AndNot(pages[b.page].mask, b.mask))];
      blocks := blocks[id := b.(mask := allocmask, units := Kept(allocbits, k))];
      pages := pages[b.page := pages[b.page].(mask := Or(pages[b.page].mask, allocmask))];
    }

    /** The loop that moves the trimmed mask into place. */
    static method ShiftIntoPlace(mask: Word, allocbits: nat) returns (allocmask: Word, k: nat)
      ensures k == TrimShift(mask, allocbits, 0) && allocmask == Shl(Ones(allocbits), k)
    {
      allocmask, k := Ones(allocbits), 0;
      assert Ones(allocbits) == Shl(Ones(allocbits), 0);
      while And(allocmask, mask) != allocmask
        invariant 0 <= k <= 32 && allocmask == Shl(Ones(allocbits), k)
        invariant TrimShift(mask, allocbits, k) == TrimShift(mask, allocbits, 0)
        decreases 32 - k
      {
        ShiftedOut(allocbits, mask);
        ShiftOnce(allocbits, k);
        allocmask := Shl(allocmask, 1);
        k := k + 1;
      }
    }

    /** The failure exit of m68k_compile_block. */
    method GiveUp(id: int)
      requires id in blocks && blocks[id].page < |pages|
      modifies `pages, `blocks
      ensures H() == Release(old(H()), id)
    {
      var b := blocks[id];
      pages := pages[b.page := pages[b.page].(mask := AndNot(pages[b.page].mask, b.mask))];
      blocks := blocks - {id};
    }

    /** m68k_compile_block, as far as code memory goes: `code` is what the translation of the block
        would emit, `bad` whether it meets something it cannot translate. */
    method CompileBlock(id: int, ninsns: nat, code: seq<int>, bad: bool, pageOk: bool, addr: bv32)
      requires Inv(H()) && id !in lru
      modifies this
      ensures Inv(H()) && H() == Compile(old(H()), id, ninsns, code, bad, pageOk, addr)
    {
      CompileKeeps(H(), id, ninsns, code, bad, pageOk, addr);
      assert id !in blocks by { NotListed(H(), id); }
      ghost var h0 := H().(lru := H().lru + [id]);
      LruKeeps(H(), h0);
      lru := lru + [id];
      AllocKeeps(h0, id, ninsns, pageOk, addr);
      hide Inv, Alloc, Emit, Trim, Release;
      var ok := AllocCode(id, ninsns, pageOk, addr);
      if !ok {
        return;
      }
      EmitKeeps(H(), id, code);
      assert BlockOk(pages, blocks[id]) by { BlockIsOk(H(), id); }
      var fits := Assemble(id, code);
      assert blocks[id].page < |pages| by { BlockIsOk(H(), id); }
      if bad || !fits {
        GiveUp(id);
      } else {
        TrimBlock(id, |code|);
      }
    }

    /** flush_icache */
    method FlushAll()
      modifies this
      ensures H() == Flush(old(H()), 0)
    {
      var k := 0;
      while k < |lru|
        invariant 0 <= k <= |lru| && Flush(H(), k) == Flush(old(H()), 0)
        decreases |lru| - k
      {
        var id := lru[k];
        if id in blocks && blocks[id].page < |pages| && !Spared(blocks[id].addr) {
          var b := blocks[id];
          pages := pages[b.page := pages[b.page].(mask := AndNot(pages[b.page].mask, b.mask))];
          blocks := blocks - {id};
          lru := lru[..k] + lru[k + 1..];
        } else {
          k := k + 1;
        }
      }
    }
  }

  /** What the invariant comes to, over any run: each block that owns code has a run of units of 512 bytes after the
      header of its page, no unit belongs to two blocks, a page of 16384 bytes marks exactly its header and the units of its
      blocks, and the code of each block is in memory where its run begins. */
  lemma PagesInRuns(ops: seq<Op>, x: int, y: int, i: nat)
    requires var h := Run(EMPTY, ops); x in h.blocks && y in h.blocks && i < 32
    ensures var h := Run(EMPTY, ops);
            var a, b := h.blocks[x], h.blocks[y];
            && a.page < |h.pages| && |h.pages[a.page].mem| == 16384
            && 1 <= a.first && a.first + a.units <= 32 && (a.mask[i] <==> a.first <= i < a.first + a.units)
            && |a.code| <= 512 * a.units && h.pages[a.page].mem[512 * a.first .. 512 * a.first + |a.code|] == a.code
            && (x != y && a.page == b.page ==> !(a.mask[i] && b.mask[i]))
            && (h.pages[a.page].mask[i] <==>
                  i == 0 || exists id :: id in h.blocks && h.blocks[id].page == a.page && h.blocks[id].mask[i])
  {
    RunKeeps(ops);
    var h := Run(EMPTY, ops);
    hide Run, Do;
    assert BlockOk(h.pages, h.blocks[x]) && BlockOk(h.pages, h.blocks[y]);
    assert PageOk(h, h.blocks[x].page);
  }

  /** A compilation that emits no more than 32 bytes for each instruction succeeds, unless there is no memory for a page or the
      function needs a whole one; what it emits is then kept in as few units as it takes. */
  lemma CompileSucceeds(h: Heap, id: int, n: nat, code: seq<int>, addr: bv32)
    requires Inv(h) && id !in h.lru && |code| <= 32 * n && (32 * n + 511) / 512 * 512 < 16384 - 512
    ensures var r := Compile(h, id, n, code, false, true, addr);
            id in r.blocks && r.blocks[id].code == code && r.blocks[id].units == (|code| + 511) / 512
  {
    var h0 := h.(lru := h.lru + [id]);
    LruKeeps(h, h0);
    AllocKeeps(h0, id, n, true, addr);
    assert id !in h.blocks;
    AllocSucceeds(h0, id, n, addr);
    var a := Alloc(h0, id, n, true, addr);
    hide Inv, Alloc, RoundUp, BlockOk;
    EmitKeeps(a, id, code);
    var e := Emit(a, id, code);
    assert e.blocks[id].code == code by { hide Emit; }
    TrimKeeps(e, id, |code|);
    UnitsFor(|code|);
    hide Emit, Trim;
  }

  lemma UnitsFor(n: nat)
    ensures RoundUp(n) / UNIT == (n + 511) / 512
  {
    var q := (n + 511) / 512;
    assert q * 512 / 512 == q;
  }

  lemma AllocSucceeds(h: Heap, id: int, n: nat, addr: bv32)
    requires (32 * n + 511) / 512 * 512 < 16384 - 512
    ensures id in Alloc(h, id, n, true, addr).blocks
  {
    hide FindPage, BlockAt, FirstFit;
    assert RoundUp(n * 32) == (32 * n + 511) / 512 * 512;
  }
}
