/** The heap of newlib: _sbrk moves one end of the heap, and never into the reserved stack. */
module Sbrk {
  import opened Bits

  const FAILED := 0xFFFF_FFFF

  type ptrdiff = i: int | -0x8000_0000 <= i < 0x8000_0000

  /** The linker symbols: addresses of _end, _estack and _Min_Stack_Size. */
  datatype Layout = Layout(end: nat, estack: nat, minStack: nat)

  function Limit(m: Layout): nat
    requires m.estack < WORD && m.minStack < WORD
  {
    (m.estack + WORD - m.minStack) % WORD
  }

  /** RAM as the linker script lays it out: the heap starts above address zero, its limit is not below, and all of it
      lies in the lower half of the address space. */
  predicate Sane(m: Layout) {
    && m.estack < WORD && m.minStack < WORD
    && 0 < m.end <= Limit(m) < 0x8000_0000
  }

  lemma LimitIs(m: Layout)
    requires m.estack < WORD && m.minStack <= m.estack
    ensures Limit(m) + m.minStack == m.estack
  {
  }

  /** A granted block: where it starts and how long it is. */
  datatype Block = Block(start: nat, size: int)

  /** One call: the heap end afterwards, and the address returned. Pointer arithmetic wraps in 32 bits. */
  function Step(m: Layout, heapEnd: nat, incr: ptrdiff): (r: (nat, nat))
    requires m.estack < WORD && m.minStack < WORD && heapEnd < WORD && m.end < WORD
    ensures r.0 < WORD
  {
    var h := if heapEnd == 0 then m.end else heapEnd;
    var next := (h + incr) % WORD;
    if next > Limit(m) then (h, FAILED) else (next, h)
  }

  /** For increments that are not negative, a call is refused exactly when the block does not fit below the limit: when
      it does not leave the stack its reserve. (A reserve beyond the address of _estack makes the limit wrap.) */
  lemma GrantedIffItFits(m: Layout, heapEnd: nat, incr: ptrdiff)
    requires Sane(m) && (heapEnd == 0 || m.end <= heapEnd <= Limit(m)) && incr >= 0
    ensures var h := if heapEnd == 0 then m.end else heapEnd;
      && Step(m, heapEnd, incr) == (if h + incr <= Limit(m) then (h + incr, h) else (h, 0xFFFF_FFFF))
      && (m.minStack <= m.estack ==> (h + incr <= Limit(m) <==> h + incr + m.minStack <= m.estack))
  {
    var h := if heapEnd == 0 then m.end else heapEnd;
    assert (h + incr) % WORD == h + incr;
  }

  class Heap {
    var heapEnd: nat
    const layout: Layout

    method Sbrk(incr: ptrdiff) returns (block: nat)
      requires heapEnd < WORD && layout.estack < WORD && layout.minStack < WORD && layout.end < WORD
      modifies `heapEnd
      ensures (heapEnd, block) == Step(layout, old(heapEnd), incr)
      ensures Sane(layout) && (old(heapEnd) == 0 || layout.end <= old(heapEnd) <= Limit(layout)) && incr >= 0 ==>
                var h := if old(heapEnd) == 0 then layout.end else old(heapEnd);
                && (block != 0xFFFF_FFFF <==> h + incr <= Limit(layout))
                && (layout.minStack <= layout.estack ==>
                      (block != 0xFFFF_FFFF <==> h + incr + layout.minStack <= layout.estack))
                && (block != 0xFFFF_FFFF ==> block == h && heapEnd == h + incr)
                && (block == 0xFFFF_FFFF ==> heapEnd == h)
    {
      ghost var before := heapEnd;
      if Sane(layout) && (before == 0 || layout.end <= before <= Limit(layout)) && incr >= 0 {
        GrantedIffItFits(layout, before, incr);
      }
      var maxHeap := (layout.estack + WORD - layout.minStack) % WORD;
      if heapEnd == 0 {
        heapEnd := layout.end;
      }
      if (heapEnd + incr) % WORD > maxHeap {
        return FAILED;
      }
      block := heapEnd;
      heapEnd := (heapEnd + incr) % WORD;
    }
  }

  // ---- any run of calls ----

  /** The heap end and the granted blocks after a run of calls from the start. */
  function Run(m: Layout, incrs: seq<ptrdiff>): (r: (nat, seq<Block>))
    requires m.estack < WORD && m.minStack < WORD && m.end < WORD
    ensures r.0 < WORD
  {
    if incrs == [] then (0, [])
    else
      var n := |incrs| - 1;
      var (h, blocks) := Run(m, incrs[..n]);
      var (h', start) := Step(m, h, incrs[n]);
      (h', if start == FAILED then blocks else blocks + [Block(start, incrs[n])])
  }

  /** The blocks follow one another without gaps, from `from` up to `to`. */
  predicate Tiles(blocks: seq<Block>, from: nat, to: nat) {
    if blocks == [] then from == to
    else
      var last := blocks[|blocks| - 1];
      last.size >= 0 && last.start + last.size == to && Tiles(blocks[..|blocks| - 1], from, last.start)
  }

  /** Over any run of increments that are not negative, the granted blocks tile the heap from _end to its end, which
      never passes the limit. */
  lemma {:induction false} BlocksTile(m: Layout, incrs: seq<ptrdiff>)
    requires Sane(m) && forall i <- incrs :: i >= 0
    ensures var (h, blocks) := Run(m, incrs);
      && (incrs == [] ==> h == 0 && blocks == [])
      && (incrs != [] ==> m.end <= h <= Limit(m) && Tiles(blocks, m.end, h))
      && (incrs != [] && m.minStack <= m.estack ==> h + m.minStack <= m.estack)
  {
    if incrs != [] {
      var n := |incrs| - 1;
      assert incrs[n] in incrs && forall i <- incrs[..n] :: i in incrs;
      BlocksTile(m, incrs[..n]);
      var (h, blocks) := Run(m, incrs[..n]);
      GrantedIffItFits(m, h, incrs[n]);
      if m.minStack <= m.estack { LimitIs(m); }
      hide Limit, Tiles, Step;
      if n == 0 { NoTiles(m.end); }
      TileOne(blocks, m.end, Block(if h == 0 then m.end else h, incrs[n]));
    }
  }

  lemma NoTiles(at: nat)
    ensures Tiles([], at, at)
  {
  }

  lemma TileOne(blocks: seq<Block>, from: nat, b: Block)
    requires Tiles(blocks, from, b.start) && b.size >= 0
    ensures Tiles(blocks + [b], from, b.start + b.size)
  {
    assert (blocks + [b])[..|blocks|] == blocks;
  }

  /** Tiles do not overlap, and lie in order. */
  lemma {:induction false} TilesAreDisjoint(blocks: seq<Block>, from: nat, to: nat, i: nat, j: nat)
    requires Tiles(blocks, from, to) && i < j < |blocks|
    ensures from <= blocks[i].start && blocks[i].start + blocks[i].size <= blocks[j].start
    ensures blocks[j].start + blocks[j].size <= to
  {
    var n := |blocks| - 1;
    TilesGrow(blocks[..n], from, blocks[n].start);
    if j < n {
      TilesAreDisjoint(blocks[..n], from, blocks[n].start, i, j);
    } else {
      TileWithin(blocks[..n], from, blocks[n].start, i);
    }
  }

  lemma {:induction false} TilesGrow(blocks: seq<Block>, from: nat, to: nat)
    requires Tiles(blocks, from, to)
    ensures from <= to
  {
    if blocks != [] { TilesGrow(blocks[..|blocks| - 1], from, blocks[|blocks| - 1].start); }
  }

  lemma {:induction false} TileWithin(blocks: seq<Block>, from: nat, to: nat, i: nat)
    requires Tiles(blocks, from, to) && i < |blocks|
    ensures from <= blocks[i].start && blocks[i].start + blocks[i].size <= to
  {
    var n := |blocks| - 1;
    TilesGrow(blocks[..n], from, blocks[n].start);
    if i < n { TileWithin(blocks[..n], from, blocks[n].start, i); }
  }
}
