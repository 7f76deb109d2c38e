/** The Armv8-M MPU loader: a table of regions pushed through a sliding window of alias registers. */
module MpuV8 {
  import opened Bits
  import opened Lanes
  import opened MpuTable

  /** What the MPU holds: RNR and the regions (Armv8-M Architecture Reference Manual, section D1.2). */
  datatype Mpu = Mpu(rnr: nat, regions: seq<Region>)

  /** The region that alias n addresses: RBAR and RLAR the one in RNR, RBAR_An and RLAR_An the n-th from RNR with its
      low two bits cleared. */
  function Target(rnr: nat, n: nat): nat {
    if n == 0 then rnr else rnr - rnr % 4 + n
  }

  /** Word w, counted from RBAR, is written. Writes to regions that are not implemented are lost. */
  function WriteWord(m: Mpu, w: nat, v: word): (m': Mpu)
    ensures |m'.regions| == |m.regions| && m'.rnr == m.rnr
  {
    var t := Target(m.rnr, w / 2);
    if t >= |m.regions| then m
    else if w % 2 == 0 then m.(regions := m.regions[t := m.regions[t].(rbar := v)])
    else m.(regions := m.regions[t := m.regions[t].(attr := v)])
  }

  /** Words written to w, w + 1, ... in this order. */
  function WriteWords(m: Mpu, w: nat, vs: seq<word>): (m': Mpu)
    ensures |m'.regions| == |m.regions| && m'.rnr == m.rnr
  {
    if vs == [] then m else WriteWord(WriteWords(m, w, vs[..|vs| - 1]), w + |vs| - 1, vs[|vs| - 1])
  }

  // ---- one region at a time ----

  /** ARM_MPU_SetRegionEx: RNR, then RBAR, then RLAR. */
  function SetRegion(m: Mpu, rnr: nat, r: Region): Mpu {
    WriteWord(WriteWord(m.(rnr := rnr), 0, r.rbar), 1, r.attr)
  }

  /** ARM_MPU_SetRegionEx for rnr, rnr + 1, ... */
  function SetRegions(m: Mpu, rnr: nat, table: seq<Region>): (m': Mpu)
  {
    if table == [] then m
    else SetRegion(SetRegions(m, rnr, table[..|table| - 1]), rnr + |table| - 1, table[|table| - 1])
  }

  /** The regions with the table in place of those from rnr on. */
  function Replaced(regions: seq<Region>, rnr: nat, table: seq<Region>): seq<Region>
    requires rnr + |table| <= |regions|
  {
    regions[..rnr] + table + regions[rnr + |table|..]
  }

  lemma ReplacedAt(regions: seq<Region>, rnr: nat, table: seq<Region>)
    requires rnr + |table| <= |regions|
    ensures |Replaced(regions, rnr, table)| == |regions|
    ensures forall i: nat :: i < |regions| ==>
              Replaced(regions, rnr, table)[i]
              == if rnr <= i < rnr + |table| then table[i - rnr] else regions[i]
  {
  }

  lemma {:induction false} SetRegionsReplaces(m: Mpu, rnr: nat, table: seq<Region>)
    requires rnr + |table| <= |m.regions|
    ensures SetRegions(m, rnr, table).regions == Replaced(m.regions, rnr, table)
  {
    if table != [] {
      SetRegionsReplaces(m, rnr, table[..|table| - 1]);
    }
  }

  // ---- through the window ----

  lemma OneWord(m: Mpu, w: nat, vs: seq<word>, a: word)
    ensures WriteWords(m, w, vs + [a]) == WriteWord(WriteWords(m, w, vs), w + |vs|, a)
  {
    hide WriteWord;
    assert (vs + [a])[..|vs|] == vs;
  }

  lemma TwoWords(m: Mpu, w: nat, vs: seq<word>, a: word, b: word)
    ensures WriteWords(m, w, vs + [a, b]) == WriteWord(WriteWord(WriteWords(m, w, vs), w + |vs|, a), w + |vs| + 1, b)
  {
    hide WriteWord, WriteWords;
    OneWord(m, w, vs, a);
    OneWord(m, w, vs + [a], b);
    assert vs + [a, b] == vs + [a] + [b];
  }

  /** Writing both words of an alias sets the region it addresses. */
  lemma PairLands(m: Mpu, n: nat, r: Region)
    requires Target(m.rnr, n) == m.rnr + n < |m.regions|
    ensures WriteWord(WriteWord(m, 2 * n, r.rbar), 2 * n + 1, r.attr).regions == m.regions[m.rnr + n := r]
  {
  }

  /** One more row in the window. */
  lemma RowLands(m: Mpu, off: nat, rows: seq<Region>, r: Region)
    requires off + |rows| == 0 || m.rnr % 4 == 0
    requires m.rnr + off + |rows| < |m.regions| && off + |rows| < 4
    requires WriteWords(m, 2 * off, Words(rows)).regions == Replaced(m.regions, m.rnr + off, rows)
    ensures WriteWords(m, 2 * off, Words(rows) + [r.rbar, r.attr]).regions
            == Replaced(m.regions, m.rnr + off, rows + [r])
  {
    hide WriteWord, WriteWords, Words;
    var m' := WriteWords(m, 2 * off, Words(rows));
    TwoWords(m, 2 * off, Words(rows), r.rbar, r.attr);
    assert 2 * off + |Words(rows)| == 2 * (off + |rows|);
    PairLands(m', off + |rows|, r);
  }

  /** Rows copied into the window from alias `off` on land in the regions from RNR + off on, if RNR is aligned or only
      plain RBAR and RLAR are used. */
  lemma {:induction false} RowsLand(m: Mpu, off: nat, rows: seq<Region>)
    requires off + |rows| <= 1 || m.rnr % 4 == 0
    requires m.rnr + off + |rows| <= |m.regions| && off + |rows| <= 4
    ensures WriteWords(m, 2 * off, Words(rows)).regions == Replaced(m.regions, m.rnr + off, rows)
  {
    hide WriteWord, Target;
    if rows == [] {
      assert Replaced(m.regions, m.rnr + off, []) == m.regions;
    } else {
      var n := |rows| - 1;
      RowsLand(m, off, rows[..n]);
      RowLands(m, off, rows[..n], rows[n]);
      assert rows == rows[..n] + [rows[n]];
    }
  }

  lemma ReplacedTwice(regions: seq<Region>, rnr: nat, a: seq<Region>, b: seq<Region>)
    requires rnr + |a| + |b| <= |regions|
    ensures Replaced(Replaced(regions, rnr, a), rnr + |a|, b) == Replaced(regions, rnr, a + b)
  {
  }

  class MpuRegs {
    var mpu: Mpu
    var mair: seq<word>
    const aliases: nat
    ghost var copied: seq<word>

    /** RALIASES is 4 on the mainline, 1 on the baseline architecture. */
    predicate Valid()
      reads this
    {
      aliases in {1, 4} && |mair| == 2
    }

    method SetRegionEx(rnr: nat, rbar: word, rlar: word)
      modifies `mpu
      ensures mpu == SetRegion(old(mpu), rnr, Region(rbar, rlar))
      ensures rnr < |old(mpu).regions| ==> mpu.regions == old(mpu).regions[rnr := Region(rbar, rlar)]
      ensures rnr >= |old(mpu).regions| ==> mpu.regions == old(mpu).regions
    {
      mpu := mpu.(rnr := rnr);
      mpu := WriteWord(mpu, 0, rbar);
      mpu := WriteWord(mpu, 1, rlar);
    }

    /** Copies len words, one after the other, to the alias registers from word dst on; there are 2 * RALIASES. */
    method OrderedCpy(dst: nat, src: seq<word>, from: nat, len: nat)
      requires dst + len <= 2 * aliases && from + len <= |src|
      modifies `mpu, `copied
      ensures mpu == WriteWords(old(mpu), dst, src[from..from + len])
      ensures copied == old(copied) + src[from..from + len]
    {
      hide WriteWord;
      assert src[from..from] == [];
      for i := 0 to len
        invariant mpu == WriteWords(old(mpu), dst, src[from..from + i])
        invariant copied == old(copied) + src[from..from + i]
      {
        OneWord(old(mpu), dst, src[from..from + i], src[from + i]);
        hide WriteWords;
        assert src[from..from + i + 1] == src[from..from + i] + [src[from + i]];
        mpu := WriteWord(mpu, dst + i, src[from + i]);
        copied := copied + [src[from + i]];
      }
    }

    /** Loads cnt regions: exactly what setting them one by one gives, with every table word read once, in order. */
    method LoadEx(rnr: nat, table: seq<Region>, cnt: nat)
      requires Valid() && cnt <= |table| && rnr + cnt <= |mpu.regions|
      modifies `mpu, `copied
      ensures mpu.regions == SetRegions(old(mpu), rnr, table[..cnt]).regions
      ensures |mpu.regions| == |old(mpu).regions|
      ensures forall i: nat :: i < |mpu.regions| ==>
                mpu.regions[i] == if rnr <= i < rnr + cnt then table[i - rnr] else old(mpu).regions[i]
      ensures copied == old(copied) + Words(table[..cnt])
    {
      SetRegionsReplaces(mpu, rnr, table[..cnt]);
      ReplacedAt(mpu.regions, rnr, table[..cnt]);
      hide Words, Replaced, WriteWords, SetRegions, WriteWord;
      if cnt == 1 {
        mpu := mpu.(rnr := rnr);
        RowsLand(mpu, 0, table[..1]);
        RowWords(table, 0, 1);
        assert table[0..1] == table[..1];
        OrderedCpy(0, Words(table), 0, 2);
      } else {
        LoadWindows(rnr, table, cnt);
      }
    }

    /** The other branch of LoadEx: the window moves over the regions in steps of RALIASES. */
    method LoadWindows(rnr: nat, table: seq<Region>, cnt: nat)
      requires Valid() && cnt <= |table| && rnr + cnt <= |mpu.regions|
      modifies `mpu, `copied
      ensures |mpu.regions| == |old(mpu).regions|
      ensures mpu.regions == Replaced(old(mpu).regions, rnr, table[..cnt])
      ensures copied == old(copied) + Words(table[..cnt])
    {
      hide Words, Replaced, WriteWords, AndNot, WriteWord, Window;
      ghost var m := mpu;
      var words := Words(table);
      var (rnrBase, rnrOffset) := Window(rnr, aliases);
      var row, left := 0, cnt;
      mpu := mpu.(rnr := rnrBase);
      NothingLoaded(m, rnr, table);
      while rnrOffset + left > aliases
        invariant 0 <= row <= cnt == row + left && 0 <= rnrOffset < aliases
        invariant rnrBase + rnrOffset == rnr + row && (aliases == 4 ==> rnrBase % 4 == 0)
        invariant mpu.rnr == rnrBase && |mpu.regions| == |m.regions|
        invariant mpu.regions == Replaced(m.regions, rnr, table[..row])
        invariant copied == old(copied) + Words(table[..row])
        decreases left
      {
        var c := aliases - rnrOffset;
        CopyRows(rnrOffset, words, table, row, c);
        RowsJoin(m, rnr, table, row, c);
        row, left := row + c, left - c;
        rnrOffset := 0;
        rnrBase := rnrBase + aliases;
        mpu := mpu.(rnr := rnrBase);
      }
      CopyRows(rnrOffset, words, table, row, left);
      RowsJoin(m, rnr, table, row, left);
    }

    /** One orderedCpy of whole rows. */
    method CopyRows(off: nat, words: seq<word>, table: seq<Region>, row: nat, c: nat)
      requires Valid() && words == Words(table) && row + c <= |table|
      requires off + c <= aliases && (aliases == 4 ==> mpu.rnr % 4 == 0) && mpu.rnr + off + c <= |mpu.regions|
      modifies `mpu, `copied
      ensures mpu.rnr == old(mpu).rnr && |mpu.regions| == |old(mpu).regions|
      ensures mpu.regions == Replaced(old(mpu).regions, mpu.rnr + off, table[row..row + c])
      ensures copied == old(copied) + Words(table[row..row + c])
    {
      hide Words, Replaced, WriteWords;
      RowsLand(mpu, off, table[row..row + c]);
      RowWords(table, row, row + c);
      OrderedCpy(2 * off, words, 2 * row, 2 * c);
    }

    /** Sets one of the eight attributes, byte idx % 4 of MAIR0 or MAIR1, and leaves the others; any other index is
        ignored. */
    method SetMemAttrEx(idx: byte, attr: byte)
      requires Valid()
      modifies `mair
      ensures Valid()
      ensures idx >= 8 ==> mair == old(mair)
      ensures forall w: nat, k: nat :: w < 2 && k < 4 ==>
                mair[w] / Unit(k) % 256 == if 4 * w + k == idx then attr else old(mair)[w] / Unit(k) % 256
    {
      hide Lane, WithLane, Unit;
      var reg, k := idx / 4, idx % 4;
      if reg >= 2 {
        return;
      }
      ghost var before := mair;
      LaneAfter(mair[reg], k, attr, 0);
      mair := mair[reg := WithLane(mair[reg], k, attr)];
      forall w: nat, j: nat | w < 2 && j < 4
        ensures mair[w] / Unit(j) % 256 == if 4 * w + j == idx then attr else before[w] / Unit(j) % 256
      {
        LaneAfter(before[reg], k, attr, j);
        LaneIs(mair[w], j);
        LaneIs(before[w], j);
      }
    }
  }

  /** rnr & ~(RALIASES - 1) and rnr % RALIASES: the start of the window and the place in it. */
  function Window(rnr: nat, aliases: nat): (w: (nat, nat))
    requires aliases in {1, 4}
    ensures w.0 + w.1 == rnr && w.1 < aliases && (aliases == 4 ==> w.0 % 4 == 0)
  {
    MaskTwo(rnr);
    (AndNot(rnr, aliases - 1), rnr % aliases)
  }

  lemma NothingLoaded(m: Mpu, rnr: nat, table: seq<Region>)
    requires rnr <= |m.regions|
    ensures Replaced(m.regions, rnr, table[..0]) == m.regions && Words(table[..0]) == []
  {
  }

  lemma RowsJoin(m: Mpu, rnr: nat, table: seq<Region>, row: nat, c: nat)
    requires row + c <= |table| && rnr + row + c <= |m.regions|
    ensures Replaced(Replaced(m.regions, rnr, table[..row]), rnr + row, table[row..row + c])
            == Replaced(m.regions, rnr, table[..row + c])
    ensures Words(table[..row]) + Words(table[row..row + c]) == Words(table[..row + c])
  {
    hide Words, Replaced;
    ReplacedTwice(m.regions, rnr, table[..row], table[row..row + c]);
    SlicesJoin(table, row, row + c);
    WordsConcat(table[..row], table[row..row + c]);
  }
}
