/** The Armv7-M MPU loader. An RBAR write with VALID set moves RNR to its REGION field, and the aliases are further
    names of the same two registers (Armv7-M Architecture Reference Manual, section B3.5). */
module MpuV7 {
  import opened Bits
  import opened MpuTable

  datatype Mpu = Mpu(rnr: nat, regions: seq<Region>)

  const VALID := 4

  function RegionField(rbar: word): nat {
    rbar % 16
  }

  /** RBAR: only the address bits are kept. */
  function WriteRbar(m: Mpu, v: word): (m': Mpu)
    ensures |m'.regions| == |m.regions|
  {
    var rnr := if Bit(v, VALID) then RegionField(v) else m.rnr;
    if rnr < |m.regions| then Mpu(rnr, m.regions[rnr := m.regions[rnr].(rbar := v - v % 32)]) else m.(rnr := rnr)
  }

  function WriteRasr(m: Mpu, v: word): (m': Mpu)
    ensures |m'.regions| == |m.regions| && m'.rnr == m.rnr
  {
    if m.rnr < |m.regions| then m.(regions := m.regions[m.rnr := m.regions[m.rnr].(attr := v)]) else m
  }

  /** Word w, counted from RBAR, is written: RBAR and its aliases are the even words, RASR and its aliases the odd. */
  function WriteWord(m: Mpu, w: nat, v: word): Mpu {
    if w % 2 == 0 then WriteRbar(m, v) else WriteRasr(m, v)
  }

  function WriteWords(m: Mpu, w: nat, vs: seq<word>): Mpu {
    if vs == [] then m else WriteWord(WriteWords(m, w, vs[..|vs| - 1]), w + |vs| - 1, vs[|vs| - 1])
  }

  /** ARM_MPU_SetRegion: RBAR, then RASR. */
  function SetRegion(m: Mpu, r: Region): Mpu {
    WriteRasr(WriteRbar(m, r.rbar), r.attr)
  }

  function SetRegions(m: Mpu, table: seq<Region>): Mpu {
    if table == [] then m else SetRegion(SetRegions(m, table[..|table| - 1]), table[|table| - 1])
  }

  // ---- the loader does what one region at a time does ----

  lemma PairIsRegion(m: Mpu, vs: seq<word>, r: Region)
    requires |vs| % 2 == 0
    ensures WriteWords(m, 0, vs + [r.rbar, r.attr]) == SetRegion(WriteWords(m, 0, vs), r)
  {
    hide WriteRbar, WriteRasr;
    var more := vs + [r.rbar];
    assert (vs + [r.rbar, r.attr])[..|vs| + 1] == more && more[..|vs|] == vs;
    assert WriteWords(m, 0, more) == WriteRbar(WriteWords(m, 0, vs), r.rbar);
  }

  /** The words of some rows, whichever aliases they go through, set those regions one by one. */
  lemma {:induction false} RowsAreRegions(m: Mpu, rows: seq<Region>)
    ensures WriteWords(m, 0, Words(rows)) == SetRegions(m, rows)
  {
    hide WriteWords, SetRegion;
    if rows == [] {
      hide SetRegions;
      NoWords(m);
    } else {
      var n := |rows| - 1;
      RowsAreRegions(m, rows[..n]);
      PairIsRegion(m, Words(rows[..n]), rows[n]);
    }
  }

  lemma NoWords(m: Mpu)
    ensures WriteWords(m, 0, Words([])) == SetRegions(m, [])
  {
  }

  lemma {:induction false} SetRegionsConcat(m: Mpu, a: seq<Region>, b: seq<Region>)
    ensures SetRegions(m, a + b) == SetRegions(SetRegions(m, a), b)
    decreases |b|
  {
    hide SetRegion;
    if b == [] {
      assert a + b == a;
    } else {
      var n := |b| - 1;
      SetRegionsConcat(m, a, b[..n]);
      assert (a + b)[..|a + b| - 1] == a + b[..n];
    }
  }

  class MpuRegs {
    var mpu: Mpu
    const aliases: nat

    method SetRegionNow(rbar: word, rasr: word)
      modifies `mpu
      ensures mpu == SetRegion(old(mpu), Region(rbar, rasr))
    {
      mpu := WriteWord(mpu, 0, rbar);
      mpu := WriteWord(mpu, 1, rasr);
    }

    /** Copies len words to the alias registers, one after the other; there are 2 * RALIASES. */
    method OrderedCpy(src: seq<word>, from: nat, len: nat)
      requires len <= 2 * aliases && from + len <= |src|
      modifies `mpu
      ensures mpu == WriteWords(old(mpu), 0, src[from..from + len])
    {
      hide WriteWord;
      assert src[from..from] == [];
      for i := 0 to len
        invariant mpu == WriteWords(old(mpu), 0, src[from..from + i])
      {
        assert src[from..from + i + 1][..i] == src[from..from + i];
        mpu := WriteWord(mpu, i, src[from + i]);
      }
    }

    /** One orderedCpy of whole rows. */
    method CopyRows(words: seq<word>, table: seq<Region>, row: nat, c: nat)
      requires words == Words(table) && row + c <= |table| && c <= aliases
      modifies `mpu
      ensures mpu == SetRegions(old(mpu), table[row..row + c])
    {
      hide Words, WriteWords, SetRegions;
      RowWords(table, row, row + c);
      RowsAreRegions(mpu, table[row..row + c]);
      OrderedCpy(words, 2 * row, 2 * c);
    }

    /** Loads cnt regions, for any number of aliases: exactly what setting them one by one gives. */
    method Load(table: seq<Region>, cnt: nat)
      requires aliases >= 1 && cnt <= |table|
      modifies `mpu
      ensures mpu == SetRegions(old(mpu), table[..cnt])
    {
      hide Words, SetRegion;
      ghost var m := mpu;
      var words := Words(table);
      var row, left := 0, cnt;
      while left > aliases
        invariant 0 <= row <= cnt == row + left
        invariant mpu == SetRegions(m, table[..row])
        decreases left
      {
        CopyRows(words, table, row, aliases);
        SetRegionsConcat(m, table[..row], table[row..row + aliases]);
        assert table[..row] + table[row..row + aliases] == table[..row + aliases];
        row, left := row + aliases, left - aliases;
      }
      CopyRows(words, table, row, left);
      SetRegionsConcat(m, table[..row], table[row..row + left]);
      assert table[..row] + table[row..row + left] == table[..cnt];
    }
  }

  // ---- what a table means ----

  lemma SetRegionAt(m: Mpu, r: Region, k: nat)
    requires Bit(r.rbar, VALID) && r.rbar % 16 < |m.regions| && k < |m.regions|
    ensures var regions := SetRegion(m, r).regions;
      && |regions| == |m.regions|
      && regions[k] == if r.rbar % 16 == k then Region(r.rbar - r.rbar % 32, r.attr) else m.regions[k]
  {
  }

  predicate Valid(table: seq<Region>, n: nat) {
    forall i :: 0 <= i < |table| ==> Bit(table[i].rbar, VALID) && table[i].rbar % 16 < n
  }

  /** With VALID set in every entry, a region that no entry names keeps what it held, whatever RNR was. */
  lemma {:induction false} UnnamedKept(m: Mpu, table: seq<Region>, k: nat)
    requires Valid(table, |m.regions|) && k < |m.regions|
    requires forall i :: 0 <= i < |table| ==> table[i].rbar % 16 != k
    ensures var regions := SetRegions(m, table).regions;
      |regions| == |m.regions| && regions[k] == m.regions[k]
  {
    hide Bit, SetRegion;
    if table != [] {
      var n := |table| - 1;
      UnnamedKept(m, table[..n], k);
      SetRegionAt(SetRegions(m, table[..n]), table[n], k);
    }
  }

  lemma {:induction false} SizeKept(m: Mpu, table: seq<Region>)
    ensures |SetRegions(m, table).regions| == |m.regions|
  {
    if table != [] { SizeKept(m, table[..|table| - 1]); }
  }

  /** ... and a region that is named has the last entry whose low four bits name it. */
  lemma {:induction false} TableMeans(m: Mpu, table: seq<Region>, i: nat)
    requires Valid(table, |m.regions|) && i < |table|
    requires forall j :: i < j < |table| ==> table[j].rbar % 16 != table[i].rbar % 16
    ensures var regions, k := SetRegions(m, table).regions, table[i].rbar % 16;
      && |regions| == |m.regions|
      && regions[k] == Region(table[i].rbar - table[i].rbar % 32, table[i].attr)
  {
    hide Bit, SetRegion;
    var n := |table| - 1;
    SizeKept(m, table[..n]);
    SetRegionAt(SetRegions(m, table[..n]), table[n], table[i].rbar % 16);
    if i < n { TableMeans(m, table[..n], i); }
  }

  /** The order of the two words matters: with RASR first, the attributes of an entry go to the region that was
      selected before. The two orders agree exactly if that is the region of the entry, or if nothing is lost because
      both regions have these attributes already. */
  lemma OrderMatters(m: Mpu, r: Region)
    requires Bit(r.rbar, VALID) && RegionField(r.rbar) < |m.regions|
    ensures var k := RegionField(r.rbar);
      WriteRbar(WriteRasr(m, r.attr), r.rbar) == SetRegion(m, r)
      <==> k == m.rnr || (m.regions[k].attr == r.attr && (m.rnr < |m.regions| ==> m.regions[m.rnr].attr == r.attr))
  {
    hide Bit;
    var k := RegionField(r.rbar);
    var a, b := WriteRbar(WriteRasr(m, r.attr), r.rbar), SetRegion(m, r);
    assert b.rnr == k && b.regions == m.regions[k := Region(r.rbar - r.rbar % 32, r.attr)];
    assert a.rnr == k && a.regions[k].rbar == b.regions[k].rbar;
    if k != m.rnr {
      assert a.regions[k].attr == m.regions[k].attr;
      if m.rnr < |m.regions| {
        assert a.regions[m.rnr].attr == r.attr && b.regions[m.rnr] == m.regions[m.rnr];
        assert a.regions[m.rnr].rbar == b.regions[m.rnr].rbar;
      }
      assert forall i :: 0 <= i < |m.regions| && i != k && i != m.rnr ==> a.regions[i] == b.regions[i];
      if m.regions[k].attr == r.attr && (m.rnr < |m.regions| ==> m.regions[m.rnr].attr == r.attr) {
        assert forall i :: 0 <= i < |m.regions| ==> a.regions[i] == b.regions[i];
      }
    }
  }

  /** Without VALID the entries of a table all go to the region in RNR. */
  lemma {:induction false} WithoutValid(m: Mpu, table: seq<Region>)
    requires m.rnr < |m.regions| && table != [] && forall r <- table :: !Bit(r.rbar, VALID)
    ensures var r := table[|table| - 1];
      SetRegions(m, table) == m.(regions := m.regions[m.rnr := Region(r.rbar - r.rbar % 32, r.attr)])
  {
    var n := |table| - 1;
    assert table[n] in table && forall r <- table[..n] :: r in table;
    if n > 0 { WithoutValid(m, table[..n]); }
  }
}
