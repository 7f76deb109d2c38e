/** PacketReceive and SendPacket at every moment of their runs on the bus: after each of their accesses, and whatever
    the hardware does before the next. */
module Enc28Runs {
  import opened Bits
  import opened Enc28Chip
  import opened RxRing
  import opened RxHardware
  import opened Enc28Banks
  import opened DriverSteps
  import opened Enc28Programs
  import opened Enc28Unguarded

  // ---- runs and their beginnings ----

  /** ERXRDPTH has been written, which gives the packets before to the hardware. */
  predicate FreedIn(run: seq<Access>) {
    run != [] && (FreedIn(run[..|run| - 1]) || Frees(run[|run| - 1]))
  }

  predicate Frees(a: Access) {
    a.Apply? && a.op == WCR && a.addr == 0x0D
  }

  /** Whenever ERXRDPT is outside the ring, everything fits: with `freed` packets freed at the beginning of the run. */
  ghost predicate Roomy(o: Chip, run: seq<Access>, freed: nat)
    requires Wf(o)
  {
    run == []
    || (var before, a := run[..|run| - 1], run[|run| - 1];
        && Roomy(o, before, freed)
        && (a.Events? ==>
              RoomFor(RunBanked(o, before).chip, a.events, if FreedIn(before) then freed + 1 else freed)))
  }

  lemma {:induction false} StepsPrefix(run: seq<Access>, k: nat)
    requires k <= |run|
    ensures Steps(run[..k]) <= Steps(run)
    decreases |run|
  {
    if k == |run| {
      assert run[..k] == run;
    } else {
      assert run[..|run| - 1][..k] == run[..k];
      StepsPrefix(run[..|run| - 1], k);
    }
  }

  lemma {:induction false} BytesPrefix(o: Chip, run: seq<Access>, k: nat)
    requires Wf(o) && k <= |run|
    ensures RunBanked(o, run[..k]).seen <= RunBanked(o, run).seen
    decreases |run|
  {
    hide Banked;
    if k == |run| {
      assert run[..k] == run;
    } else {
      assert run[..|run| - 1][..k] == run[..k];
      BytesPrefix(o, run[..|run| - 1], k);
    }
  }

  lemma {:induction false} RoomyPrefix(o: Chip, run: seq<Access>, k: nat, freed: nat)
    requires Wf(o) && k <= |run| && Roomy(o, run, freed)
    ensures Roomy(o, run[..k], freed)
    decreases |run|
  {
    hide RoomFor, RunBanked;
    if k == |run| {
      assert run[..k] == run;
    } else {
      assert run[..|run| - 1][..k] == run[..k];
      RoomyPrefix(o, run[..|run| - 1], k, freed);
    }
  }

  // ---- the accesses of PacketReceive one by one ----

  /** PacketReceive when it takes a packet, with n bytes of its frame. */
  function WholeReceive(rp: nat, n: nat, next: nat): (s: seq<Access>)
    requires rp < 0x1_0000
    ensures |s| == 18 + n
  {
    CountSteps() + (HeaderSteps(rp) + Ins(n) + ReleaseSteps(next))
  }

  function ReceiveStep(k: nat, rp: nat, n: nat, next: nat): Access
    requires rp < 0x1_0000 && k < 18 + n
  {
    if k == 0 || k == 3 || k == 13 + n then Apply(BFC, 0x1F, 0x03)
    else if k == 1 then Apply(BFS, 0x1F, 1)
    else if k == 4 || k == 14 + n then Apply(BFS, 0x1F, 0)
    else if k == 2 then Query(0x19)
    else if k == 5 then Apply(WCR, 0x00, rp % 0x100)
    else if k == 6 then Apply(WCR, 0x01, rp / 0x100)
    else if k < 13 + n then In
    else if k == 15 + n then Apply(WCR, 0x0C, FreeLow(next))
    else if k == 16 + n then Apply(WCR, 0x0D, FreeHigh(next))
    else Apply(BFS, 0x1E, 0x40)
  }

  lemma StepIs(k: nat, rp: nat, n: nat, next: nat)
    requires rp < 0x1_0000 && k < 18 + n
    ensures WholeReceive(rp, n, next)[k] == ReceiveStep(k, rp, n, next)
  {
    hide FreeLow, FreeHigh;
    var c, h, r := CountSteps(), HeaderSteps(rp), ReleaseSteps(next);
    var rest := h + Ins(n) + r;
    if k < 3 {
      assert WholeReceive(rp, n, next)[k] == c[k];
    } else if k < 13 {
      assert WholeReceive(rp, n, next)[k] == rest[k - 3] == h[k - 3];
    } else if k < 13 + n {
      assert WholeReceive(rp, n, next)[k] == rest[k - 3] == Ins(n)[k - 13];
    } else {
      assert WholeReceive(rp, n, next)[k] == rest[k - 3] == r[k - 13 - n];
    }
  }

  /** One more byte of a packet p at rp has been read, j in all: ERDPT stands behind them, and they are its bytes. */
  ghost predicate ReadOff(c: Chip, rp: nat, p: Packet, j: nat, bytes: seq<byte>) {
    && Wf(c) && |bytes| == j
    && (j <= PacketSize(p) ==> PtrAt(c, ERDPTL) == At(rp, j))
    && forall i :: 0 <= i < j && i < PacketSize(p) ==> bytes[i] == Encode(rp, p)[i]
  }

  function BytesShown(k: nat, n: nat): nat {
    if k < 3 then 0 else if k < 7 then 1 else if k < 13 + n then k - 6 else 7 + n
  }

  /** After k accesses, up to the one before ERXRDPTH. */
  ghost predicate Reading(o: Chip, k: nat, n: nat, next: nat, c: Chip, bytes: seq<byte>, rp: nat, taken: nat) {
    && Wf(o) && Held(c, rp, taken) && c.ring.rdpt == o.ring.rdpt && taken + c.ring.cnt == |c.ring.log|
    && (k == 1 || k >= 4 ==> Bank(c) == 0) && (k == 2 || k == 3 ==> Bank(c) == 1)
    && |bytes| == BytesShown(k, n)
    && (k == 3 && bytes[0] != 0 ==> taken < |c.ring.log|)
    && (k >= 4 ==> taken < |c.ring.log|)
    && (k == 6 ==> c.regs[ERDPTL] == rp % 0x100)
    && (7 <= k <= 13 + n ==> ReadOff(c, rp, c.ring.log[taken], k - 7, bytes[1..]))
    && (13 + n < k ==> Shows(rp, c.ring.log[taken], bytes[1..]))
    && (k == 16 + n ==> c.latch == FreeLow(next))
  }

  /** These are the bytes of p at rp, as far as it goes. */
  ghost predicate Shows(rp: nat, p: Packet, bytes: seq<byte>) {
    forall i :: 0 <= i < |bytes| && i < PacketSize(p) ==> bytes[i] == Encode(rp, p)[i]
  }

  /** After k accesses, from ERXRDPTH on. */
  ghost predicate Giving(k: nat, n: nat, next: nat, c: Chip, bytes: seq<byte>, rp: nat, taken: nat) {
    && Held(c, next, taken + 1) && c.ring.rdpt == Ptr(FreeLow(next), FreeHigh(next))
    && taken + c.ring.cnt + (if k == 18 + n then 1 else 0) == |c.ring.log| && taken < |c.ring.log|
    && |bytes| == 7 + n && Shows(rp, c.ring.log[taken], bytes[1..])
    && PacketSize(c.ring.log[taken]) < SIZE && next == At(rp, PacketSize(c.ring.log[taken]))
  }

  // ---- what the hardware does in between ----

  lemma EventsKeep(c: Chip, events: seq<HwEvent>)
    requires Wf(c)
    ensures var d := RunHw(c, events);
      && Bank(d) == Bank(c) && d.latch == c.latch && Grown(c, d)
      && (forall i :: 0 <= i < 128 && i != ECON1 && i != MISTAT ==> d.regs[i] == c.regs[i])
      && (Flag(d, ECON1, TXRTS) ==> Flag(c, ECON1, TXRTS))
      && (Flag(d, ECON2, AUTOINC) <==> Flag(c, ECON2, AUTOINC))
  {
    RunIdles(c, events, 0, 0);
    hide Sound, Operating, TxQuiet, Dormant, RunHw, Bit;
  }

  lemma ReadingEvents(o: Chip, k: nat, n: nat, next: nat, c: Chip, events: seq<HwEvent>, bytes: seq<byte>, rp: nat,
        taken: nat)
    requires Reading(o, k, n, next, c, bytes, rp, taken) && RoomFor(c, events, taken)
    ensures Reading(o, k, n, next, RunHw(c, events), bytes, rp, taken)
  {
    var d := RunHw(c, events);
    assert Wf(c);
    HeldRun(c, events, rp, taken);
    EventsKeep(c, events);
    hide Held, RunHw, FreeLow, At, Encode, PacketSize, Bit, RoomFor, RingWf, Shows;
    assert PtrAt(d, ERDPTL) == PtrAt(c, ERDPTL);
  }

  lemma GivingEvents(k: nat, n: nat, next: nat, c: Chip, events: seq<HwEvent>, bytes: seq<byte>, rp: nat, taken: nat)
    requires Giving(k, n, next, c, bytes, rp, taken) && RoomFor(c, events, taken + 1)
    ensures Giving(k, n, next, RunHw(c, events), bytes, rp, taken)
  {
    assert Wf(c);
    HeldRun(c, events, next, taken + 1);
    EventsKeep(c, events);
    hide Held, RunHw, FreeLow, FreeHigh, At, Encode, PacketSize, Bit, Ptr, RoomFor, RingWf, Shows;
  }

  // ---- what each access does ----

  lemma SelectKeeps(c: Chip, a: Access)
    requires Operating(c) && Selects(a) && (a.op == BFS ==> Bank(c) == 0)
    ensures var d := Banked(c, a).chip;
      && Operating(d) && d.ring == c.ring && d.latch == c.latch && d.sent == c.sent
      && Bank(d) == (if a.op == BFC then 0 else a.v) && Flag(d, ECON1, TXRTS) == Flag(c, ECON1, TXRTS)
      && forall i :: 0 <= i < 128 && i != ECON1 ==> d.regs[i] == c.regs[i]
  {
    var d := Banked(c, a).chip;
    if a.op == BFC { BankCleared(c); } else { BankSet(c, a.v); }
    BankIdle(c, d, 0, 0);
    FlagAbove(d, c, TXRTS);
    hide Command, Operating, Sound, Bit;
  }

  lemma PointerKeeps(c: Chip, addr: Address, v: byte)
    requires Operating(c) && Bank(c) == 0 && addr < 2
    ensures var d := Banked(c, Apply(WCR, addr, v)).chip;
      Operating(d) && d.ring == c.ring && d.latch == c.latch && d.regs == c.regs[addr := v]
  {
    PlainKeeps(c, 0, 0, addr, v);
    hide Operating, Sound, Bit;
  }

  lemma LatchStep(c: Chip, v: byte)
    requires Operating(c) && Bank(c) == 0
    ensures var d := Banked(c, Apply(WCR, 0x0C, v)).chip;
      d == c.(latch := v) && Operating(d)
  {
    hide Bit, Ptr;
  }

  lemma FreeStep(c: Chip, v: byte)
    requires Operating(c) && Bank(c) == 0
    ensures var d := Banked(c, Apply(WCR, 0x0D, v)).chip;
      d == c.(ring := c.ring.(rdpt := Ptr(c.latch, v)))
  {
    hide Bit, Ptr, Operating;
  }

  lemma ReadOffMore(c: Chip, rp: nat, taken: nat, j: nat, bytes: seq<byte>)
    requires Held(c, rp, taken) && taken < |c.ring.log| && ReadOff(c, rp, c.ring.log[taken], j, bytes)
    ensures ReadOff(BufRead(c), rp, c.ring.log[taken], j + 1, bytes + [c.ring.mem[PtrAt(c, ERDPTL)]])
  {
    var g, p := Guarded(c), c.ring.log[taken];
    BufReadKeeps(c, rp, taken);
    BufReadIs(c);
    hide BufRead, Encode, Bit, Ptr;
    if j < PacketSize(p) {
      PacketByte(g, rp, taken, j);
    }
  }

  lemma PacketByte(g: Chip, rp: nat, taken: nat, j: nat)
    requires Sound(g, rp, taken) && taken < |g.ring.log| && j < PacketSize(g.ring.log[taken])
    ensures j < SIZE && At(rp, j) < SIZE && rp < SIZE && At(At(rp, j), 1) == At(rp, j + 1)
    ensures g.ring.mem[At(rp, j)] == Encode(rp, g.ring.log[taken])[j]
  {
    var q := g.ring.log[taken..];
    assert q[0] == g.ring.log[taken];
    hide Encode;
    UnreadByte(g, rp, taken, q, j);
    assert Image(rp, q)[j] == Encode(rp, q[0])[j];
    hide Configured;
  }

  /** The header of a packet, as far as it has been shown, says where the next one starts. */
  lemma HeaderSays(rp: nat, p: Packet, bytes: seq<byte>)
    requires rp < SIZE && PacketSize(p) <= SIZE && |bytes| >= 6 && Shows(rp, p, bytes)
    ensures Short(bytes[0], bytes[1]) == At(rp, PacketSize(p)) && Short(bytes[4], bytes[5]) == |p.frame|
    ensures forall i :: 6 <= i < |bytes| && i < 6 + |p.frame| ==> bytes[i] == p.frame[i - 6]
  {
    HeaderDecodes(rp, p);
    hide Short, HeaderOf;
    assert forall i :: 0 <= i < 6 ==> Encode(rp, p)[i] == HeaderOf(rp, p)[i];
  }

  lemma SelectReads(o: Chip, k: nat, n: nat, next: nat, c: Chip, bytes: seq<byte>, rp: nat, taken: nat)
    requires Reading(o, k, n, next, c, bytes, rp, taken) && k in {0, 1, 3, 4, 13 + n, 14 + n} && rp < 0x1_0000
    requires k == 3 ==> bytes[0] != 0
    ensures var d := Banked(c, ReceiveStep(k, rp, n, next));
      Reading(o, k + 1, n, next, d.chip, bytes + d.seen, rp, taken)
  {
    var a := ReceiveStep(k, rp, n, next);
    assert Wf(c) && Operating(c);
    SelectKeeps(c, a);
    HeldSame(c, Banked(c, a).chip, rp, taken);
    hide Held, Operating, Command, FreeLow, At, Encode, PacketSize, Bit, Ptr, RingWf;
    assert bytes + [] == bytes;
  }

  lemma CountReads(o: Chip, n: nat, next: nat, c: Chip, bytes: seq<byte>, rp: nat, taken: nat)
    requires Reading(o, 2, n, next, c, bytes, rp, taken) && rp < 0x1_0000
    ensures var d := Banked(c, Query(0x19));
      Reading(o, 3, n, next, d.chip, bytes + d.seen, rp, taken) && d.chip == c && d.seen == [c.ring.cnt]
  {
    assert Slot(Bank(c), 0x19) == EPKTCNT;
    hide Held, FreeLow, At, Encode, PacketSize, Bit, Ptr;
  }

  lemma PointerReads(o: Chip, k: nat, n: nat, next: nat, c: Chip, bytes: seq<byte>, rp: nat, taken: nat)
    requires Reading(o, k, n, next, c, bytes, rp, taken) && k in {5, 6} && rp < SIZE
    ensures var d := Banked(c, ReceiveStep(k, rp, n, next));
      Reading(o, k + 1, n, next, d.chip, bytes + d.seen, rp, taken)
  {
    var a := ReceiveStep(k, rp, n, next);
    assert Wf(c) && Operating(c) && a.Apply?;
    assert Banked(c, a).seen == [];
    PointerKeeps(c, a.addr, a.v);
    var d := Banked(c, a).chip;
    HeldSame(c, d, rp, taken);
    PtrSplit(rp);
    hide Held, Operating, Command, FreeLow, Encode, PacketSize, Bit, Ptr, RingWf, Banked;
    assert bytes + [] == bytes;
    if k == 6 { assert PtrAt(d, ERDPTL) == Ptr(rp % 0x100, rp / 0x100) == At(rp, 0); }
  }

  lemma ByteKept(c: Chip, rp: nat, taken: nat)
    requires Held(c, rp, taken)
    ensures var d := BufRead(c);
      Held(d, rp, taken) && d.ring == c.ring && d.latch == c.latch && Bank(d) == Bank(c)
  {
    assert Wf(c) && Operating(c);
    BufReadIs(c);
    BufReadKeeps(c, rp, taken);
    HeldSame(c, BufRead(c), rp, taken);
    hide Held, Operating, BufRead, Bit, Ptr, RingWf, PtrAt;
  }

  lemma ByteReads(o: Chip, k: nat, n: nat, next: nat, c: Chip, bytes: seq<byte>, rp: nat, taken: nat)
    requires Reading(o, k, n, next, c, bytes, rp, taken) && 7 <= k < 13 + n && rp < 0x1_0000
    ensures var d := Banked(c, ReceiveStep(k, rp, n, next));
      Reading(o, k + 1, n, next, d.chip, bytes + d.seen, rp, taken)
  {
    assert Wf(c) && Operating(c);
    var b, d := c.ring.mem[PtrAt(c, ERDPTL)], BufRead(c);
    assert Banked(c, ReceiveStep(k, rp, n, next)) == Outcome(d, [b]);
    hide Held, Operating, BufRead, Banked, ReceiveStep, FreeLow, At, Encode, PacketSize, Bit, Ptr, RingWf, ReadOff,
      PtrAt, Shows, Wf, Bank;
    ByteKept(c, rp, taken);
    ReadOffMore(c, rp, taken, k - 7, bytes[1..]);
    TailGrows(bytes, b);
  }

  lemma TailGrows(bytes: seq<byte>, b: byte)
    requires bytes != []
    ensures (bytes + [b])[1..] == bytes[1..] + [b]
  {
  }

  lemma LatchReads(o: Chip, n: nat, next: nat, c: Chip, bytes: seq<byte>, rp: nat, taken: nat)
    requires Reading(o, 15 + n, n, next, c, bytes, rp, taken) && rp < 0x1_0000
    ensures var d := Banked(c, Apply(WCR, 0x0C, FreeLow(next)));
      Reading(o, 16 + n, n, next, d.chip, bytes + d.seen, rp, taken)
  {
    assert Wf(c) && Operating(c);
    LatchStep(c, FreeLow(next));
    HeldSame(c, c.(latch := FreeLow(next)), rp, taken);
    assert bytes + [] == bytes;
    hide Held, Operating, Command, FreeLow, At, Encode, PacketSize, Bit, Ptr, RingWf;
  }

  /** One of the accesses that read, or prepare for it. */
  lemma ReadingStep(o: Chip, k: nat, n: nat, next: nat, c: Chip, bytes: seq<byte>, rp: nat, taken: nat)
    requires Reading(o, k, n, next, c, bytes, rp, taken) && k < 16 + n && rp < SIZE
    requires k == 3 ==> bytes[0] != 0
    ensures var d := Banked(c, ReceiveStep(k, rp, n, next));
      Reading(o, k + 1, n, next, d.chip, bytes + d.seen, rp, taken)
  {
    hide Reading, Banked, FreeLow;
    if k in {0, 1, 3, 4, 13 + n, 14 + n} {
      SelectReads(o, k, n, next, c, bytes, rp, taken);
    } else if k == 2 {
      CountReads(o, n, next, c, bytes, rp, taken);
    } else if k <= 6 {
      PointerReads(o, k, n, next, c, bytes, rp, taken);
    } else if k < 13 + n {
      ByteReads(o, k, n, next, c, bytes, rp, taken);
    } else {
      LatchReads(o, n, next, c, bytes, rp, taken);
    }
  }

  /** ERXRDPTH. */
  lemma FreeGives(o: Chip, n: nat, next: nat, c: Chip, bytes: seq<byte>, rp: nat, taken: nat)
    requires Reading(o, 16 + n, n, next, c, bytes, rp, taken) && rp < SIZE
    requires next == Short(bytes[1], bytes[2])
    ensures var d := Banked(c, ReceiveStep(16 + n, rp, n, next));
      Giving(17 + n, n, next, d.chip, bytes + d.seen, rp, taken)
  {
    assert Wf(c) && Operating(c);
    var p := c.ring.log[taken];
    PacketFits(c, rp, taken);
    HeaderSays(rp, p, bytes[1..]);
    FreeStep(c, FreeHigh(next));
    HeldFree(c, rp, taken);
    assert bytes + [] == bytes;
    hide Held, Operating, Command, FreeLow, FreeHigh, At, Encode, PacketSize, Bit, Ptr, RingWf, Short, Shows;
  }

  lemma PacketFits(c: Chip, rp: nat, taken: nat)
    requires Held(c, rp, taken) && taken < |c.ring.log|
    ensures rp < SIZE && PacketSize(c.ring.log[taken]) < SIZE
  {
    var q := c.ring.log[taken..];
    assert q[0] == c.ring.log[taken];
    hide Configured, Encode;
  }

  /** ECON2.PKTDEC. */
  lemma CountGives(n: nat, next: nat, c: Chip, bytes: seq<byte>, rp: nat, taken: nat)
    requires Giving(17 + n, n, next, c, bytes, rp, taken) && rp < 0x1_0000
    ensures var d := Banked(c, ReceiveStep(17 + n, rp, n, next));
      Giving(18 + n, n, next, d.chip, bytes + d.seen, rp, taken)
  {
    assert Wf(c) && Operating(c);
    CountsOff(c, next, taken + 1);
    HeldCount(c, next, taken + 1);
    HeldSame(c, Command(c, BFS + 0x1E, 0x40), next, taken + 1);
    assert bytes + [] == bytes;
    hide Held, Operating, Command, FreeLow, FreeHigh, At, Encode, PacketSize, Bit, Ptr, RingWf, Shows;
  }

  lemma HeldCount(c: Chip, rp: nat, taken: nat)
    requires Held(c, rp, taken)
    ensures taken <= |c.ring.log|
  {
    hide Configured;
  }

  // ---- the whole run ----

  ghost predicate Receiving(o: Chip, k: nat, n: nat, next: nat, c: Chip, bytes: seq<byte>, rp: nat, taken: nat) {
    if k <= 16 + n then Reading(o, k, n, next, c, bytes, rp, taken) else Giving(k, n, next, c, bytes, rp, taken)
  }

  /** What the driver has seen agrees with what it goes on to do. */
  ghost predicate Consistent(k: nat, n: nat, next: nat, bytes: seq<byte>, seen: seq<byte>) {
    && bytes <= seen
    && (k >= 4 ==> seen != [] && seen[0] != 0)
    && (k >= 17 + n ==> |seen| >= 3 && next == Short(seen[1], seen[2]))
  }

  /** At every moment of a run of PacketReceive, from any bank: until ERXRDPTH is written the old position and the old
      count describe the ring, and from then on the new ones, as long as everything fits whenever ERXRDPT is outside. */
  lemma {:induction false} ReceiveMoments(o: Chip, run: seq<Access>, rp: nat, taken: nat, n: nat, next: nat,
        seen: seq<byte>)
    requires Wf(o) && rp < SIZE && Held(o, rp, taken) && taken + o.ring.cnt == |o.ring.log|
    requires Steps(run) <= WholeReceive(rp, n, next) && Roomy(o, run, taken)
    requires Consistent(|Steps(run)|, n, next, RunBanked(o, run).seen, seen)
    ensures var k, e := |Steps(run)|, RunBanked(o, run);
      && Receiving(o, k, n, next, e.chip, e.seen, rp, taken)
      && (FreedIn(run) <==> k >= 17 + n)
  {
    hide Reading, Giving, Banked, WholeReceive, Held, RoomFor, Consistent, Wf;
    if run == [] {
      ReadingStarts(o, rp, taken, n, next);
    } else {
      var before, a := run[..|run| - 1], run[|run| - 1];
      var k, e := |Steps(before)|, RunBanked(o, before);
      ConsistentBefore(o, run, n, next, seen);
      ReceiveMoments(o, before, rp, taken, n, next, seen);
      if a.Events? {
        EventsMoment(o, k, n, next, e.chip, a.events, e.seen, rp, taken, FreedIn(before));
      } else {
        assert Steps(run)[k] == a;
        StepIs(k, rp, n, next);
        StepMoment(o, k, n, next, e.chip, e.seen, rp, taken, seen);
        FreesOnly(k, rp, n, next);
      }
    }
  }

  lemma ReadingStarts(o: Chip, rp: nat, taken: nat, n: nat, next: nat)
    requires Held(o, rp, taken) && taken + o.ring.cnt == |o.ring.log|
    ensures Reading(o, 0, n, next, o, [], rp, taken)
  {
    assert Wf(o);
    hide Held;
  }

  lemma ConsistentBefore(o: Chip, run: seq<Access>, n: nat, next: nat, seen: seq<byte>)
    requires Wf(o) && run != [] && Consistent(|Steps(run)|, n, next, RunBanked(o, run).seen, seen)
    ensures var before := run[..|run| - 1];
      Consistent(|Steps(before)|, n, next, RunBanked(o, before).seen, seen)
  {
    hide Banked, Short;
  }

  lemma EventsMoment(o: Chip, k: nat, n: nat, next: nat, c: Chip, events: seq<HwEvent>, bytes: seq<byte>, rp: nat,
        taken: nat, freed: bool)
    requires Wf(c) && Receiving(o, k, n, next, c, bytes, rp, taken) && (freed <==> k >= 17 + n)
    requires RoomFor(c, events, if freed then taken + 1 else taken)
    ensures var e := Banked(c, Events(events));
      Receiving(o, k, n, next, e.chip, bytes + e.seen, rp, taken)
  {
    hide Reading, Giving, RoomFor, RunHw;
    assert bytes + [] == bytes;
    if k <= 16 + n {
      ReadingEvents(o, k, n, next, c, events, bytes, rp, taken);
    } else {
      GivingEvents(k, n, next, c, events, bytes, rp, taken);
    }
  }

  lemma StepMoment(o: Chip, k: nat, n: nat, next: nat, c: Chip, bytes: seq<byte>, rp: nat, taken: nat,
        seen: seq<byte>)
    requires Wf(c) && Receiving(o, k, n, next, c, bytes, rp, taken) && k < 18 + n && rp < SIZE
    requires var e := Banked(c, ReceiveStep(k, rp, n, next));
      Consistent(k + 1, n, next, bytes + e.seen, seen)
    ensures var e := Banked(c, ReceiveStep(k, rp, n, next));
      Receiving(o, k + 1, n, next, e.chip, bytes + e.seen, rp, taken)
  {
    ShownSoFar(o, k, n, next, c, bytes, rp, taken);
    assert bytes <= seen && (k == 3 ==> |bytes| == 1) && (k == 16 + n ==> |bytes| == 7 + n);
    hide Reading, Giving, ReceiveStep, Banked, Short, BytesShown, RingWf;
    if k < 16 + n {
      ReadingStep(o, k, n, next, c, bytes, rp, taken);
    } else if k == 16 + n {
      FreeGives(o, n, next, c, bytes, rp, taken);
    } else {
      CountGives(n, next, c, bytes, rp, taken);
    }
  }

  lemma ShownSoFar(o: Chip, k: nat, n: nat, next: nat, c: Chip, bytes: seq<byte>, rp: nat, taken: nat)
    requires Receiving(o, k, n, next, c, bytes, rp, taken)
    ensures |bytes| == if k <= 16 + n then BytesShown(k, n) else 7 + n
  {
    hide Held, FreeLow, FreeHigh, Shows, ReadOff, RingWf;
  }

  lemma FreesOnly(k: nat, rp: nat, n: nat, next: nat)
    requires k < 18 + n && rp < 0x1_0000
    ensures Frees(ReceiveStep(k, rp, n, next)) <==> k == 16 + n
  {
    hide FreeLow, FreeHigh;
  }

  /** With ERXRDPT in the ring, and staying there, there is nothing to ask for. */
  lemma {:induction false} FirmIsRoomy(o: Chip, run: seq<Access>, rp: nat, taken: nat, n: nat, next: nat,
        seen: seq<byte>)
    requires Wf(o) && rp < SIZE && Held(o, rp, taken) && taken + o.ring.cnt == |o.ring.log|
    requires Steps(run) <= WholeReceive(rp, n, next) && o.ring.rdpt <= RXEND && next != RXSTART
    requires Consistent(|Steps(run)|, n, next, RunBanked(o, run).seen, seen)
    ensures Roomy(o, run, taken)
  {
    hide Banked, WholeReceive, Consistent, Wf, Shows, ReadOff;
    if run != [] {
      var before, a := run[..|run| - 1], run[|run| - 1];
      ConsistentBefore(o, run, n, next, seen);
      FirmIsRoomy(o, before, rp, taken, n, next, seen);
      if a.Events? {
        ReceiveMoments(o, before, rp, taken, n, next, seen);
        StillFirm(o, |Steps(before)|, n, next, RunBanked(o, before).chip, RunBanked(o, before).seen, rp, taken);
      }
    }
  }

  lemma StillFirm(o: Chip, k: nat, n: nat, next: nat, c: Chip, bytes: seq<byte>, rp: nat, taken: nat)
    requires Wf(o) && Receiving(o, k, n, next, c, bytes, rp, taken) && o.ring.rdpt <= RXEND && next != RXSTART
    ensures c.ring.rdpt <= RXEND
  {
    hide Shows, ReadOff, Sound, FreeLow, FreeHigh;
  }

  /** The chip after the first k entries of a run. */
  function ChipAt(b: Bus, k: nat): Chip
    requires Wf(b.origin) && k <= |b.run|
  {
    RunBanked(b.origin, b.run[..k]).chip
  }

  /** What the hardware does right after them. */
  function EventsAt(b: Bus, k: nat): seq<HwEvent>
    requires k <= |b.run|
  {
    if k < |b.run| && b.run[k].Events? then b.run[k].events else []
  }

  /** At every moment of the run, also between two events, the ring is held: from the old position with the old count,
      or, once ERXRDPTH has been written, from the new position with one more. If firm, ERXRDPT is in the ring as well,
      and the chip sound. */
  ghost predicate Throughout(b: Bus, rp: nat, taken: nat, next: nat, firm: bool) {
    && Wf(b.origin)
    && forall k :: 0 <= k <= |b.run| ==> HeldFrom(b, k, rp, taken, next, firm)
  }

  ghost predicate HeldFrom(b: Bus, k: nat, rp: nat, taken: nat, next: nat, firm: bool)
    requires Wf(b.origin) && k <= |b.run|
  {
    if FreedIn(b.run[..k]) then HeldAlong(ChipAt(b, k), EventsAt(b, k), next, taken + 1, firm)
    else HeldAlong(ChipAt(b, k), EventsAt(b, k), rp, taken, firm)
  }

  lemma NothingComes(c: Chip, rp: nat, taken: nat)
    requires Held(c, rp, taken)
    ensures RoomFor(c, [], taken)
  {
    hide Held;
    if c.ring.rdpt > RXEND {
      HeldAtStart(c, rp, taken);
      HeldFits(c, taken);
    }
  }

  lemma HoldsFrom(b: Bus, k: nat, rp: nat, taken: nat, freed: nat, firm: bool)
    requires Wf(b.origin) && k <= |b.run| && Roomy(b.origin, b.run, freed)
    requires taken == (if FreedIn(b.run[..k]) then freed + 1 else freed)
    requires Held(ChipAt(b, k), rp, taken) && (firm ==> Sound(ChipAt(b, k), rp, taken))
    ensures HeldAlong(ChipAt(b, k), EventsAt(b, k), rp, taken, firm)
  {
    var c := ChipAt(b, k);
    hide Held, RoomFor, RunBanked, FreedIn, Sound, HeldAlong, RingWf;
    if k < |b.run| && b.run[k].Events? {
      var run := b.run[..k + 1];
      RoomyPrefix(b.origin, b.run, k + 1, freed);
      assert run[..|run| - 1] == b.run[..k] && run[|run| - 1] == b.run[k];
    } else {
      NothingComes(c, rp, taken);
    }
    HeldMeans(c, rp, taken);
    RoomHolds(c, EventsAt(b, k), rp, taken, firm);
  }

  /** The other way round, too: when the ring is held throughout, all has fitted whenever ERXRDPT was outside. */
  lemma {:induction false} HeldIsRoomy(b: Bus, k: nat, rp: nat, taken: nat, next: nat, firm: bool)
    requires Throughout(b, rp, taken, next, firm) && k <= |b.run|
    ensures Roomy(b.origin, b.run[..k], taken)
    decreases k
  {
    hide RoomFor, RunBanked, FreedIn, HeldAlong, RingWf;
    if k > 0 {
      var run, c := b.run[..k], ChipAt(b, k - 1);
      HeldIsRoomy(b, k - 1, rp, taken, next, firm);
      assert run[..|run| - 1] == b.run[..k - 1] && run[|run| - 1] == b.run[k - 1];
      assert HeldFrom(b, k - 1, rp, taken, next, firm);
      if run[k - 1].Events? {
        if FreedIn(b.run[..k - 1]) {
          AlongHasRoom(c, run[k - 1].events, next, taken + 1, firm);
        } else {
          AlongHasRoom(c, run[k - 1].events, rp, taken, firm);
        }
      }
    }
  }

  lemma AlongHasRoom(c: Chip, events: seq<HwEvent>, rp: nat, taken: nat, firm: bool)
    requires Wf(c) && HeldAlong(c, events, rp, taken, firm)
    ensures RoomFor(c, events, taken)
  {
    HoldingNeedsRoom(c, events, rp, taken) by { hide Held, Sound, RunHw, RingWf; }
  }

  lemma ThroughoutIs(b: Bus, rp: nat, taken: nat, n: nat, next: nat, firm: bool)
    requires Wf(b.origin) && rp < SIZE && Held(b.origin, rp, taken)
    requires taken + b.origin.ring.cnt == |b.origin.ring.log|
    requires Steps(b.run) <= WholeReceive(rp, n, next)
    requires Consistent(|Steps(b.run)|, n, next, BytesOf(b), BytesOf(b))
    requires firm ==> b.origin.ring.rdpt <= RXEND && next != RXSTART
    requires Roomy(b.origin, b.run, taken)
    ensures Throughout(b, rp, taken, next, firm)
  {
    var o := b.origin;
    forall k | 0 <= k <= |b.run|
      ensures HeldFrom(b, k, rp, taken, next, firm)
    {
      var run := b.run[..k];
      StepsPrefix(b.run, k);
      BytesPrefix(o, b.run, k);
      RoomyPrefix(o, b.run, k, taken);
      hide RunBanked, Steps, Roomy, WholeReceive, FreedIn, Held, Sound, Wf, Short, HeldAlong;
      ReceiveMoments(o, run, rp, taken, n, next, BytesOf(b));
      MomentHeld(o, |Steps(run)|, n, next, RunBanked(o, run).chip, RunBanked(o, run).seen, rp, taken, firm);
      if FreedIn(run) {
        HoldsFrom(b, k, next, taken + 1, taken, firm);
      } else {
        HoldsFrom(b, k, rp, taken, taken, firm);
      }
    }
  }

  lemma MomentHeld(o: Chip, k: nat, n: nat, next: nat, c: Chip, bytes: seq<byte>, rp: nat, taken: nat, firm: bool)
    requires Wf(o) && Receiving(o, k, n, next, c, bytes, rp, taken)
    requires firm ==> o.ring.rdpt <= RXEND && next != RXSTART
    ensures if k >= 17 + n then Held(c, next, taken + 1) && (firm ==> Sound(c, next, taken + 1))
            else Held(c, rp, taken) && (firm ==> Sound(c, rp, taken))
  {
    if firm { StillFirm(o, k, n, next, c, bytes, rp, taken); }
    hide Held, Sound, Shows, ReadOff, FreeLow, FreeHigh, Ptr, RingWf;
    HeldMeans(c, rp, taken);
    HeldMeans(c, next, taken + 1);
  }

  /** What PacketReceive makes of the oldest packet: its bytes, without the FCS and cut, and the position behind it. */
  ghost predicate Takes(c: Chip, rp: nat, taken: nat, next: nat, maxlen: nat, frame: seq<byte>) {
    && taken < |c.ring.log|
    && var p := c.ring.log[taken];
       && |frame| == Delivered(|p.frame|, maxlen)
       && (|p.frame| >= 4 ==> frame == p.frame[..|frame|])
       && next == At(rp, PacketSize(p))
  }

  /** A run of PacketReceive that takes a packet. */
  lemma ReceiveTakes(b: Bus, d: Chip, rp: nat, taken: nat, maxlen: nat, next: nat, frame: seq<byte>, firm: bool)
    requires OnBus(b, d) && Held(b.origin, rp, taken) && taken + b.origin.ring.cnt == |b.origin.ring.log|
    requires rp < SIZE && Steps(b.run) == ReceiveSteps(rp, maxlen, BytesOf(b))
    requires ReceiveBytes(BytesOf(b), next, maxlen, frame)
    requires firm ==> b.origin.ring.rdpt <= RXEND && next != RXSTART
    requires firm || Roomy(b.origin, b.run, taken)
    ensures Held(d, next, taken + 1) && Takes(d, rp, taken, next, maxlen, frame) && Throughout(b, rp, taken, next, firm)
    ensures Roomy(b.origin, b.run, taken)
  {
    var o, seen, n := b.origin, BytesOf(b), |frame|;
    hide Held, Short, Delivered, WholeReceive, HeaderSteps, ReleaseSteps, CountSteps, Ins, Roomy, Steps, RunBanked,
      Throughout;
    assert Steps(b.run) == WholeReceive(rp, n, next) by { WholeIs(rp, maxlen, seen, n, next); }
    if firm { FirmIsRoomy(o, b.run, rp, taken, n, next, seen); }
    ReceiveMoments(o, b.run, rp, taken, n, next, seen);
    ThroughoutIs(b, rp, taken, n, next, firm);
    var p, bytes := d.ring.log[taken], seen[1..];
    assert Giving(18 + n, n, next, d, seen, rp, taken);
    FrameShown(rp, p, bytes, maxlen, frame) by {
      assert bytes[4] == seen[5] && bytes[5] == seen[6] && bytes[6..] == frame;
      hide Shows, PacketSize, At;
    }
  }

  lemma WholeIs(rp: nat, maxlen: nat, seen: seq<byte>, n: nat, next: nat)
    requires rp < 0x1_0000 && |seen| >= 7
    requires next == Short(seen[1], seen[2]) && n == Delivered(Short(seen[5], seen[6]), maxlen)
    ensures ReceiveSteps(rp, maxlen, seen) == WholeReceive(rp, n, next)
  {
    hide Short, Delivered, HeaderSteps, ReleaseSteps, CountSteps, Ins;
  }

  lemma FrameShown(rp: nat, p: Packet, bytes: seq<byte>, maxlen: nat, frame: seq<byte>)
    requires rp < SIZE && |bytes| == 6 + |frame| && bytes[6..] == frame
    requires |frame| == Delivered(Short(bytes[4], bytes[5]), maxlen)
    requires PacketSize(p) < SIZE && Shows(rp, p, bytes)
    ensures |frame| == Delivered(|p.frame|, maxlen)
    ensures |p.frame| >= 4 ==> |frame| <= |p.frame| && frame == p.frame[..|frame|]
  {
    HeaderSays(rp, p, bytes);
    hide Short, Shows;
    forall i | 0 <= i < |frame| && i < |p.frame|
      ensures frame[i] == p.frame[i]
    {
      assert frame[i] == bytes[6..][i] == bytes[6 + i];
    }
  }

  lemma {:induction false} FreedPrefix(run: seq<Access>, k: nat)
    requires k <= |run| && FreedIn(run[..k])
    ensures FreedIn(run)
    decreases |run|
  {
    if k == |run| {
      assert run[..k] == run;
    } else {
      assert run[..|run| - 1][..k] == run[..k];
      FreedPrefix(run[..|run| - 1], k);
    }
  }

  /** A run of PacketReceive that finds no packet. */
  lemma ReceiveNothing(b: Bus, d: Chip, rp: nat, taken: nat, next: nat, firm: bool)
    requires OnBus(b, d) && Held(b.origin, rp, taken) && taken + b.origin.ring.cnt == |b.origin.ring.log|
    requires rp < SIZE && Steps(b.run) == CountSteps() && BytesOf(b) == [0]
    requires firm ==> b.origin.ring.rdpt <= RXEND
    requires firm || Roomy(b.origin, b.run, taken)
    ensures Held(d, rp, taken) && Throughout(b, rp, taken, next, firm) && Roomy(b.origin, b.run, taken)
  {
    var o := b.origin;
    hide Held, Short, HeaderSteps, ReleaseSteps, Ins, Roomy, Steps, RunBanked, Reading, Sound, HeldAlong;
    if firm { FirmIsRoomy(o, b.run, rp, taken, 0, 1, [0]); }
    ReceiveMoments(o, b.run, rp, taken, 0, 1, [0]);
    ReadingHeld(o, 3, 0, 1, d, [0], rp, taken);
    ThroughoutIs(b, rp, taken, 0, 1, firm);
    forall k | 0 <= k <= |b.run|
      ensures HeldFrom(b, k, rp, taken, next, firm)
    {
      assert HeldFrom(b, k, rp, taken, 1, firm);
      if FreedIn(b.run[..k]) { FreedPrefix(b.run, k); }
    }
  }

  lemma ReadingHeld(o: Chip, k: nat, n: nat, next: nat, c: Chip, bytes: seq<byte>, rp: nat, taken: nat)
    requires Reading(o, k, n, next, c, bytes, rp, taken)
    ensures Held(c, rp, taken)
  {
  }

  // ---- the transmitter while PacketReceive runs ----

  /** d comes after c without the driver having touched the transmitter: at most the frame in the transmit buffer has
      gone out, which ends the transmission. */
  ghost predicate Quiet(c: Chip, d: Chip) {
    && TxQuiet(c, d)
    && (Flag(d, ECON1, TXRTS) ==> Flag(c, ECON1, TXRTS))
    && forall i :: ETXSTL <= i <= ETXNDH ==> d.regs[i] == c.regs[i]
  }

  lemma QuietTrans(o: Chip, c: Chip, d: Chip)
    requires Operating(o) && Operating(c) && Quiet(o, c) && Quiet(c, d)
    ensures Quiet(o, d)
  {
    hide Bit, Ptr;
    assert PtrAt(c, ETXNDL) == PtrAt(o, ETXNDL) && PtrAt(c, ETXSTL) == PtrAt(o, ETXSTL);
    if Flag(c, ECON1, TXRTS) { assert TxFrame(c) == TxFrame(o); }
  }

  /** Accesses that have nothing to do with the transmitter. */
  predicate RxOnly(a: Access) {
    match a
    case Apply(op, addr, v) =>
      || Selects(a)
      || (op == WCR && addr in {0x00, 0x01, 0x0C, 0x0D})
      || a == Apply(BFS, 0x1E, 0x40)
    case Out(_) => false
    case _ => true
  }

  lemma EventsQuiet(c: Chip, events: seq<HwEvent>)
    requires Operating(c)
    ensures Operating(RunHw(c, events)) && Quiet(c, RunHw(c, events))
  {
    EventsKeep(c, events);
    EventsTx(c, events);
    hide RunHw, TxQuiet, Operating, RingWf, Bit;
  }

  lemma EventsTx(c: Chip, events: seq<HwEvent>)
    requires Operating(c)
    ensures Operating(RunHw(c, events)) && TxQuiet(c, RunHw(c, events))
  {
    RunIdles(c, events, 0, 0);
    hide RunHw, Operating, Sound, TxQuiet, Dormant, Evolved;
  }

  lemma WriteQuiet(c: Chip, addr: Address, v: byte)
    requires Operating(c) && addr in {0x00, 0x01, 0x0C, 0x0D}
    ensures var d := Command(c, WCR + addr, v);
      Operating(d) && Quiet(c, d)
  {
    hide Bit, Ptr, TxFrame;
  }

  lemma AccessQuiet(c: Chip, a: Access)
    requires Operating(c) && RxOnly(a) && (Selects(a) && a.op == BFS ==> Bank(c) == 0)
    ensures var d := Banked(c, a).chip;
      Operating(d) && Quiet(c, d)
  {
    var d := Banked(c, a).chip;
    match a
    case Apply(op, addr, v) =>
      if Selects(a) {
        SelectKeeps(c, a);
        SelectQuiet(c, d);
      } else if op == WCR {
        WriteQuiet(c, addr, v);
      } else {
        CountsOff(c, 0, 0);
        hide Operating, Sound, Command, TxFrame;
      }
    case In =>
      BufReadIs(c);
      BufReadKeeps(c, 0, 0);
      hide Operating, Sound, BufRead, TxFrame;
    case Events(events) =>
      EventsQuiet(c, events);
    case _ =>
  }

  lemma SelectQuiet(c: Chip, d: Chip)
    requires Operating(c) && Operating(d) && d.ring == c.ring && d.sent == c.sent
    requires Flag(d, ECON1, TXRTS) == Flag(c, ECON1, TXRTS)
    requires forall i :: 0 <= i < 128 && i != ECON1 ==> d.regs[i] == c.regs[i]
    ensures Quiet(c, d)
  {
    assert Wf(c) && Wf(d);
    hide Operating, TxFrame, Bit;
  }

  lemma {:induction false} RunQuiet(o: Chip, run: seq<Access>)
    requires Operating(o) && ProperRun(run) && forall a <- run :: RxOnly(a)
    ensures Operating(RunBanked(o, run).chip) && Quiet(o, RunBanked(o, run).chip)
  {
    assert SameButBank(o, o) by { assert o.regs[ECON1 := o.regs[ECON1]] == o.regs; }
    hide Operating, Quiet, Banked, RxOnly, SameButBank;
    if run == [] {
      QuietSelf(o);
    } else {
      var before, a := run[..|run| - 1], run[|run| - 1];
      assert forall x <- before :: x in run;
      assert a in run;
      RunQuiet(o, before);
      BanksAreFlat(o, o, before);
      AccessQuiet(RunBanked(o, before).chip, a);
      QuietTrans(o, RunBanked(o, before).chip, RunBanked(o, run).chip);
    }
  }

  lemma QuietSelf(c: Chip)
    requires Operating(c)
    ensures Quiet(c, c)
  {
  }

  lemma {:induction false} StepsContain(run: seq<Access>, a: Access)
    requires a in run
    ensures a.Events? || a in Steps(run)
  {
    var before, last := run[..|run| - 1], run[|run| - 1];
    if a in before {
      StepsContain(before, a);
    } else {
      assert a == last;
    }
  }

  lemma ReceiveIsRxOnly(run: seq<Access>, rp: nat, n: nat, next: nat)
    requires rp < 0x1_0000 && Steps(run) <= WholeReceive(rp, n, next)
    ensures forall a <- run :: RxOnly(a)
  {
    hide Steps, WholeReceive, RxOnly;
    forall a | a in run
      ensures RxOnly(a)
    {
      StepsContain(run, a);
      if a.Events? {
        EventsRxOnly(a);
      } else {
        var k :| 0 <= k < |Steps(run)| && Steps(run)[k] == a;
        assert WholeReceive(rp, n, next)[k] == a;
        StepIs(k, rp, n, next);
        StepRxOnly(k, rp, n, next);
      }
    }
  }

  lemma EventsRxOnly(a: Access)
    requires a.Events?
    ensures RxOnly(a)
  {
  }

  lemma StepRxOnly(k: nat, rp: nat, n: nat, next: nat)
    requires rp < 0x1_0000 && k < 18 + n
    ensures RxOnly(ReceiveStep(k, rp, n, next))
  {
    hide FreeLow, FreeHigh;
  }

  /** PacketReceive leaves the transmitter alone. */
  lemma ReceiveQuiet(b: Bus, d: Chip, rp: nat, maxlen: nat)
    requires OnBus(b, d) && Operating(b.origin) && rp < 0x1_0000
    requires Steps(b.run) == ReceiveSteps(rp, maxlen, BytesOf(b))
    ensures Quiet(b.origin, d)
  {
    hide Operating, Quiet, Steps, RunBanked, ProperRun, Short, Delivered, RxOnly;
    var seen := BytesOf(b);
    if |seen| < 7 {
      assert CountSteps() <= WholeReceive(rp, 0, 0);
      ReceiveIsRxOnly(b.run, rp, 0, 0);
    } else {
      var n, next := Delivered(Short(seen[5], seen[6]), maxlen), Short(seen[1], seen[2]);
      WholeIs(rp, maxlen, seen, n, next);
      ReceiveIsRxOnly(b.run, rp, n, next);
    }
    RunQuiet(b.origin, b.run);
  }

  // ---- SendPacket ----

  function SendStep(k: nat, frame: seq<byte>): Access {
    var n := |frame|;
    var end := (TXSTART + n) % 0x1_0000;
    if k == 0 then Apply(BFC, 0x1F, 0x08)
    else if k == 1 || k == 11 + n then Apply(BFC, 0x1F, 0x03)
    else if k == 2 || k == 12 + n then Apply(BFS, 0x1F, 0)
    else if k == 3 then Apply(WCR, 0x04, TXSTART % 0x100)
    else if k == 4 then Apply(WCR, 0x05, TXSTART / 0x100)
    else if k == 5 then Apply(WCR, 0x02, TXSTART % 0x100)
    else if k == 6 then Apply(WCR, 0x03, TXSTART / 0x100)
    else if k == 7 then Out(0)
    else if k < 8 + n then Out(frame[k - 8])
    else if k == 8 + n then Apply(WCR, 0x06, end % 0x100)
    else if k == 9 + n then Apply(WCR, 0x07, end / 0x100)
    else if k == 10 + n then Apply(BFS, 0x1F, 0x08)
    else Query(0x1F)
  }

  lemma SendStepIs(k: nat, frame: seq<byte>, polls: nat)
    requires k < |SendSteps(frame, polls)|
    ensures |SendSteps(frame, polls)| == 13 + |frame| + polls
    ensures SendSteps(frame, polls)[k] == SendStep(k, frame)
  {
    var n := |frame|;
    var end := (TXSTART + n) % 0x1_0000;
    var head := [Apply(BFC, 0x1F, 0x08)] + SelectSteps(0) + PtrSteps(0x04, TXSTART) + PtrSteps(0x02, TXSTART);
    var load := head + Outs([0] + frame);
    var start := StartSteps(polls);
    assert |head| == 7 && LoadSteps(frame) == load + PtrSteps(0x06, end);
    hide SelectSteps, PtrSteps;
    if k < 7 {
      assert SendSteps(frame, polls)[k] == head[k];
    } else if k < 8 + n {
      assert SendSteps(frame, polls)[k] == load[k] == Outs([0] + frame)[k - 7];
    } else if k < 10 + n {
      assert SendSteps(frame, polls)[k] == PtrSteps(0x06, end)[k - 8 - n];
    } else {
      assert SendSteps(frame, polls)[k] == start[k - 10 - n];
    }
  }

  /** The registers of the transmitter after k accesses, on any chip. */
  ghost predicate Sending(k: nat, n: nat, c: Chip) {
    && Wf(c) && n <= MAXTX
    && (k >= 2 ==> Bank(c) == 0)
    && (1 <= k <= 10 + n ==> !Flag(c, ECON1, TXRTS))
    && (k == 4 ==> c.regs[ETXSTL] == TXSTART % 0x100)
    && (k >= 5 ==> PtrAt(c, ETXSTL) == TXSTART)
    && (k == 6 ==> c.regs[EWRPTL] == TXSTART % 0x100)
    && (7 <= k <= 8 + n ==> TXSTART <= PtrAt(c, EWRPTL) <= TXSTART + k - 7)
    && (k == 9 + n ==> c.regs[ETXNDL] == (TXSTART + n) % 0x100)
    && (k >= 10 + n ==> PtrAt(c, ETXNDL) == TXSTART + n)
  }

  lemma SendingEvents(k: nat, n: nat, c: Chip, events: seq<HwEvent>)
    requires Sending(k, n, c)
    ensures Sending(k, n, RunHw(c, events))
  {
    EventsKeep(c, events);
    hide RunHw, Bit, Ptr, RingWf;
  }

  lemma TxrtsOff(c: Chip)
    requires Wf(c)
    ensures var d := Command(c, BFC + 0x1F, 0x08);
      && d == c.(regs := d.regs) && Bank(d) == Bank(c) && !Flag(d, ECON1, TXRTS)
      && (forall i :: 0 <= i < 128 && i != ECON1 ==> d.regs[i] == c.regs[i])
      && (Operating(c) ==> Operating(d))
  {
    assert Pow2(TXRTS) == 0x08;
    TxrtsCleared(c.regs[ECON1]);
    hide AndNotByte, Bit, Ptr;
  }

  lemma TxrtsOn(c: Chip)
    requires Wf(c)
    ensures var d := Command(c, BFS + 0x1F, 0x08);
      && d == c.(regs := d.regs) && Bank(d) == Bank(c)
      && (forall i :: 0 <= i < 128 && i != ECON1 ==> d.regs[i] == c.regs[i])
      && (Operating(c) && PtrAt(c, ETXSTL) == TXSTART <= PtrAt(c, ETXNDL) <= SRAM - 8 ==> Operating(d))
  {
    var v := c.regs[ECON1];
    var w := OrByte(v, 0x08);
    assert Pow2(TXRTS) == 0x08;
    forall b: nat
      ensures Bit(w, b) == (Bit(v, b) || b == TXRTS)
    {
      OrBit(v, 0x08, b);
      BitOfPow2(TXRTS, b);
    }
    LowBits(v);
    LowBits(w);
    hide OrByte, Bit, Ptr;
  }

  lemma TxPointer(c: Chip, addr: Address, v: byte)
    requires Wf(c) && Bank(c) == 0 && addr in {0x02, 0x03, 0x04, 0x05, 0x06, 0x07}
    ensures var d := Command(c, WCR + addr, v);
      && d == c.(regs := c.regs[addr := v]) && Bank(d) == Bank(c)
      && (Operating(c) && !Flag(c, ECON1, TXRTS) ==> Operating(d))
  {
    hide Bit, Ptr;
  }

  lemma OutMoves(k: nat, n: nat, c: Chip, b: byte)
    requires Sending(k, n, c) && 7 <= k < 8 + n
    ensures Sending(k + 1, n, BufWrite(c, b))
  {
    var d, p := BufWrite(c, b), PtrAt(c, EWRPTL);
    BufWriteIs(c, b);
    if !Flag(c, ECON2, AUTOINC) { BufWriteStill(c, b); }
    hide BufWrite, Bit, Ptr;
    assert p + 1 < SRAM;
    assert PtrAt(d, EWRPTL) == p || PtrAt(d, EWRPTL) == p + 1;
  }

  lemma OutOperates(c: Chip, b: byte)
    requires Operating(c)
    ensures Operating(BufWrite(c, b))
  {
    BufWriteIs(c, b);
    hide BufWrite, Bit, Ptr;
  }

  lemma BufWriteStill(c: Chip, b: byte)
    requires Wf(c) && !Flag(c, ECON2, AUTOINC)
    ensures BufWrite(c, b).regs == c.regs
  {
  }

  lemma TxPointers(k: nat, frame: seq<byte>, c: Chip)
    requires Sending(k, |frame|, c) && (3 <= k <= 6 || k == 8 + |frame| || k == 9 + |frame|)
    ensures var d := Banked(c, SendStep(k, frame)).chip;
      Sending(k + 1, |frame|, d) && d.ring == c.ring && (Operating(c) ==> Operating(d))
  {
    var a := SendStep(k, frame);
    var d := Banked(c, a).chip;
    assert a.Apply? && d == Command(c, WCR + a.addr, a.v);
    TxPointer(c, a.addr, a.v);
    PtrSplit(TXSTART);
    PtrSplit(TXSTART + |frame|);
    assert (TXSTART + |frame|) % 0x1_0000 == TXSTART + |frame|;
    hide Operating, Command, Bit, Ptr, Banked;
  }

  lemma TxCommands(k: nat, frame: seq<byte>, c: Chip)
    requires Sending(k, |frame|, c) && k in {0, 10 + |frame|}
    ensures var d := Banked(c, SendStep(k, frame)).chip;
      Sending(k + 1, |frame|, d) && d.ring == c.ring && (Operating(c) ==> Operating(d))
  {
    if k == 0 { TxrtsOff(c); } else { TxrtsOn(c); }
    hide Operating, Command, Bit, Ptr;
  }

  lemma TxSelects(k: nat, frame: seq<byte>, c: Chip)
    requires Sending(k, |frame|, c) && k in {1, 2, 11 + |frame|, 12 + |frame|}
    ensures var d := Banked(c, SendStep(k, frame)).chip;
      Sending(k + 1, |frame|, d) && d.ring == c.ring && (Operating(c) ==> Operating(d))
  {
    var a := SendStep(k, frame);
    var d := Banked(c, a).chip;
    if a.op == BFC { BankCleared(c); } else { BankSet(c, 0); }
    BankIdle(c, d, 0, 0);
    FlagAbove(d, c, TXRTS);
    hide Operating, Sound, Command, Bit, Ptr;
  }

  /** One access of SendPacket, on any chip. */
  lemma SendingStep(k: nat, frame: seq<byte>, c: Chip)
    requires Sending(k, |frame|, c)
    ensures var d := Banked(c, SendStep(k, frame)).chip;
      && Sending(k + 1, |frame|, d) && (Operating(c) ==> Operating(d))
      && (!SendStep(k, frame).Out? ==> d.ring == c.ring)
  {
    var n := |frame|;
    hide Sending, Operating, Command, BufWrite;
    if k in {0, 10 + n} {
      TxCommands(k, frame, c);
    } else if k in {1, 2, 11 + n, 12 + n} {
      TxSelects(k, frame, c);
    } else if k <= 6 || k == 8 + n || k == 9 + n {
      TxPointers(k, frame, c);
    } else if k < 8 + n {
      var b := if k == 7 then 0 else frame[k - 8];
      OutMoves(k, n, c, b);
      if Operating(c) { OutOperates(c, b); }
    } else {
      PollStays(k, n, c);
    }
  }

  lemma PollStays(k: nat, n: nat, c: Chip)
    requires Sending(k, n, c) && k >= 13 + n
    ensures Sending(k + 1, n, c)
  {
    hide Bit, Ptr, RingWf;
  }

  /** At every moment of a run of SendPacket, from any bank and on any chip. */
  lemma {:induction false} SendMoments(o: Chip, run: seq<Access>, frame: seq<byte>, polls: nat)
    requires Wf(o) && |frame| <= MAXTX && Steps(run) <= SendSteps(frame, polls)
    ensures Sending(|Steps(run)|, |frame|, RunBanked(o, run).chip)
    ensures Operating(o) ==> Operating(RunBanked(o, run).chip)
  {
    hide Sending, Operating, Banked, SendSteps, SendStep, RingWf;
    if run == [] {
      SendingStarts(o, |frame|);
    } else {
      var before, a := run[..|run| - 1], run[|run| - 1];
      var k, c := |Steps(before)|, RunBanked(o, before).chip;
      SendMoments(o, before, frame, polls);
      if a.Events? {
        SendingEvents(k, |frame|, c, a.events);
        EventsOperate(c, a.events);
      } else {
        assert Steps(run)[k] == a;
        SendStepIs(k, frame, polls);
        SendingStep(k, frame, c);
      }
    }
  }

  lemma SendingStarts(o: Chip, n: nat)
    requires Wf(o) && n <= MAXTX
    ensures Sending(0, n, o)
  {
  }

  lemma EventsOperate(c: Chip, events: seq<HwEvent>)
    requires Wf(c)
    ensures Banked(c, Events(events)).chip == RunHw(c, events)
    ensures Operating(c) ==> Operating(RunHw(c, events))
  {
    RunIdles(c, events, 0, 0);
    hide Operating, RunHw, Evolved, TxQuiet, Sound, Dormant;
  }

  lemma SendNeverFrees(k: nat, frame: seq<byte>)
    ensures !Frees(SendStep(k, frame))
  {
  }

  lemma SendHeldStep(k: nat, frame: seq<byte>, c: Chip, rp: nat, taken: nat)
    requires Sending(k, |frame|, c) && Held(c, rp, taken)
    ensures var d := Banked(c, SendStep(k, frame)).chip;
      Held(d, rp, taken) && d.ring.rdpt == c.ring.rdpt
  {
    var a := SendStep(k, frame);
    var d := Banked(c, a).chip;
    assert Wf(c) && Operating(c);
    SendingStep(k, frame, c);
    if a.Out? {
      BufWriteIs(c, a.b);
      HeldAbove(c, d, rp, taken);
    } else {
      hide SendStep, Held, Operating, Banked;
      HeldSame(c, d, rp, taken);
    }
  }

  /** At every moment of a run of SendPacket the ring is held, as long as everything fits whenever ERXRDPT is
      outside. */
  lemma {:induction false} SendHolds(o: Chip, run: seq<Access>, frame: seq<byte>, polls: nat, rp: nat, taken: nat)
    requires Held(o, rp, taken) && |frame| <= MAXTX && Steps(run) <= SendSteps(frame, polls)
    requires o.ring.rdpt <= RXEND || Roomy(o, run, taken)
    ensures !FreedIn(run) && Roomy(o, run, taken)
    ensures var c := RunBanked(o, run).chip;
      Held(c, rp, taken) && c.ring.rdpt == o.ring.rdpt
  {
    assert Wf(o);
    hide Held, Banked, SendSteps, SendStep, RingWf, FitsThroughout;
    if run != [] {
      var before, a := run[..|run| - 1], run[|run| - 1];
      var k, c := |Steps(before)|, RunBanked(o, before).chip;
      SendHolds(o, before, frame, polls, rp, taken);
      if a.Events? {
        HeldRun(c, a.events, rp, taken);
        EventsOperate(c, a.events);
      } else {
        assert Steps(run)[k] == a;
        SendStepIs(k, frame, polls);
        SendMoments(o, before, frame, polls);
        SendHeldStep(k, frame, c, rp, taken);
        SendNeverFrees(k, frame);
      }
    }
  }

  /** The driver writes to the buffer memory only above the ring. */
  ghost predicate WritesAbove(b: Bus) {
    && Wf(b.origin)
    && forall k :: 0 <= k < |b.run| && b.run[k].Out? ==> PtrAt(ChipAt(b, k), EWRPTL) >= TXSTART
  }

  /** On any chip at all, whatever the state of the ring, SendPacket writes nothing below TXSTART. */
  lemma SendWritesAbove(b: Bus, frame: seq<byte>, polls: nat)
    requires Wf(b.origin) && |frame| <= MAXTX && Steps(b.run) == SendSteps(frame, polls)
    ensures WritesAbove(b)
  {
    hide SendSteps, RunBanked, RingWf;
    forall k | 0 <= k < |b.run| && b.run[k].Out?
      ensures PtrAt(ChipAt(b, k), EWRPTL) >= TXSTART
    {
      var run, j := b.run[..k], |Steps(b.run[..k])|;
      StepsPrefix(b.run, k);
      StepsPrefix(b.run, k + 1);
      assert b.run[..k + 1][..k] == run;
      assert Steps(b.run[..k + 1]) == Steps(run) + [b.run[k]];
      assert SendSteps(frame, polls)[j] == b.run[k];
      SendStepIs(j, frame, polls);
      SendMoments(b.origin, run, frame, polls);
    }
  }

  /** A run of SendPacket. */
  lemma SendThroughout(b: Bus, d: Chip, frame: seq<byte>, polls: nat, rp: nat, taken: nat, firm: bool)
    requires OnBus(b, d) && Held(b.origin, rp, taken) && |frame| <= MAXTX && Steps(b.run) == SendSteps(frame, polls)
    requires firm ==> b.origin.ring.rdpt <= RXEND
    requires firm || Roomy(b.origin, b.run, taken)
    ensures Held(d, rp, taken) && Throughout(b, rp, taken, rp, firm) && Roomy(b.origin, b.run, taken)
  {
    var o := b.origin;
    SendHolds(o, b.run, frame, polls, rp, taken);
    forall k | 0 <= k <= |b.run|
      ensures HeldFrom(b, k, rp, taken, rp, firm)
    {
      StepsPrefix(b.run, k);
      RoomyPrefix(o, b.run, k, taken);
      hide RunBanked, Steps, Roomy, SendSteps, FreedIn, Held, Sound, RingWf, HeldAlong;
      SendHolds(o, b.run[..k], frame, polls, rp, taken);
      HeldMeans(ChipAt(b, k), rp, taken);
      HoldsFrom(b, k, rp, taken, taken, firm);
    }
  }

  lemma {:induction false} FreedSteps(run: seq<Access>)
    ensures FreedIn(run) <==> exists a :: a in Steps(run) && Frees(a)
  {
    hide Frees;
    if run != [] {
      var before, a := run[..|run| - 1], run[|run| - 1];
      FreedSteps(before);
      EventsFreeNothing(a);
      assert Steps(run) == Steps(before) + if a.Events? then [] else [a];
      assert forall x :: x in Steps(run) <==> x in Steps(before) || (x == a && !a.Events?);
    }
  }

  lemma EventsFreeNothing(a: Access)
    ensures a.Events? ==> !Frees(a)
  {
  }

  lemma SendFreesNothing(run: seq<Access>, frame: seq<byte>, polls: nat)
    requires Steps(run) == SendSteps(frame, polls)
    ensures !FreedIn(run)
  {
    hide SendSteps, SendStep, Frees, Steps;
    FreedSteps(run);
    forall a | a in Steps(run)
      ensures !Frees(a)
    {
      var k :| 0 <= k < |Steps(run)| && Steps(run)[k] == a;
      SendStepIs(k, frame, polls);
      SendNeverFrees(k, frame);
    }
  }

  /** PacketReceive frees a packet just when it takes one. */
  lemma ReceiveFrees(run: seq<Access>, rp: nat, maxlen: nat, seen: seq<byte>)
    requires rp < 0x1_0000 && Steps(run) == ReceiveSteps(rp, maxlen, seen)
    ensures FreedIn(run) <==> |seen| >= 7
  {
    FreedSteps(run);
    if |seen| >= 7 {
      hide WholeReceive, Short, Delivered, Steps, ReceiveSteps, FreeLow, FreeHigh;
      var n, next := Delivered(Short(seen[5], seen[6]), maxlen), Short(seen[1], seen[2]);
      WholeIs(rp, maxlen, seen, n, next);
      StepIs(16 + n, rp, n, next);
      FreesOnly(16 + n, rp, n, next);
      assert Steps(run)[16 + n] in Steps(run) && Frees(Steps(run)[16 + n]);
    } else {
      hide Steps;
      assert Steps(run) == CountSteps();
    }
  }

  // ---- for the driver ----

  lemma HeldAt(c: Chip, rp: nat, taken: nat)
    requires Held(c, rp, taken)
    ensures rp < SIZE && Operating(c)
  {
    hide Configured;
  }

  /** How it stands with the ring when a call starts on a ring that is held: it is held throughout if and only if
      everything fits; which is so, and the chip sound throughout, if ERXRDPT is and stays inside. */
  ghost predicate HeldByRoom(b: Bus, rp: nat, taken: nat, next: nat, firm: bool) {
    && Wf(b.origin)
    && (Roomy(b.origin, b.run, taken) <==> Throughout(b, rp, taken, next, false))
    && (firm ==> Roomy(b.origin, b.run, taken) && Throughout(b, rp, taken, next, true))
  }

  lemma RoomExactly(b: Bus, rp: nat, taken: nat, next: nat, firm: bool)
    requires Wf(b.origin)
    requires Roomy(b.origin, b.run, taken) ==> Throughout(b, rp, taken, next, false)
    requires firm ==> Roomy(b.origin, b.run, taken) && Throughout(b, rp, taken, next, true)
    ensures HeldByRoom(b, rp, taken, next, firm)
  {
    hide Roomy, Throughout;
    if Throughout(b, rp, taken, next, false) {
      HeldIsRoomy(b, |b.run|, rp, taken, next, false);
      assert b.run[..|b.run|] == b.run;
    }
  }

  lemma NothingKept(b: Bus, d: Chip, rp: nat, taken: nat, maxlen: nat)
    requires ActsFlat(b, d) && rp < 0x1_0000 && BytesOf(b) == [0]
    requires Steps(b.run) == CountSteps() == ReceiveSteps(rp, maxlen, BytesOf(b))
    requires taken + b.origin.ring.cnt == |b.origin.ring.log|
    ensures !FreedIn(b.run)
    ensures Operating(b.origin) ==> Quiet(b.origin, d)
    ensures Held(b.origin, rp, taken) ==>
              && HeldByRoom(b, rp, taken, rp, b.origin.ring.rdpt <= RXEND)
              && (Roomy(b.origin, b.run, taken) ==> Held(d, rp, taken))
  {
    var firm := b.origin.ring.rdpt <= RXEND;
    assert OnBus(b, d);
    hide Held, Operating, Roomy, Throughout, Quiet, ActsFlat, OnBus, BytesOf, CountSteps, ReceiveSteps, Steps, FreedIn,
      HeldByRoom;
    ReceiveFrees(b.run, rp, maxlen, BytesOf(b));
    if Operating(b.origin) { ReceiveQuiet(b, d, rp, maxlen); }
    if Held(b.origin, rp, taken) {
      HeldAt(b.origin, rp, taken);
      if firm { ReceiveNothing(b, d, rp, taken, rp, true); }
      if Roomy(b.origin, b.run, taken) { ReceiveNothing(b, d, rp, taken, rp, false); }
      RoomExactly(b, rp, taken, rp, firm);
    }
  }

  lemma TakenKept(b: Bus, d: Chip, rp: nat, taken: nat, maxlen: nat, next: nat, frame: seq<byte>)
    requires ActsFlat(b, d) && rp < 0x1_0000 && Steps(b.run) == ReceiveSteps(rp, maxlen, BytesOf(b))
    requires ReceiveBytes(BytesOf(b), next, maxlen, frame)
    requires taken + b.origin.ring.cnt == |b.origin.ring.log|
    ensures FreedIn(b.run)
    ensures Operating(b.origin) ==> Quiet(b.origin, d)
    ensures Held(b.origin, rp, taken) ==>
              && HeldByRoom(b, rp, taken, next, b.origin.ring.rdpt <= RXEND && next != RXSTART)
              && (Roomy(b.origin, b.run, taken) ==>
                    Held(d, next, taken + 1) && Takes(d, rp, taken, next, maxlen, frame))
  {
    var firm := b.origin.ring.rdpt <= RXEND && next != RXSTART;
    assert OnBus(b, d) && |BytesOf(b)| >= 7;
    hide Held, Operating, Roomy, Throughout, Quiet, ActsFlat, OnBus, BytesOf, ReceiveSteps, ReceiveBytes, Steps, Takes,
      FreedIn, HeldByRoom;
    ReceiveFrees(b.run, rp, maxlen, BytesOf(b));
    if Operating(b.origin) { ReceiveQuiet(b, d, rp, maxlen); }
    if Held(b.origin, rp, taken) {
      HeldAt(b.origin, rp, taken);
      if firm { ReceiveTakes(b, d, rp, taken, maxlen, next, frame, true); }
      if Roomy(b.origin, b.run, taken) { ReceiveTakes(b, d, rp, taken, maxlen, next, frame, false); }
      RoomExactly(b, rp, taken, next, firm);
    }
  }

  lemma SentKept(b: Bus, d: Chip, frame: seq<byte>, polls: nat, rp: nat, taken: nat)
    requires ActsFlat(b, d) && |frame| <= MAXTX && Steps(b.run) == SendSteps(frame, polls)
    ensures WritesAbove(b)
    ensures Held(b.origin, rp, taken) ==>
              && HeldByRoom(b, rp, taken, rp, b.origin.ring.rdpt <= RXEND)
              && (Roomy(b.origin, b.run, taken) ==> Held(d, rp, taken))
  {
    var firm := b.origin.ring.rdpt <= RXEND;
    assert OnBus(b, d) && Wf(b.origin);
    hide Held, Roomy, Throughout, ActsFlat, OnBus, SendSteps, Steps, WritesAbove, HeldByRoom;
    SendWritesAbove(b, frame, polls);
    if Held(b.origin, rp, taken) {
      if firm { SendThroughout(b, d, frame, polls, rp, taken, true); }
      if Roomy(b.origin, b.run, taken) { SendThroughout(b, d, frame, polls, rp, taken, false); }
      RoomExactly(b, rp, taken, rp, firm);
    }
  }

  /** All about a run of SendPacket, from its two parts. */
  lemma SendConcludes(c0: Chip, b1: Bus, c1: Chip, b: Bus, d: Chip, frame: seq<byte>, polls: seq<byte>, rp: nat,
        taken: nat)
    requires Wf(c0)
    requires Onward(Bus(c0, []), c0, b1, c1, LoadSteps(frame), [])
    requires Onward(b1, c1, b, d, StartSteps(|polls|), polls)
    ensures b.origin == c0 && ActsFlat(b, d) && BytesOf(b) == polls && Steps(b.run) == SendSteps(frame, |polls|)
    ensures !FreedIn(b.run) && (|frame| <= MAXTX ==> WritesAbove(b))
    ensures |frame| <= MAXTX && Held(c0, rp, taken) ==>
              && HeldByRoom(b, rp, taken, rp, c0.ring.rdpt <= RXEND)
              && (Roomy(c0, b.run, taken) ==> Held(d, rp, taken))
  {
    hide Onward, ActsFlat, BytesOf, Steps, SendSteps, LoadSteps, StartSteps, FreedIn, WritesAbove, Held, Roomy,
      HeldByRoom;
    SentOnBus(c0, b1, c1, b, d, frame, polls);
    SendFreesNothing(b.run, frame, |polls|);
    if |frame| <= MAXTX { SentKept(b, d, frame, |polls|, rp, taken); }
  }
}
