/** What the driver's own accesses do to a sound chip. */
module DriverSteps {
  import opened Bits
  import opened Enc28Chip
  import opened RxRing
  import opened RxHardware
  import opened Enc28Banks

  // ---- reading ----

  lemma PtrSplit(p: nat)
    requires p < SRAM
    ensures Ptr(p % 256, p / 256) == p
  {
  }

  /** One byte read at ERDPT. */
  lemma BufReadIs(c: Chip)
    requires Wf(c)
    ensures var d := BufRead(c);
      && d.ring == c.ring && d.sent == c.sent && d.latch == c.latch
      && (forall i :: 2 <= i < 128 ==> d.regs[i] == c.regs[i])
      && (Flag(c, ECON2, AUTOINC) ==> PtrAt(d, ERDPTL) == Succ(c.ring.st, c.ring.nd, PtrAt(c, ERDPTL)))
  {
    PtrSplit(Succ(c.ring.st, c.ring.nd, PtrAt(c, ERDPTL)));
    hide Ptr, Bit;
  }

  lemma BufReadKeeps(c: Chip, rp: nat, taken: nat)
    requires Wf(c)
    ensures Operating(c) ==> Operating(BufRead(c))
    ensures Sound(c, rp, taken) ==> Sound(BufRead(c), rp, taken)
    ensures Operating(c) && PtrAt(c, ERDPTL) < SIZE ==> PtrAt(BufRead(c), ERDPTL) == At(PtrAt(c, ERDPTL), 1)
  {
    hide RingInv, BufRead, Ptr, Bit;
    BufReadIs(c);
  }

  /** An unread byte is where the layout says, also after more packets have arrived. */
  lemma UnreadByte(c: Chip, rp: nat, taken: nat, q: seq<Packet>, j: nat)
    requires Sound(c, rp, taken) && q <= c.ring.log[taken..] && j < |Image(rp, q)|
    ensures j < SIZE && c.ring.mem[At(rp, j)] == Image(rp, q)[j]
  {
    var image := Image(rp, c.ring.log[taken..]);
    ImagePrefix(rp, q, c.ring.log[taken..]);
    assert c.ring.mem[At(rp, 0 + j)] == image[j];
  }

  /** ERDPT lies j bytes into the unread packets, which begin with q. */
  ghost predicate Aligned(c: Chip, rp: nat, taken: nat, q: seq<Packet>, j: nat) {
    Sound(c, rp, taken) && q <= c.ring.log[taken..] && PtrAt(c, ERDPTL) == At(rp, j)
  }

  lemma AlignedLater(c: Chip, d: Chip, rp: nat, taken: nat, q: seq<Packet>, j: nat)
    requires Idled(c, d, rp, taken) && Aligned(c, rp, taken, q, j)
    ensures Aligned(d, rp, taken, q, j)
  {
    assert c.ring.log[taken..] <= d.ring.log[taken..];
  }

  lemma ReadStep(c: Chip, rp: nat, taken: nat, q: seq<Packet>, j: nat)
    requires Aligned(c, rp, taken, q, j) && j < |Image(rp, q)|
    ensures c.ring.mem[PtrAt(c, ERDPTL)] == Image(rp, q)[j] && Aligned(BufRead(c), rp, taken, q, j + 1)
  {
    UnreadByte(c, rp, taken, q, j);
    BufReadKeeps(c, rp, taken);
  }

  // ---- what the header says ----

  /** The header decodes to the position behind the packet and the length of its frame. */
  lemma HeaderDecodes(rp: nat, p: Packet)
    requires rp < SIZE && PacketSize(p) <= SIZE
    ensures var h := HeaderOf(rp, p);
      && Short(h[0], h[1]) == At(rp, PacketSize(p))
      && Short(h[4], h[5]) == |p.frame|
  {
    hide Short;
    var next := At(rp, PacketSize(p));
    ShortSplit(next);
    ShortSplit(|p.frame|);
  }

  /** The oldest packet comes first: its header, and then any number of bytes of its frame. */
  lemma ImageBegins(rp: nat, q: seq<Packet>, n: nat)
    requires q != [] && n <= |q[0].frame|
    ensures var image, p := Image(rp, q), q[0];
      && 6 + n <= PacketSize(p) <= |image|
      && image[..6] == HeaderOf(rp, p)
      && image[6..6 + n] == p.frame[..n]
  {
    var image, p := Image(rp, q), q[0];
    assert image[6..6 + n] == image[6..6 + |p.frame|][..n];
    assert image[6..6 + |p.frame|] == p.frame;
  }

  /** Bytes of a frame that are handed on: all but the FCS, as many as fit. The subtraction wraps in 16 bits. */
  function Delivered(frameLen: nat, maxlen: nat): nat {
    var n := (frameLen + 0xFFFC) % 0x1_0000;
    if n > maxlen then maxlen else n
  }

  // ---- freeing the space of a packet ----

  /** The driver moves its read position behind the oldest packet. */
  lemma TakeKeeps(c: Chip, rp: nat, taken: nat)
    requires Sound(c, rp, taken) && taken < |c.ring.log|
    ensures Sound(c, At(rp, PacketSize(c.ring.log[taken])), taken + 1)
  {
    var r, q := c.ring, c.ring.log[taken..];
    assert r.log[taken + 1..] == q[1..];
    DropKeeps(r, rp, q[0], Image(At(rp, PacketSize(q[0])), q[1..]));
  }

  /** The bytes of a packet at the read position are given up. */
  lemma DropKeeps(r: Ring, rp: nat, p: Packet, rest: seq<byte>)
    requires Ready(r, rp, Encode(rp, p) + rest)
    ensures Ready(r, At(rp, PacketSize(p)), rest)
  {
    hide Encode;
    HoldsConcat(r.mem, rp, 0, Encode(rp, p), rest);
    HoldsShift(r.mem, rp, PacketSize(p), 0, rest);
    if r.rx.Busy? { HoldsShift(r.mem, rp, PacketSize(p), |rest| + 6, r.rx.frame); }
  }

  /** The same bytes, counted from a later position. */
  lemma HoldsShift(mem: seq<byte>, rp: nat, size: nat, k: nat, bytes: seq<byte>)
    requires |mem| == SRAM && rp < SIZE && Holds(mem, rp, size + k, bytes)
    requires size < SIZE
    ensures Holds(mem, At(rp, size), k, bytes)
  {
    forall j | 0 <= j < |bytes|
      ensures mem[At(At(rp, size), k + j)] == bytes[j]
    {
      assert mem[At(rp, size + k + j)] == bytes[j];
    }
  }

  /** ERXRDPT set right behind the read position frees everything that is not unread. */
  lemma FreeKeeps(c: Chip, rp: nat, taken: nat)
    requires Sound(c, rp, taken) && rp != RXSTART
    ensures Sound(c.(ring := c.ring.(rdpt := rp - 1)), rp, taken)
  {
  }

  /** What the driver writes to free the space before `next`: the low and high byte of next - 1 in 16 bits. */
  function FreeLow(next: nat): byte {
    (next + 0xFFFF) % 0x1_0000 % 256
  }

  function FreeHigh(next: nat): byte {
    (next + 0xFFFF) % 0x1_0000 / 256
  }

  /** The value ERXRDPT gets lies in the ring, right before the read position, exactly when the next packet does not
      start at the start of the ring. */
  lemma FreePointer(next: nat)
    requires next < SIZE
    ensures var free := Ptr(FreeLow(next), FreeHigh(next));
      && (next != RXSTART <==> free <= RXEND)
      && (next != RXSTART ==> free == next - 1)
      && (next == RXSTART ==> free == SRAM - 1)
  {
  }

  lemma LatchKeeps(c: Chip, rp: nat, taken: nat, v: byte)
    requires Sound(c, rp, taken)
    ensures Sound(WriteCtl(c, ERXRDPTL, v), rp, taken)
  {
  }

  /** A register that only holds a value: one of banks 1 to 3, or of the upper half of bank 0. */
  predicate SetupSlot(slot: nat) {
    0x10 <= slot < 128 && slot != ECON1 && slot != ECON2 && slot != EPKTCNT
  }

  /** Such a register, or a pointer that the transmitter is not using. */
  predicate PlainSlot(c: Chip, slot: nat)
    requires Wf(c)
  {
    slot <= EWRPTH || (slot <= ETXNDH && !Flag(c, ECON1, TXRTS)) || SetupSlot(slot)
  }

  lemma PlainKeeps(c: Chip, rp: nat, taken: nat, slot: nat, v: byte)
    requires Wf(c) && PlainSlot(c, slot)
    ensures WriteCtl(c, slot, v) == c.(regs := c.regs[slot := v])
    ensures Operating(c) ==> Operating(WriteCtl(c, slot, v))
    ensures Sound(c, rp, taken) ==> Sound(WriteCtl(c, slot, v), rp, taken)
    ensures Dormant(c) ==> Dormant(WriteCtl(c, slot, v))
  {
    hide RingInv;
  }

  /** Setting ECON2.PKTDEC counts one packet off and leaves the rest of ECON2. */
  lemma CountsOff(c: Chip, rp: nat, taken: nat)
    requires Wf(c)
    ensures var d := Command(c, BFS + 0x1E, 0x40);
      && d.ring == c.ring.(cnt := if c.ring.cnt > 0 then c.ring.cnt - 1 else 0)
      && (forall i :: 0 <= i < 128 && i != ECON2 ==> d.regs[i] == c.regs[i])
      && (forall b: nat :: b != PKTDEC ==> Flag(d, ECON2, b) == Flag(c, ECON2, b))
      && (Operating(c) ==> Operating(d))
      && (Sound(c, rp, taken) ==> Sound(d, rp, taken))
  {
    var v := OrByte(c.regs[ECON2], 0x40);
    assert Pow2(PKTDEC) == 0x40;
    OrBit(c.regs[ECON2], 0x40, PKTDEC);
    BitOfPow2(PKTDEC, PKTDEC);
    var d := Command(c, BFS + 0x1E, 0x40);
    forall b: nat | b != PKTDEC
      ensures Flag(d, ECON2, b) == Flag(c, ECON2, b)
    {
      OrBit(c.regs[ECON2], 0x40, b);
      AndNotBit(v, 0x40, b);
      BitOfPow2(PKTDEC, b);
    }
  }

  // ---- the sequences of accesses, with the chip running before each of them ----

  /** Nothing has happened in the transmit area and nothing will: no transmission is in progress. */
  ghost predicate TxStill(c: Chip, d: Chip) {
    && Wf(c) && Wf(d) && !Flag(d, ECON1, TXRTS) && d.sent == c.sent
    && (forall a :: SIZE <= a < SRAM ==> d.ring.mem[a] == c.ring.mem[a])
  }

  /** d comes after c with a pair of pointer registers written. */
  ghost predicate Pointed(c: Chip, d: Chip, slot: nat, p: nat)
    requires slot < 127
  {
    && Grown(c, d) && PtrAt(d, slot) == p % SRAM
    && (forall i :: 0 <= i < 128 && i != slot && i != slot + 1 && i != ECON1 && i != MISTAT ==> d.regs[i] == c.regs[i])
    && (Flag(d, ECON1, TXRTS) ==> Flag(c, ECON1, TXRTS))
  }

  /** A pair of pointer registers is written: s0 and s1 are the chip when each write arrives. */
  lemma PtrWritten(c0: Chip, s0: Chip, c1: Chip, s1: Chip, slot: nat, p: nat, rp: nat, taken: nat)
    requires Wf(c0) && p < 0x1_0000 && (slot <= EWRPTL || (slot <= ETXNDL && !Flag(c0, ECON1, TXRTS)))
    requires Idled(c0, s0, rp, taken) && c1 == WriteCtl(s0, slot, p % 0x100) && Idled(c1, s1, rp, taken)
    ensures var c2 := WriteCtl(s1, slot + 1, p / 0x100);
      && Pointed(c0, c2, slot, p)
      && (Operating(c0) ==> Operating(c2))
      && (Sound(c0, rp, taken) ==> Sound(c2, rp, taken))
      && (Operating(c0) && !Flag(c0, ECON1, TXRTS) ==> TxStill(c0, c2))
  {
    hide RingInv, Configured;
    PlainKeeps(s0, rp, taken, slot, p % 0x100);
    PlainKeeps(s1, rp, taken, slot + 1, p / 0x100);
    assert Ptr(p % 0x100, p / 0x100) == p % SRAM;
  }

  ghost predicate Released(c1: Chip, s1: Chip, c2: Chip, s2: Chip, c3: Chip, s3: Chip, rp: nat, taken: nat) {
    && Idled(c1, s1, rp, taken) && Idled(c2, s2, rp, taken) && Idled(c3, s3, rp, taken)
    && c2 == WriteCtl(s1, ERXRDPTL, FreeLow(rp))
    && c3 == WriteCtl(s2, ERXRDPTH, FreeHigh(rp))
  }

  /** The counter after a release, on any chip. */
  lemma ReleaseEffect(c0: Chip, c1: Chip, s1: Chip, c2: Chip, s2: Chip, c3: Chip, s3: Chip, rp: nat, taken: nat)
    requires Idled(c0, c1, rp, taken) && Released(c1, s1, c2, s2, c3, s3, rp, taken) && c0.ring.cnt > 0
    ensures var c4 := Command(s3, BFS + 0x1E, 0x40);
      && Wf(c4) && c0.ring.log <= c4.ring.log
      && (Operating(c0) ==> Operating(c4))
      && c4.ring.rdpt == Ptr(FreeLow(rp), FreeHigh(rp))
      && c4.ring.cnt - c0.ring.cnt == |c4.ring.log| - |c0.ring.log| - 1
      && SameSettings(c4.regs, c0.regs)
  {
    LatchCarried(s1, c2, s2, rp, taken);
    hide Sound, TxQuiet, Ptr, FreeLow, FreeHigh;
    CountsOff(s3, rp, taken);
  }

  /** From the moment the driver has moved its read position on, the chip stays sound through every write of the
      release, unless the new position is RXSTART. */
  lemma ReleaseKeeps(c0: Chip, c1: Chip, s1: Chip, c2: Chip, s2: Chip, c3: Chip, s3: Chip, rp: nat, taken: nat)
    requires Idled(c0, c1, rp, taken) && Released(c1, s1, c2, s2, c3, s3, rp, taken)
    requires Sound(c0, rp, taken)
    ensures Sound(c2, rp, taken)
    ensures rp != RXSTART ==> Sound(c3, rp, taken)
    ensures var c4 := Command(s3, BFS + 0x1E, 0x40);
      if rp != RXSTART then Sound(c4, rp, taken) && c4.ring.rdpt == rp - 1 else c4.ring.rdpt > RXEND
  {
    assert rp < SIZE && Wf(s1) && Wf(s2) && Wf(s3);
    hide Idled, Sound, Command, WriteCtl, FreeLow, FreeHigh, RingWf, Ptr;
    SoundLater(c0, c1, rp, taken);
    SoundLater(c1, s1, rp, taken);
    LatchKeeps(s1, rp, taken, FreeLow(rp));
    SoundLater(c2, s2, rp, taken);
    LatchCarried(s1, c2, s2, rp, taken);
    FreePointer(rp);
    FreeLater(c3, s3, rp, taken);
    if rp != RXSTART {
      FreeKeeps(s2, rp, taken);
      SoundLater(c3, s3, rp, taken);
    }
    CountsOff(s3, rp, taken);
  }

  lemma SoundLater(c: Chip, d: Chip, rp: nat, taken: nat)
    requires Idled(c, d, rp, taken) && Sound(c, rp, taken)
    ensures Sound(d, rp, taken)
  {
    hide Sound;
  }

  lemma FreeLater(c: Chip, d: Chip, rp: nat, taken: nat)
    requires Idled(c, d, rp, taken)
    ensures d.ring.rdpt == c.ring.rdpt
  {
    hide Sound;
  }

  /** ERXRDPTL waits in its latch for ERXRDPTH. */
  lemma LatchCarried(s1: Chip, c2: Chip, s2: Chip, rp: nat, taken: nat)
    requires Wf(s1) && c2 == WriteCtl(s1, ERXRDPTL, FreeLow(rp)) && Idled(c2, s2, rp, taken)
    ensures WriteCtl(s2, ERXRDPTH, FreeHigh(rp)) == s2.(ring := s2.ring.(rdpt := Ptr(FreeLow(rp), FreeHigh(rp))))
  {
    hide Sound, TxQuiet, FreeLow, FreeHigh;
  }

  /** After a seek the driver stands at the beginning of the oldest unread packet. */
  lemma AlignedAtStart(c0: Chip, c: Chip, rp: nat, taken: nat)
    requires Sound(c0, rp, taken) && Sound(c, rp, taken) && Grown(c0, c)
    requires rp < SRAM ==> PtrAt(c, ERDPTL) == rp
    ensures Aligned(c, rp, taken, c0.ring.log[taken..], 0)
  {
    assert c0.ring.log[taken..] <= c.ring.log[taken..];
  }

  /** The six bytes in front of the oldest packet, read from the buffer, say where the next one begins and how long
      the frame is. */
  lemma HeaderFound(c: Chip, rp: nat, taken: nat, q: seq<Packet>, h: seq<byte>)
    requires Aligned(c, rp, taken, q, 6) && q != []
    requires |h| == 6 && h == Image(rp, q)[..6]
    ensures rp < SIZE && PacketSize(q[0]) < SIZE && PacketSize(q[0]) <= |Image(rp, q)|
    ensures Short(h[0], h[1]) == At(rp, PacketSize(q[0])) && Short(h[4], h[5]) == |q[0].frame|
  {
    ImagePrefix(rp, q, c.ring.log[taken..]);
    ImageBegins(rp, q, 0);
    HeaderDecodes(rp, q[0]);
  }

  // ---- transmitting ----

  /** The longest frame whose status bytes still fit behind it. */
  const MAXTX := SRAM - 8 - TXSTART

  /** The transmit buffer holds the control byte 0 and the frame, and the pointers delimit them. */
  ghost predicate Loaded(c: Chip, frame: seq<byte>) {
    && Wf(c) && |frame| <= MAXTX
    && PtrAt(c, ETXSTL) == TXSTART && PtrAt(c, ETXNDL) == TXSTART + |frame|
    && c.ring.mem[TXSTART..TXSTART + 1 + |frame|] == [0] + frame
  }

  /** At most the frame of a transmission already under way has gone out since c. */
  ghost predicate OldSentOnly(c: Chip, d: Chip) {
    && Wf(c) && Wf(d)
    && (d.sent == c.sent || (Flag(c, ECON1, TXRTS) && d.sent == c.sent + [TxFrame(c)]))
  }

  lemma OldSentStays(c0: Chip, c: Chip, d: Chip)
    requires OldSentOnly(c0, c) && Wf(d) && d.sent == c.sent
    ensures OldSentOnly(c0, d)
  {
    hide TxFrame, RingWf, Bit;
  }

  /** TXRTS is cleared before anything else is touched. */
  lemma Cancelled(c: Chip, s: Chip, rp: nat, taken: nat)
    requires Wf(c) && Idled(c, s, rp, taken)
    ensures var d := Command(s, BFC + 0x1F, 0x08);
      && Grown(c, d) && !Flag(d, ECON1, TXRTS)
      && (Operating(c) ==> Operating(d) && OldSentOnly(c, d))
      && (Sound(c, rp, taken) ==> Sound(d, rp, taken))
  {
    hide RingInv;
    assert Pow2(TXRTS) == 0x08;
    TxrtsCleared(s.regs[ECON1]);
  }

  /** TXRTS is set on a loaded transmit buffer. */
  lemma Started(c: Chip, s: Chip, rp: nat, taken: nat, frame: seq<byte>)
    requires Wf(c) && Idled(c, s, rp, taken) && !Flag(c, ECON1, TXRTS)
    ensures var d := Command(s, BFS + 0x1F, 0x08);
      && Grown(c, d)
      && (Operating(c) && Loaded(c, frame) ==>
            Operating(d) && Loaded(d, frame) && Flag(d, ECON1, TXRTS) && d.sent == c.sent)
      && (Sound(c, rp, taken) && Loaded(c, frame) ==> Sound(d, rp, taken))
  {
    hide RingInv;
    var d := Command(s, BFS + 0x1F, 0x08);
    assert Pow2(TXRTS) == 0x08;
    forall b: nat
      ensures Flag(d, ECON1, b) == (Flag(s, ECON1, b) || b == TXRTS)
    {
      OrBit(s.regs[ECON1], 0x08, b);
      BitOfPow2(TXRTS, b);
    }
    if Operating(c) && Loaded(c, frame) {
      assert d.ring.mem[TXSTART..TXSTART + 1 + |frame|] == c.ring.mem[TXSTART..TXSTART + 1 + |frame|];
    }
  }

  /** While the transmission runs and when it has ended, the buffer is as it was loaded, and nothing but the frame
      has gone out. */
  lemma Transmitted(c: Chip, d: Chip, rp: nat, taken: nat, frame: seq<byte>)
    requires Operating(c) && Loaded(c, frame) && Flag(c, ECON1, TXRTS) && Idled(c, d, rp, taken)
    ensures Operating(d) && Loaded(d, frame)
    ensures d.sent == c.sent || d.sent == c.sent + [frame]
  {
    hide RingInv;
    assert d.ring.mem[TXSTART..TXSTART + 1 + |frame|] == c.ring.mem[TXSTART..TXSTART + 1 + |frame|];
    assert TxFrame(c) == c.ring.mem[TXSTART..TXSTART + 1 + |frame|][1..] == frame;
  }

  /** One byte written at EWRPT. */
  lemma BufWriteIs(c: Chip, b: byte)
    requires Wf(c)
    ensures var d, p := BufWrite(c, b), PtrAt(c, EWRPTL);
      && d.ring == c.ring.(mem := c.ring.mem[p := b]) && d.sent == c.sent && d.latch == c.latch
      && (forall i :: 0 <= i < 128 && i != EWRPTL && i != EWRPTH ==> d.regs[i] == c.regs[i])
      && (Flag(c, ECON2, AUTOINC) ==> PtrAt(d, EWRPTL) == (p + 1) % SRAM)
  {
    PtrSplit((PtrAt(c, EWRPTL) + 1) % SRAM);
    hide Ptr, Bit;
  }

  /** d comes after c with at most a buffer write between them. */
  ghost predicate Filled(c: Chip, d: Chip) {
    && Wf(c) && Wf(d) && Grown(c, d) && Bank(d) == Bank(c)
    && (forall i :: 0 <= i < 128 && i != EWRPTL && i != EWRPTH && i != ECON1 && i != MISTAT ==> d.regs[i] == c.regs[i])
    && (Flag(d, ECON1, TXRTS) ==> Flag(c, ECON1, TXRTS))
  }

  lemma FilledTrans(c: Chip, d: Chip, e: Chip)
    requires Filled(c, d) && Filled(d, e)
    ensures Filled(c, e)
  {
    hide RingWf, Bit;
  }

  /** bytes lie at the start of the transmit buffer and EWRPT stands behind them; no transmission is in progress. */
  ghost predicate TxHolds(c: Chip, sent: seq<seq<byte>>, bytes: seq<byte>) {
    && Operating(c) && !Flag(c, ECON1, TXRTS) && c.sent == sent
    && |bytes| <= MAXTX + 1 && PtrAt(c, EWRPTL) == TXSTART + |bytes|
    && c.ring.mem[TXSTART..TXSTART + |bytes|] == bytes
  }

  lemma TxOperates(c: Chip, sent: seq<seq<byte>>, bytes: seq<byte>)
    requires TxHolds(c, sent, bytes)
    ensures Operating(c)
  {
  }

  lemma TxHoldsLater(c: Chip, s: Chip, rp: nat, taken: nat, sent: seq<seq<byte>>, bytes: seq<byte>)
    requires Idled(c, s, rp, taken) && TxHolds(c, sent, bytes)
    ensures TxHolds(s, sent, bytes)
  {
    hide Sound, Bit, Ptr, TxFrame;
    assert s.ring.mem[TXSTART..TXSTART + |bytes|] == c.ring.mem[TXSTART..TXSTART + |bytes|];
  }

  lemma TxHoldsMore(s: Chip, rp: nat, taken: nat, sent: seq<seq<byte>>, bytes: seq<byte>, b: byte)
    requires TxHolds(s, sent, bytes) && |bytes| <= MAXTX
    ensures TxHolds(BufWrite(s, b), sent, bytes + [b])
    ensures Sound(s, rp, taken) ==> Sound(BufWrite(s, b), rp, taken)
  {
    hide RingInv, BufWrite, Bit, Ptr;
    var d, p := BufWrite(s, b), TXSTART + |bytes|;
    BufWriteIs(s, b);
    if Sound(s, rp, taken) { InvElsewhere(s.ring, d.ring.mem, rp, taken); }
    assert d.ring.mem[TXSTART..p + 1] == s.ring.mem[TXSTART..p] + [b];
  }

  /** One byte written at EWRPT. */
  lemma ByteWritten(c: Chip, s: Chip, rp: nat, taken: nat, sent: seq<seq<byte>>, bytes: seq<byte>, b: byte)
    requires Wf(c) && Idled(c, s, rp, taken) && Bank(s) == Bank(c)
    ensures Filled(c, BufWrite(s, b))
    ensures TxHolds(c, sent, bytes) && |bytes| <= MAXTX ==>
              && TxHolds(BufWrite(s, b), sent, bytes + [b])
              && (Sound(c, rp, taken) ==> Sound(BufWrite(s, b), rp, taken))
  {
    BufWriteIs(s, b);
    assert Filled(c, BufWrite(s, b)) by { hide Sound, Operating, BufWrite, Bit, Ptr, TxFrame; }
    if TxHolds(c, sent, bytes) && |bytes| <= MAXTX {
      if Sound(c, rp, taken) { SoundLater(c, s, rp, taken); }
      hide Idled, TxHolds, BufWrite;
      TxHoldsLater(c, s, rp, taken, sent, bytes);
      TxHoldsMore(s, rp, taken, sent, bytes, b);
    }
  }

  lemma InvElsewhere(r: Ring, mem: seq<byte>, rp: nat, taken: nat)
    requires RingInv(r, rp, taken) && |mem| == SRAM
    requires forall i :: 0 <= i < SIZE ==> mem[i] == r.mem[i]
    ensures RingInv(r.(mem := mem), rp, taken)
  {
    ReadyElsewhere(r, mem, rp, Image(rp, r.log[taken..]));
  }

  lemma StillIdle(c: Chip, d: Chip, rp: nat, taken: nat)
    requires Operating(c) && Idled(c, d, rp, taken) && !Flag(c, ECON1, TXRTS)
    ensures Operating(d) && TxStill(c, d)
  {
  }

  /** The bit that the transmit wait polls. */
  lemma TxrtsBit(c: Chip)
    requires Wf(c)
    ensures And(c.regs[ECON1], 0x08) == 0 <==> !Flag(c, ECON1, TXRTS)
  {
    assert Pow2(TXRTS) == 0x08;
    AndPow2(c.regs[ECON1], TXRTS);
  }

  /** Pointers and bytes put together: from the cancelled transmission (c1) on, nothing else moves in the transmit
      area. */
  lemma FrameLoaded(c0: Chip, c1: Chip, c2: Chip, c3: Chip, c4: Chip, c5: Chip, c6: Chip,
        frame: seq<byte>)
    requires OldSentOnly(c0, c1) && |frame| <= MAXTX
    requires TxStill(c1, c2) && TxStill(c2, c3) && TxStill(c3, c4) && TxStill(c5, c6)
    requires Pointed(c2, c3, ETXSTL, TXSTART) && Pointed(c3, c4, EWRPTL, TXSTART)
    requires Pointed(c5, c6, ETXNDL, TXSTART + |frame|)
    requires Filled(c4, c5) && TxHolds(c5, c4.sent, [0] + frame)
    ensures Loaded(c6, frame) && OldSentOnly(c0, c6)
  {
    hide TxFrame, Operating, Ptr, Bit;
    assert c6.ring.mem[TXSTART..TXSTART + 1 + |frame|] == c5.ring.mem[TXSTART..TXSTART + 1 + |frame|];
    assert c6.regs[ETXSTL] == c3.regs[ETXSTL] && c6.regs[ETXSTH] == c3.regs[ETXSTH];
  }

  // ---- setting up ----

  lemma DormantReset(c: Chip, rdpt: nat)
    requires Wf(c) && rdpt < SRAM
    ensures Dormant(Reset(c, rdpt)) && Reset(c, rdpt).ring.rdpt == rdpt
  {
    BitOfPow2(7, AUTOINC);
    assert Pow2(7) == 0x80;
    BitOfZero(RXEN);
    BitOfZero(TXRTS);
  }

  /** One write of a ring boundary: ERXST also moves ERXWRPT, and so does ERXND. */
  lemma BoundWritten(c: Chip, slot: nat, v: byte)
    requires Dormant(c) && ERXSTL <= slot <= ERXNDH
    ensures var d := WriteCtl(c, slot, v);
      && Dormant(d) && d.regs == c.regs[slot := v] && d.sent == c.sent
      && d.ring == if slot <= ERXSTH then c.ring.(st := PtrAt(d, ERXSTL), wr := PtrAt(d, ERXSTL))
                   else c.ring.(nd := PtrAt(d, ERXNDL), wr := c.ring.st)
  {
  }

  lemma DormantLater(c: Chip, s: Chip, rp: nat, taken: nat)
    requires Dormant(c) && Idled(c, s, rp, taken)
    ensures Dormant(s) && s.ring == c.ring && s.sent == c.sent
    ensures forall i :: ERXSTL <= i <= ERXNDH ==> s.regs[i] == c.regs[i]
  {
    hide Sound, TxQuiet;
  }

  /** The four writes of the ring boundaries, with the chip running before each of them. */
  lemma BoundsWritten(s0: Chip, c1: Chip, s1: Chip, c2: Chip, s2: Chip, c3: Chip, s3: Chip, rp: nat, taken: nat)
    requires Dormant(s0)
    requires c1 == WriteCtl(s0, ERXSTL, RXSTART % 0x100) && Idled(c1, s1, rp, taken)
    requires c2 == WriteCtl(s1, ERXSTH, RXSTART / 0x100) && Idled(c2, s2, rp, taken)
    requires c3 == WriteCtl(s2, ERXNDL, RXEND % 0x100) && Idled(c3, s3, rp, taken)
    ensures var c4 := WriteCtl(s3, ERXNDH, RXEND / 0x100);
      Dormant(c4) && c4.sent == s0.sent && c4.ring == s0.ring.(st := RXSTART, nd := RXEND, wr := RXSTART)
  {
    assert Wf(s0);
    hide Idled, Dormant, WriteCtl, RingWf, Bit, Ptr;
    BoundWritten(s0, ERXSTL, RXSTART % 0x100);
    DormantLater(c1, s1, rp, taken);
    BoundWritten(s1, ERXSTH, RXSTART / 0x100);
    DormantLater(c2, s2, rp, taken);
    BoundWritten(s2, ERXNDL, RXEND % 0x100);
    DormantLater(c3, s3, rp, taken);
    BoundWritten(s3, ERXNDH, RXEND / 0x100);
  }

  /** Setting ECON1.RXEN on a chip that has been set up starts the reception, with an empty buffer. */
  lemma Enabled(c0: Chip, c: Chip, s: Chip, rp: nat, taken: nat)
    requires Dormant(c) && Idled(c, s, rp, taken) && SameSetup(c.regs, c0.regs)
    requires c.ring.st == RXSTART && c.ring.nd == RXEND && c.ring.wr == RXSTART
    ensures var d := Command(s, BFS + 0x1F, 0x04);
      && Wf(d) && d.ring == c.ring && d.sent == c.sent && !Flag(d, ECON1, TXRTS) && SameSetup(d.regs, c0.regs)
      && Operating(d) && (Sound(d, rp, 0) <==> rp == RXSTART && c.ring.rdpt <= RXEND)
  {
    hide Sound, TxQuiet;
    var d := Command(s, BFS + 0x1F, 0x04);
    assert Pow2(RXEN) == 0x04;
    forall b: nat
      ensures Flag(d, ECON1, b) == (Flag(s, ECON1, b) || b == RXEN)
    {
      OrBit(s.regs[ECON1], 0x04, b);
      BitOfPow2(RXEN, b);
    }
    EmptyIsSound(d, rp);
  }

  /** An empty buffer is sound just when the driver reads where the hardware writes, and ERXRDPT lies in the ring. */
  lemma EmptyIsSound(d: Chip, rp: nat)
    requires Wf(d) && Geometry(d.ring) && d.ring.rx.Idle? && d.ring.log == [] && d.ring.wr == RXSTART
    requires Flag(d, ECON1, RXEN) && Flag(d, ECON2, AUTOINC) && !Flag(d, ECON1, TXRTS)
    ensures Operating(d) && (Sound(d, rp, 0) <==> rp == RXSTART && d.ring.rdpt <= RXEND)
  {
    assert d.ring.log[0..] == [];
  }
}
