/** What the chip does on its own between two steps of the driver, for every sequence of hardware events. */
module RxHardware {
  import opened Bits
  import opened Enc28Chip
  import opened RxRing

  /** The chip as Init leaves it and the driver keeps it. A transmission in progress ends, with its seven status
      bytes, inside the transmit area. */
  ghost predicate Configured(c: Chip) {
    && Wf(c) && Geometry(c.ring)
    && Flag(c, ECON1, RXEN) && Flag(c, ECON2, AUTOINC)
    && (Flag(c, ECON1, TXRTS) ==> PtrAt(c, ETXSTL) == TXSTART <= PtrAt(c, ETXNDL) <= SRAM - 8)
  }

  /** The hardware writes inside the ring, wherever ERXRDPT points. */
  ghost predicate Operating(c: Chip) {
    && Configured(c)
    && c.ring.wr < SIZE && (c.ring.rx.Busy? ==> c.ring.rx.cur < SIZE)
  }

  ghost predicate Sound(c: Chip, rp: nat, taken: nat) {
    Operating(c) && RingInv(c.ring, rp, taken)
  }

  /** All that hardware events can change, on any chip at all, and selecting a bank besides: d comes after c. */
  ghost predicate Evolved(c: Chip, d: Chip) {
    && Wf(c) && Wf(d)
    && d.latch == c.latch
    && (forall i :: 0 <= i < 128 && i != ECON1 && i != MISTAT ==> d.regs[i] == c.regs[i])
    && (forall b :: b >= 2 && b != TXRTS ==> Flag(d, ECON1, b) == Flag(c, ECON1, b))
    && (Flag(d, ECON1, TXRTS) ==> Flag(c, ECON1, TXRTS))
    && d.ring.st == c.ring.st && d.ring.nd == c.ring.nd && d.ring.rdpt == c.ring.rdpt
    && Grown(c, d)
  }

  /** Two register files that agree on the registers for setting up. ECON1 and MISTAT also change on their own. */
  predicate SameSetup(a: seq<byte>, b: seq<byte>) {
    && |a| == |b| == 128
    && forall i :: 0x10 <= i < 128 && i != ECON1 && i != MISTAT ==> a[i] == b[i]
  }

  lemma SetupTrans(a: seq<byte>, b: seq<byte>, c: seq<byte>)
    requires SameSetup(a, b) && SameSetup(b, c)
    ensures SameSetup(a, c)
  {
  }

  /** Two register files that agree on banks 1 to 3, which only Init writes. MISTAT also changes on its own. */
  predicate SameSettings(a: seq<byte>, b: seq<byte>) {
    && |a| == |b| == 128
    && forall i :: 0x20 <= i < 128 && i != MISTAT ==> a[i] == b[i]
  }

  /** Packets are only ever accepted behind the earlier ones, and counted; the settings stay. */
  ghost predicate Grown(c: Chip, d: Chip) {
    && Wf(c) && Wf(d) && SameSettings(d.regs, c.regs)
    && c.ring.log <= d.ring.log
    && d.ring.cnt - c.ring.cnt == |d.ring.log| - |c.ring.log|
  }

  /** The transmitter's side of a chip in operation: the transmit buffer stays up to ETXND, and at most the frame in it
      goes out, which ends the transmission. */
  ghost predicate TxQuiet(c: Chip, d: Chip) {
    && Wf(c) && Wf(d)
    && (forall a :: SIZE <= a < SRAM && (Flag(c, ECON1, TXRTS) ==> a <= PtrAt(c, ETXNDL)) ==>
          d.ring.mem[a] == c.ring.mem[a])
    && (d.sent == c.sent
        || (Flag(c, ECON1, TXRTS) && !Flag(d, ECON1, TXRTS) && d.sent == c.sent + [TxFrame(c)]))
  }

  /** The chip while it is being set up: nothing is received or sent, nothing has been. */
  ghost predicate Dormant(c: Chip) {
    && Wf(c)
    && !Flag(c, ECON1, RXEN) && !Flag(c, ECON1, TXRTS) && Flag(c, ECON2, AUTOINC)
    && c.ring.rx.Idle? && c.ring.cnt == 0 && c.ring.log == []
  }

  /** d comes after c without the driver having done more than select a bank. */
  ghost predicate Idled(c: Chip, d: Chip, rp: nat, taken: nat) {
    && Evolved(c, d)
    && (Operating(c) ==> Operating(d) && TxQuiet(c, d))
    && (Sound(c, rp, taken) ==> Sound(d, rp, taken))
    && (Dormant(c) ==> Dormant(d) && d.ring == c.ring && d.sent == c.sent)
  }

  /** Ending a transmission clears TXRTS in ECON1 and nothing else. */
  lemma TxrtsCleared(v: byte)
    ensures var w := AndNotByte(v, Pow2(TXRTS));
      && w % 4 == v % 4
      && forall b: nat :: Bit(w, b) == (Bit(v, b) && b != TXRTS)
  {
    var w := AndNotByte(v, Pow2(TXRTS));
    forall b: nat
      ensures Bit(w, b) == (Bit(v, b) && b != TXRTS)
    {
      AndNotBit(v, Pow2(TXRTS), b);
      BitOfPow2(TXRTS, b);
    }
    LowBits(v);
    LowBits(w);
  }

  lemma HwEvolves(c: Chip, e: HwEvent)
    requires Wf(c)
    ensures Evolved(c, Hw(c, e)) && Bank(Hw(c, e)) == Bank(c)
  {
    TxrtsCleared(c.regs[ECON1]);
  }

  // ---- the receive ring ----

  /** Bytes written anywhere above the ring leave what the ring holds. */
  lemma {:induction false} PutAbove(mem: seq<byte>, a: nat, bytes: seq<byte>)
    requires |mem| == SRAM && SIZE <= a < SRAM && a + |bytes| <= SRAM
    ensures var m := Put(mem, 0, SRAM - 1, a, bytes);
      forall i :: 0 <= i < a ==> m[i] == mem[i]
    decreases |bytes|
  {
    if bytes != [] {
      var next := Succ(0, SRAM - 1, a);
      assert Put(mem, 0, SRAM - 1, a, bytes) == Put(mem[a := bytes[0]], 0, SRAM - 1, next, bytes[1..]);
      if a + 1 < SRAM {
        assert next == a + 1;
        PutAbove(mem[a := bytes[0]], a + 1, bytes[1..]);
        var m := Put(mem[a := bytes[0]], 0, SRAM - 1, next, bytes[1..]);
        forall i | 0 <= i < a ensures m[i] == mem[i] { assert m[i] == mem[a := bytes[0]][i]; }
      } else {
        assert bytes[1..] == [];
      }
    }
  }

  lemma ReadyElsewhere(r: Ring, mem: seq<byte>, rp: nat, image: seq<byte>)
    requires Ready(r, rp, image) && |mem| == SRAM
    requires forall i :: 0 <= i < SIZE ==> mem[i] == r.mem[i]
    ensures Ready(r.(mem := mem), rp, image)
  {
  }

  lemma EndKeepsInv(r: Ring, rp: nat, taken: nat, status0: byte, status1: byte, pad: byte)
    requires RingInv(r, rp, taken)
    ensures RingInv(RxEnd(r, status0, status1, pad), rp, taken)
  {
    var q := r.log[taken..];
    var image := Image(rp, q);
    var s := RxEnd(r, status0, status1, pad);
    EndKeeps(r, rp, image, status0, status1, pad);
    if s.log != r.log {
      var p :| s.log == r.log + [p] && |image| + PacketSize(p) <= SIZE && Ready(s, rp, image + Encode(r.wr, p));
      assert s.log[taken..] == q + [p];
      ImageAppend(rp, q, p);
    }
  }

  /** One receive event: the unread bytes stay, and a packet the hardware accepts comes behind them. */
  lemma RingEventKeeps(c: Chip, e: HwEvent, rp: nat, taken: nat)
    requires Wf(c) && RingInv(c.ring, rp, taken)
    ensures RingInv(HwRing(c, e).ring, rp, taken)
  {
    match e
    case FrameStart => StartKeeps(c.ring, rp, Image(rp, c.ring.log[taken..]));
    case FrameByte(b) => ByteKeeps(c.ring, rp, Image(rp, c.ring.log[taken..]), b);
    case FrameEnd(s0, s1, pad) => EndKeepsInv(c.ring, rp, taken, s0, s1, pad);
    case _ =>
  }

  // ---- the transmitter, and where the receiver writes ----

  lemma SkipInside(a: nat, n: nat)
    requires a < SIZE
    ensures Skip(RXSTART, RXEND, a, n) < SIZE
    decreases n
  {
  }

  /** Any number of bytes put into the ring: nothing above it changes. */
  lemma {:induction false} PutBelow(mem: seq<byte>, a: nat, bytes: seq<byte>)
    requires |mem| == SRAM && a < SIZE
    ensures var m := Put(mem, RXSTART, RXEND, a, bytes);
      forall i :: SIZE <= i < SRAM ==> m[i] == mem[i]
    decreases |bytes|
  {
    if bytes != [] {
      var next := Succ(RXSTART, RXEND, a);
      assert next < SIZE;
      PutBelow(mem[a := bytes[0]], next, bytes[1..]);
      var m := Put(mem[a := bytes[0]], RXSTART, RXEND, next, bytes[1..]);
      forall i | SIZE <= i < SRAM ensures m[i] == mem[i] { assert m[i] == mem[a := bytes[0]][i]; }
    }
  }

  lemma EndBelow(r: Ring, status0: byte, status1: byte, pad: byte)
    requires Geometry(r) && r.wr < SIZE && (r.rx.Busy? ==> r.rx.cur < SIZE)
    ensures var s := RxEnd(r, status0, status1, pad);
      && Geometry(s) && s.wr < SIZE && s.rx.Idle?
      && forall i :: SIZE <= i < SRAM ==> s.mem[i] == r.mem[i]
  {
    if r.rx.Busy? {
      var cur, odd := r.rx.cur, |r.rx.frame| % 2 == 1;
      var next, padding := if odd then Succ(r.st, r.nd, cur) else cur, if odd then [pad] else [];
      var mem := Put(r.mem, r.st, r.nd, cur, padding);
      var header := Header(next, status0, status1, |r.rx.frame|);
      hide Put, Header;
      PutBelow(r.mem, cur, padding);
      PutBelow(mem, r.wr, header);
    }
  }

  /** Where the receive hardware writes, on any chip in operation: nowhere above the ring. */
  lemma RingEventBelow(c: Chip, e: HwEvent)
    requires Operating(c)
    ensures Operating(HwRing(c, e))
    ensures forall a :: SIZE <= a < SRAM ==> HwRing(c, e).ring.mem[a] == c.ring.mem[a]
  {
    SkipInside(c.ring.wr, 6);
    hide Bit, Ptr, Put, Free, Skip, RxEnd;
    match e
    case FrameEnd(s0, s1, pad) => EndBelow(c.ring, s0, s1, pad);
    case _ =>
  }

  /** The end of a transmission: its status bytes lie above the frame, and TXRTS is clear. */
  lemma TxEndKeeps(c: Chip, done: bool, status: StatusVector)
    requires Operating(c) && Flag(c, ECON1, TXRTS)
    ensures var d := Hw(c, TxEnd(done, status));
      && Operating(d) && TxQuiet(c, d)
      && d.ring == c.ring.(mem := d.ring.mem)
      && forall a :: 0 <= a < SIZE ==> d.ring.mem[a] == c.ring.mem[a]
  {
    TxrtsCleared(c.regs[ECON1]);
    PutAbove(c.ring.mem, PtrAt(c, ETXNDL) + 1, status);
    hide Bit, AndNotByte, TxFrame, Put, Ptr;
  }

  /** Whatever the hardware does, and wherever ERXRDPT points: the chip stays in operation, with RXEN and AUTOINC set,
      and the transmit area is left to the transmitter. */
  lemma HwOperates(c: Chip, e: HwEvent)
    requires Operating(c)
    ensures Operating(Hw(c, e)) && TxQuiet(c, Hw(c, e))
  {
    HwEvolves(c, e);
    hide Ptr, Bit, TxFrame;
    if e.TxEnd? {
      if Flag(c, ECON1, TXRTS) { TxEndKeeps(c, e.done, e.status); }
    } else {
      RingEventBelow(c, e);
    }
  }

  lemma HwKeeps(c: Chip, e: HwEvent, rp: nat, taken: nat)
    requires Sound(c, rp, taken)
    ensures Sound(Hw(c, e), rp, taken)
  {
    HwOperates(c, e);
    hide Operating, RxEnd, Ptr, Bit;
    if e.TxEnd? {
      if Flag(c, ECON1, TXRTS) {
        TxEndKeeps(c, e.done, e.status);
        ReadyElsewhere(c.ring, Hw(c, e).ring.mem, rp, Image(rp, c.ring.log[taken..]));
      }
    } else {
      RingEventKeeps(c, e, rp, taken);
    }
  }

  lemma TxQuietTrans(c: Chip, d: Chip, e: Chip)
    requires Configured(c) && Evolved(c, d) && TxQuiet(c, d) && Evolved(d, e) && TxQuiet(d, e)
    ensures TxQuiet(c, e)
  {
    hide Ptr, Bit;
    if Flag(d, ECON1, TXRTS) {
      assert PtrAt(d, ETXNDL) == PtrAt(c, ETXNDL) && PtrAt(d, ETXSTL) == PtrAt(c, ETXSTL);
      assert TxFrame(d) == TxFrame(c);
    }
  }

  // ---- any run of the hardware ----

  lemma IdledTrans(c: Chip, d: Chip, e: Chip, rp: nat, taken: nat)
    requires Idled(c, d, rp, taken) && Idled(d, e, rp, taken)
    ensures Idled(c, e, rp, taken)
  {
    if Operating(c) { TxQuietTrans(c, d, e); }
  }

  lemma IdledMeans(c: Chip, d: Chip, rp: nat, taken: nat)
    requires Idled(c, d, rp, taken)
    ensures Grown(c, d) && (Flag(d, ECON1, TXRTS) ==> Flag(c, ECON1, TXRTS)) && SameSetup(d.regs, c.regs)
    ensures Dormant(c) ==> Dormant(d) && d.ring == c.ring && d.sent == c.sent
  {
    hide Sound, TxQuiet, Dormant;
  }

  lemma HwIdles(c: Chip, e: HwEvent, rp: nat, taken: nat)
    requires Wf(c)
    ensures Idled(c, Hw(c, e), rp, taken) && Bank(Hw(c, e)) == Bank(c)
  {
    HwEvolves(c, e);
    hide Operating, Sound, TxQuiet, Hw;
    if Operating(c) { HwOperates(c, e); }
    if Sound(c, rp, taken) { HwKeeps(c, e, rp, taken); }
  }

  lemma {:induction false} RunIdles(c: Chip, events: seq<HwEvent>, rp: nat, taken: nat)
    requires Wf(c)
    ensures Idled(c, RunHw(c, events), rp, taken) && Bank(RunHw(c, events)) == Bank(c)
    decreases |events|
  {
    if events != [] {
      var d := Hw(c, events[0]);
      HwIdles(c, events[0], rp, taken);
      RunIdles(d, events[1..], rp, taken);
      IdledTrans(c, d, RunHw(c, events), rp, taken);
    }
  }

  /** Whatever the hardware does, a sound chip never changes a byte between the driver's read position and its own
      write pointer. */
  lemma UnreadKept(c: Chip, events: seq<HwEvent>, rp: nat, taken: nat)
    requires Sound(c, rp, taken)
    ensures var d := RunHw(c, events);
      forall j :: 0 <= j < Span(c.ring.log[taken..]) ==> d.ring.mem[At(rp, j)] == c.ring.mem[At(rp, j)]
  {
    var d := RunHw(c, events);
    RunIdles(c, events, rp, taken);
    var image, image' := Image(rp, c.ring.log[taken..]), Image(rp, d.ring.log[taken..]);
    ImagePrefix(rp, c.ring.log[taken..], d.ring.log[taken..]);
    forall j | 0 <= j < |image|
      ensures d.ring.mem[At(rp, j)] == c.ring.mem[At(rp, j)]
    {
      assert c.ring.mem[At(rp, 0 + j)] == image[j] == image'[j] == d.ring.mem[At(rp, 0 + j)];
    }
  }
}
