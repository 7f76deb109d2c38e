/** The ENC28J60 as the driver sees it over SPI: 8 KB of SRAM, four banks of control registers, the receive
    hardware filling a circular buffer and the transmitter emptying another (Microchip DS39662, sections 3.2,
    4.2, 7.1 and 7.2). Everything is a value; `Command` and its companions are what one SPI transaction does,
    `Hw` is what the hardware does on its own between two of them. */
module Enc28Chip {
  import opened Bits

  const SRAM := 0x2000
  const RXSTART := 0x0000
  const RXEND := 0x0BFF
  const TXSTART := 0x0C00

  // Register slots: 32 * bank + address. The addresses from 0x1B up are shared by all four banks.
  const ERDPTL := 0x00
  const EWRPTL := 0x02
  const EWRPTH := 0x03
  const ETXSTL := 0x04
  const ETXSTH := 0x05
  const ETXNDL := 0x06
  const ETXNDH := 0x07
  const ERXSTL := 0x08
  const ERXSTH := 0x09
  const ERXNDL := 0x0A
  const ERXNDH := 0x0B
  const ERXRDPTL := 0x0C
  const ERXRDPTH := 0x0D
  const ERXWRPTL := 0x0E
  const ERXWRPTH := 0x0F
  const ECON2 := 0x1E
  const ECON1 := 0x1F
  const ERXFCON := 0x38
  const EPKTCNT := 0x39
  const MACON1 := 0x40
  const MACON3 := 0x42
  const MACON4 := 0x43
  const MAMXFLL := 0x4A
  const MAMXFLH := 0x4B
  const MICMD := 0x52
  const MIREGADR := 0x54
  const MIWRL := 0x56
  const MIWRH := 0x57
  const MAADR := 0x60
  const MISTAT := 0x6A

  // Bits of ECON1 and ECON2.
  const RXEN := 2
  const TXRTS := 3
  const PKTDEC := 6
  const AUTOINC := 7

  /** One received frame as it lies in the buffer: the frame includes its FCS, the pad makes the size even. */
  datatype Packet = Packet(status0: byte, status1: byte, frame: seq<byte>, pad: seq<byte>)

  datatype Receiver = Idle | Busy(cur: nat, frame: seq<byte>)

  /** The receive hardware. `wr` is ERXWRPT, `rdpt` the effective ERXRDPT, `cnt` EPKTCNT; `log` records every
      frame the hardware has accepted, oldest first. */
  datatype Ring = Ring(mem: seq<byte>, st: nat, nd: nat, rdpt: nat, wr: nat, cnt: byte, rx: Receiver, log: seq<Packet>)

  /** The whole chip. `latch` buffers ERXRDPTL until ERXRDPTH is written; `sent` records the frames put on the wire. */
  datatype Chip = Chip(ring: Ring, regs: seq<byte>, latch: byte, sent: seq<seq<byte>>)

  type StatusVector = s: seq<byte> | |s| == 7 witness [0, 0, 0, 0, 0, 0, 0]

  /** What the hardware can do between two steps of the driver. */
  datatype HwEvent =
    | FrameStart
    | FrameByte(b: byte)
    | FrameEnd(status0: byte, status1: byte, pad: byte)
    | FrameDrop
    | TxEnd(done: bool, status: StatusVector)
    | PhyStatus(v: byte)

  predicate RingWf(r: Ring) {
    && |r.mem| == SRAM
    && r.st < SRAM && r.nd < SRAM && r.rdpt < SRAM && r.wr < SRAM
    && (r.rx.Busy? ==> r.rx.cur < SRAM)
  }

  predicate Wf(c: Chip) {
    RingWf(c.ring) && |c.regs| == 128
  }

  /** After a reset the buffer pointers and ECON2.AUTOINC have their default values. Where ERXRDPT comes up is left
      open: rdpt. */
  function Reset(c: Chip, rdpt: nat): (d: Chip)
    requires Wf(c) && rdpt < SRAM
    ensures Wf(d)
  {
    var regs: seq<byte> := seq(128, i => 0);
    Chip(Ring(c.ring.mem, 0x05FA, 0x1FFF, rdpt, 0x05FA, 0, Idle, []),
         regs[ERXSTL := 0xFA][ERXSTH := 0x05][ERXNDL := 0xFF][ERXNDH := 0x1F][ECON2 := 0x80], 0, c.sent)
  }

  // ---- the receive hardware ----

  /** The buffer location after a: the pointer wraps from ERXND to ERXST. */
  function Succ(st: nat, nd: nat, a: nat): nat {
    if a == nd then st else (a + 1) % SRAM
  }

  function Skip(st: nat, nd: nat, a: nat, n: nat): nat
    decreases n
  {
    if n == 0 then a else Skip(st, nd, Succ(st, nd, a), n - 1)
  }

  /** None of the n locations from a on is ERXRDPT, which the hardware must never write. */
  predicate Free(r: Ring, a: nat, n: nat)
    decreases n
  {
    n == 0 || (a != r.rdpt && Free(r, Succ(r.st, r.nd, a), n - 1))
  }

  /** Writes bytes from a on. */
  function Put(mem: seq<byte>, st: nat, nd: nat, a: nat, bytes: seq<byte>): (m: seq<byte>)
    requires |mem| == SRAM && a < SRAM && st < SRAM
    ensures |m| == SRAM
    decreases |bytes|
  {
    if bytes == [] then mem else Put(mem[a := bytes[0]], st, nd, Succ(st, nd, a), bytes[1..])
  }

  /** The six bytes in front of a frame: next packet pointer, status, length; each low byte first. */
  function Header(next: nat, status0: byte, status1: byte, len: nat): (h: seq<byte>)
    ensures |h| == 6
  {
    [next % 256, next / 256 % 256, status0, status1, len % 256, len / 256 % 256]
  }

  function RxStart(r: Ring): Ring {
    if r.rx.Idle? && Free(r, r.wr, 6) then r.(rx := Busy(Skip(r.st, r.nd, r.wr, 6), [])) else r
  }

  function RxByte(r: Ring, b: byte): Ring
    requires RingWf(r)
  {
    match r.rx
    case Idle => r
    case Busy(cur, frame) =>
      if cur == r.rdpt then r.(rx := Idle)
      else r.(mem := r.mem[cur := b], rx := Busy(Succ(r.st, r.nd, cur), frame + [b]))
  }

  /** The frame is complete: pad to an even size, write the header, move ERXWRPT and count the packet. A full
      buffer or a full counter discards the frame instead. */
  function RxEnd(r: Ring, status0: byte, status1: byte, pad: byte): Ring
    requires RingWf(r)
  {
    match r.rx
    case Idle => r
    case Busy(cur, frame) =>
      var odd := |frame| % 2 == 1;
      if r.cnt == 255 || (odd && cur == r.rdpt) then r.(rx := Idle)
      else
        var next := if odd then Succ(r.st, r.nd, cur) else cur;
        var padding := if odd then [pad] else [];
        var mem := Put(r.mem, r.st, r.nd, cur, padding);
        r.(mem := Put(mem, r.st, r.nd, r.wr, Header(next, status0, status1, |frame|)),
           wr := next, cnt := r.cnt + 1, rx := Idle, log := r.log + [Packet(status0, status1, frame, padding)])
  }

  function RxDrop(r: Ring): Ring {
    r.(rx := Idle)
  }

  // ---- registers ----

  function Ptr(lo: byte, hi: byte): (p: nat)
    ensures p < SRAM
  {
    lo + 256 * (hi % 32)
  }

  /** The 13-bit pointer held in the register pair at slot. */
  function PtrAt(c: Chip, slot: nat): (p: nat)
    requires Wf(c) && slot < 127
    ensures p < SRAM
  {
    Ptr(c.regs[slot], c.regs[slot + 1])
  }

  function Bank(c: Chip): nat
    requires Wf(c)
  {
    c.regs[ECON1] % 4
  }

  predicate Flag(c: Chip, slot: nat, bit: nat)
    requires Wf(c) && slot < 128
  {
    Bit(c.regs[slot], bit)
  }

  function Slot(bank: nat, addr: nat): (s: nat)
    requires bank < 4 && addr < 32
    ensures s < 128
  {
    if addr >= 0x1B then addr else 32 * bank + addr
  }

  function ReadCtl(c: Chip, slot: nat): byte
    requires Wf(c) && slot < 128
  {
    if slot == EPKTCNT then c.ring.cnt
    else if slot == ERXRDPTL then c.ring.rdpt % 256
    else if slot == ERXRDPTH then c.ring.rdpt / 256
    else if slot == ERXWRPTL then c.ring.wr % 256
    else if slot == ERXWRPTH then c.ring.wr / 256
    else c.regs[slot]
  }

  /** Writing a control register, with what the hardware does about it. ERXRDPTL takes effect when ERXRDPTH is
      written; ECON2.PKTDEC decrements EPKTCNT and reads back as zero; moving ERXST or ERXND resets ERXWRPT. */
  function WriteCtl(c: Chip, slot: nat, v: byte): (d: Chip)
    requires Wf(c) && slot < 128
    ensures Wf(d)
  {
    var plain := c.(regs := c.regs[slot := v]);
    if slot == EPKTCNT || slot == ERXWRPTL || slot == ERXWRPTH then c
    else if slot == ERXSTL || slot == ERXSTH then
      var st := PtrAt(plain, ERXSTL);
      plain.(ring := c.ring.(st := st, wr := st))
    else if slot == ERXNDL || slot == ERXNDH then
      plain.(ring := c.ring.(nd := PtrAt(plain, ERXNDL), wr := c.ring.st))
    else if slot == ERXRDPTL then c.(latch := v)
    else if slot == ERXRDPTH then c.(ring := c.ring.(rdpt := Ptr(c.latch, v)))
    else if slot == ECON2 then
      var kept := c.(regs := c.regs[ECON2 := AndNotByte(v, Pow2(PKTDEC))]);
      if Bit(v, PKTDEC) && c.ring.cnt > 0 then kept.(ring := c.ring.(cnt := c.ring.cnt - 1)) else kept
    else plain
  }

  // ---- SPI transactions ----

  /** A two-byte transaction: command byte [opcode:3 | address:5] and data. Opcode 2 writes a control register,
      4 sets bits in it and 5 clears them. */
  function Command(c: Chip, cmd: byte, data: byte): (d: Chip)
    requires Wf(c)
    ensures Wf(d)
  {
    var slot := Slot(Bank(c), cmd % 32);
    if cmd / 32 == 2 then WriteCtl(c, slot, data)
    else if cmd / 32 == 4 then WriteCtl(c, slot, OrByte(ReadCtl(c, slot), data))
    else if cmd / 32 == 5 then WriteCtl(c, slot, AndNotByte(ReadCtl(c, slot), data))
    else c
  }

  /** The reply to a read of a control register. */
  function Reply(c: Chip, cmd: byte): byte
    requires Wf(c)
  {
    if cmd / 32 == 0 then ReadCtl(c, Slot(Bank(c), cmd % 32)) else 0
  }

  function SetPtr(c: Chip, slot: nat, p: nat): (d: Chip)
    requires Wf(c) && slot < 127 && p < SRAM
    ensures Wf(d)
  {
    c.(regs := c.regs[slot := p % 256][slot + 1 := p / 256])
  }

  /** After one byte of a buffer read: ERDPT advances, wrapping from ERXND to ERXST. */
  function BufRead(c: Chip): (d: Chip)
    requires Wf(c)
    ensures Wf(d)
  {
    if Flag(c, ECON2, AUTOINC) then SetPtr(c, ERDPTL, Succ(c.ring.st, c.ring.nd, PtrAt(c, ERDPTL))) else c
  }

  /** One byte of a buffer write: EWRPT advances through the whole memory. */
  function BufWrite(c: Chip, b: byte): (d: Chip)
    requires Wf(c)
    ensures Wf(d)
  {
    var p := PtrAt(c, EWRPTL);
    var d := c.(ring := c.ring.(mem := c.ring.mem[p := b]));
    if Flag(c, ECON2, AUTOINC) then SetPtr(d, EWRPTL, (p + 1) % SRAM) else d
  }

  // ---- the hardware on its own ----

  /** Bytes of the transmit buffer behind its control byte. */
  function TxFrame(c: Chip): seq<byte>
    requires Wf(c)
  {
    var st, nd := PtrAt(c, ETXSTL), PtrAt(c, ETXNDL);
    if st <= nd then c.ring.mem[st + 1..nd + 1] else []
  }

  lemma SkipInSram(st: nat, nd: nat, a: nat, n: nat)
    requires st < SRAM && a < SRAM
    ensures Skip(st, nd, a, n) < SRAM
    decreases n
  {
  }

  function HwRing(c: Chip, e: HwEvent): (d: Chip)
    requires Wf(c)
    ensures Wf(d)
  {
    SkipInSram(c.ring.st, c.ring.nd, c.ring.wr, 6);
    match e
    case FrameStart => c.(ring := RxStart(c.ring))
    case FrameByte(b) => c.(ring := RxByte(c.ring, b))
    case FrameEnd(s0, s1, pad) => c.(ring := RxEnd(c.ring, s0, s1, pad))
    case FrameDrop => c.(ring := RxDrop(c.ring))
    case _ => c
  }

  function Hw(c: Chip, e: HwEvent): (d: Chip)
    requires Wf(c)
    ensures Wf(d)
  {
    match e
    case FrameStart => if Flag(c, ECON1, RXEN) then HwRing(c, e) else c
    case TxEnd(done, status) =>
      if Flag(c, ECON1, TXRTS) then
        var mem := Put(c.ring.mem, 0, SRAM - 1, (PtrAt(c, ETXNDL) + 1) % SRAM, status);
        c.(ring := c.ring.(mem := mem), regs := c.regs[ECON1 := AndNotByte(c.regs[ECON1], Pow2(TXRTS))],
           sent := if done then c.sent + [TxFrame(c)] else c.sent)
      else c
    case PhyStatus(v) => c.(regs := c.regs[MISTAT := v])
    case _ => HwRing(c, e)
  }

  /** Any number of hardware events. */
  function RunHw(c: Chip, events: seq<HwEvent>): (d: Chip)
    requires Wf(c)
    ensures Wf(d)
    decreases |events|
  {
    if events == [] then c else RunHw(Hw(c, events[0]), events[1..])
  }
}
