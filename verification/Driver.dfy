/** The driver, function by function. The chip runs on before every command and every buffer byte: `env` says what it
    does before each of them, `clock` what time it then is, and both are arbitrary. */
module Enc28Driver {
  import opened Bits
  import opened Enc28Chip
  import opened RxRing
  import opened RxHardware
  import opened Enc28Banks
  import opened DriverSteps
  import opened Enc28Programs
  import opened Enc28Unguarded
  import opened Enc28Runs
  import opened Ticks

  /** The registers behind the driver's set-up, apart from those of the buffer: what Init leaves in them. */
  predicate Programmed(regs: seq<byte>, macAddr: seq<byte>)
    requires |regs| == 128 && |macAddr| == 6
  {
    && regs[MACON1] == 0x0D && regs[MACON3] == 0xF3 && regs[MACON4] == 0x40
    && Short(regs[MAMXFLL], regs[MAMXFLH]) == 1518
    && regs[ERXFCON] == 0
    && regs[MIREGADR] == 0 && Short(regs[MIWRL], regs[MIWRH]) == 0x0100
    && regs[MAADR..MAADR + 6] == macAddr[2..] + macAddr[..2]
  }

  /** The four groups of registers, one after the other. */
  lemma ProgrammedIn(r0: seq<byte>, r1: seq<byte>, r2: seq<byte>, r3: seq<byte>, r4: seq<byte>, macAddr: seq<byte>)
    requires |r0| == |r1| == |r2| == |r3| == |r4| == 128 && |macAddr| == 6
    requires SameSetup(r1, r0[MACON1 := 0x0D][MACON3 := 0xF3][MACON4 := 0x40][MAMXFLL := 0xEE][MAMXFLH := 0x05])
    requires SameSetup(r2, r1[MAADR + 4 := macAddr[0]][MAADR + 5 := macAddr[1]][MAADR := macAddr[2]]
                             [MAADR + 1 := macAddr[3]][MAADR + 2 := macAddr[4]][MAADR + 3 := macAddr[5]])
    requires SameSetup(r3, r2[MIREGADR := 0][MIWRL := 0][MIWRH := 1])
    requires SameSetup(r4, r3[ERXFCON := 0])
    ensures Programmed(r4, macAddr)
  {
    hide Short;
    assert forall i :: MAADR <= i < 128 && i != MISTAT ==> r4[i] == r2[i];
    assert r4[MAADR..MAADR + 6] == [macAddr[2], macAddr[3], macAddr[4], macAddr[5], macAddr[0], macAddr[1]];
  }

  lemma SetupAt(a: seq<byte>, b: seq<byte>, i: nat)
    requires SameSetup(a, b) && 0x10 <= i < 128 && i != ECON1 && i != MISTAT
    ensures a[i] == b[i]
  {
  }

  lemma UpdateAgain(r: seq<byte>, i: nat, v: byte, w: byte)
    requires i < |r|
    ensures r[i := v][i := w] == r[i := w]
  {
  }

  class Enc28j60 {
    var chip: Chip
    var rxPtr: nat
    var now: nat
    const env: nat -> seq<HwEvent>
    const clock: nat -> nat
    const period: nat
    const resetRdpt: nat
    ghost var taken: nat
    ghost var bus: Bus

    ghost predicate Valid()
      reads this
    {
      && Wf(chip) && rxPtr < 0x1_0000
      && taken + chip.ring.cnt == |chip.ring.log|
    }

    ghost predicate RingSound()
      reads this
    {
      Sound(chip, rxPtr, taken)
    }

    /** The unread packets are in the ring, guarded or not. */
    ghost predicate RingHeld()
      reads this
    {
      Held(chip, rxPtr, taken)
    }

    ghost predicate Operates()
      reads this
    {
      Operating(chip)
    }

    /** The chip when the next command or buffer byte reaches it. */
    ghost function Seen(): Chip
      requires Wf(chip)
      reads this
    {
      RunHw(chip, env(now))
    }

    /** HAL_GetTick */
    method GetTick() returns (t: word)
      ensures t == clock(now) % WORD
    {
      t := clock(now) % WORD;
    }

    /** The time until the next command or buffer byte. */
    method Elapse()
      requires Wf(chip)
      modifies `chip, `now
      ensures chip == old(Seen()) && now == old(now) + 1
      ensures Idled(old(chip), chip, rxPtr, taken) && Wf(chip) && Bank(chip) == Bank(old(chip))
    {
      RunIdles(chip, env(now), rxPtr, taken);
      chip, now := RunHw(chip, env(now)), now + 1;
    }

    method WriteOp(op: byte, addr: byte, data: byte)
      requires Wf(chip) && op % 32 == 0
      modifies `chip, `now, `bus
      ensures chip == Command(old(Seen()), op + addr % 32, data) && now == old(now) + 1
      ensures Idled(old(chip), old(Seen()), rxPtr, taken) && Bank(old(Seen())) == Bank(old(chip))
      ensures var a := Apply(op, addr % 32, data);
        && Selected(bus.run) == After(old(Selected(bus.run)), a)
        && (Proper(old(Selected(bus.run)), a) ==> Onward(old(bus), old(chip), bus, chip, [a], []))
    {
      hide Idled, Selected, Proper, Onward, After, Command, RunHw;
      CommandByte(op, addr);
      ghost var c, events := chip, env(now);
      var tx := OrByte(op, AndByte(addr, 0x1F));
      Elapse();
      chip := Command(chip, tx, data);
      OnwardStep(bus, c, events, Apply(op, addr % 32, data));
      bus := Extended(bus, events, Apply(op, addr % 32, data));
    }

    method ReadOp(op: byte, addr: byte) returns (rx: byte)
      requires Wf(chip) && op % 32 == 0
      modifies `chip, `now, `bus
      ensures chip == old(Seen()) && now == old(now) + 1 && rx == Reply(chip, op + addr % 32)
      ensures Idled(old(chip), chip, rxPtr, taken) && Wf(chip) && Bank(chip) == Bank(old(chip))
      ensures op == 0 ==>
                var a := Query(addr % 32);
                && Selected(bus.run) == old(Selected(bus.run))
                && (Proper(old(Selected(bus.run)), a) ==>
                      Onward(old(bus), old(chip), bus, chip, [a], [Shown(addr % 32, rx)]))
    {
      hide Idled, Selected, Proper, Onward, Reply, RunHw;
      CommandByte(op, addr);
      ghost var c, events := chip, env(now);
      var tx := OrByte(op, AndByte(addr, 0x1F));
      Elapse();
      rx := Reply(chip, tx);
      OnwardStep(bus, c, events, Query(addr % 32));
      bus := Extended(bus, events, Query(addr % 32));
    }

    /** Whatever bank was selected, `bank` is selected afterwards, and every other bit of ECON1 is as it was, unless
        the chip itself has ended a transmission. */
    method SetBank(bank: byte)
      requires Wf(chip)
      modifies `chip, `now, `bus
      ensures Idled(old(chip), chip, rxPtr, taken) && Wf(chip) && Grown(old(chip), chip)
      ensures old(Dormant(chip)) ==> Dormant(chip) && chip.ring == old(chip).ring && chip.sent == old(chip).sent
      ensures Bank(chip) == bank % 4 && now == old(now) + 2
      ensures Flag(chip, ECON1, TXRTS) ==> old(Flag(chip, ECON1, TXRTS))
      ensures SameSetup(chip.regs, old(chip).regs)
      ensures Selected(bus.run) == Known(bank % 4)
      ensures Onward(old(bus), old(chip), bus, chip, SelectSteps(bank % 4), [])
    {
      hide Idled, Dormant, Grown, SameSetup, Command, RunHw, RingWf, Bit, AndByte, Selected, Onward;
      ghost var c0, s0, b0 := chip, Seen(), bus;
      WriteOp(BFC, 0x1F, 0x03);
      ghost var c1, s1, b1 := chip, Seen(), bus;
      BankArgument(bank);
      WriteOp(BFS, 0x1F, AndByte(bank, 0x03));
      BankSelected(c0, s0, c1, s1, bank % 4, rxPtr, taken);
      IdledMeans(c0, chip, rxPtr, taken);
      OnwardTrans(b0, c0, [Apply(BFC, 0x1F, 0x03)], [], b1, c1, [Apply(BFS, 0x1F, bank % 4)], [], bus, chip,
                  SelectSteps(bank % 4), []);
    }

    method ReadReg(addr: byte) returns (v: byte)
      requires Wf(chip)
      modifies `chip, `now, `bus
      ensures Idled(old(chip), chip, rxPtr, taken) && Wf(chip)
      ensures Bank(chip) == Bank(old(chip)) && Grown(old(chip), chip)
      ensures v == ReadCtl(chip, Slot(Bank(chip), addr % 32)) && now == old(now) + 1
      ensures SameSetup(chip.regs, old(chip).regs)
      ensures Selected(bus.run) == old(Selected(bus.run))
      ensures old(Named(Selected(bus.run), addr % 32)) ==>
                Onward(old(bus), old(chip), bus, chip, [Query(addr % 32)], [Shown(addr % 32, v)])
    {
      hide Idled, Grown, SameSetup, RingWf, Bit, Selected, Named, Onward;
      ghost var c := chip;
      v := ReadOp(0x00, addr);
      IdledMeans(c, chip, rxPtr, taken);
    }

    method WriteReg(addr: byte, data: byte)
      requires Wf(chip)
      modifies `chip, `now, `bus
      ensures chip == WriteCtl(old(Seen()), Slot(Bank(old(chip)), addr % 32), data) && now == old(now) + 1
      ensures Idled(old(chip), old(Seen()), rxPtr, taken)
      ensures addr % 32 != ECON1 ==> Bank(chip) == Bank(old(chip))
      ensures old(Dormant(chip)) && SetupSlot(Slot(Bank(old(chip)), addr % 32)) ==>
                Dormant(chip) && chip.ring == old(chip).ring && chip.sent == old(chip).sent
      ensures SetupSlot(Slot(Bank(old(chip)), addr % 32)) ==>
                SameSetup(chip.regs, old(chip).regs[Slot(Bank(old(chip)), addr % 32) := data])
      ensures addr % 32 != ECON1 ==> Selected(bus.run) == old(Selected(bus.run))
      ensures addr % 32 != ECON1 && old(Named(Selected(bus.run), addr % 32)) ==>
                Onward(old(bus), old(chip), bus, chip, [Apply(WCR, addr % 32, data)], [])
    {
      hide Selected, Named, Onward, RunHw, TxQuiet, RingInv;
      ghost var s, slot := Seen(), Slot(Bank(chip), addr % 32);
      WriteOp(WCR, addr, data);
      if SetupSlot(slot) { PlainKeeps(s, rxPtr, taken, slot, data); }
    }

    /** One byte of a buffer read. If ERDPT lies j bytes into the unread packets, the byte is theirs. */
    method ReadByte(ghost q: seq<Packet>, ghost j: nat) returns (b: byte)
      requires Wf(chip)
      modifies `chip, `now, `bus
      ensures Grown(old(chip), chip) && (old(Operates()) ==> Operates())
      ensures old(RingSound()) ==> RingSound()
      ensures old(Aligned(chip, rxPtr, taken, q, j)) && j < |Image(rxPtr, q)| ==>
                b == Image(rxPtr, q)[j] && Aligned(chip, rxPtr, taken, q, j + 1)
      ensures Selected(bus.run) == old(Selected(bus.run)) && Onward(old(bus), old(chip), bus, chip, [In], [b])
    {
      hide Selected, Onward, RunHw, Operating, Sound, Aligned, TxQuiet;
      ghost var before, events := chip, env(now);
      Elapse();
      ghost var seen := chip;
      b := chip.ring.mem[PtrAt(chip, ERDPTL)];
      chip := BufRead(chip);
      BufReadKeeps(seen, rxPtr, taken);
      if Aligned(before, rxPtr, taken, q, j) {
        AlignedLater(before, seen, rxPtr, taken, q, j);
        if j < |Image(rxPtr, q)| { ReadStep(seen, rxPtr, taken, q, j); }
      }
      OnwardStep(bus, before, events, In);
      bus := Extended(bus, events, In);
    }

    /** Reads len bytes at ERDPT. With ERDPT k bytes into the unread packets, which begin with q, these are the bytes
        of q from there on, whatever arrives meanwhile. */
    method ReadBuffer(buf: array<byte>, len: nat, ghost q: seq<Packet>, ghost k: nat)
      requires Wf(chip) && len <= buf.Length
      modifies `chip, `now, `bus, buf
      ensures Grown(old(chip), chip) && (old(Operates()) ==> Operates())
      ensures buf[len..] == old(buf[len..])
      ensures old(RingSound()) ==> RingSound()
      ensures old(Aligned(chip, rxPtr, taken, q, k)) && k + len <= |Image(rxPtr, q)| ==>
                buf[..len] == Image(rxPtr, q)[k..k + len] && Aligned(chip, rxPtr, taken, q, k + len)
      ensures Selected(bus.run) == old(Selected(bus.run))
      ensures Onward(old(bus), old(chip), bus, chip, Ins(len), buf[..len])
    {
      hide Aligned, Sound, Operating, RingInv, Image, Selected, Onward;
      ghost var sound, operating, image := RingSound(), Operates(), Image(rxPtr, q);
      ghost var inside := Aligned(chip, rxPtr, taken, q, k) && k + len <= |image|;
      ghost var c0, b0 := chip, bus;
      OnwardStays(b0, c0);
      for i := 0 to len
        invariant Grown(c0, chip) && (operating ==> Operates())
        invariant forall j :: len <= j < buf.Length ==> buf[j] == old(buf[j])
        invariant sound ==> RingSound()
        invariant inside ==> Aligned(chip, rxPtr, taken, q, k + i)
        invariant inside ==> forall j :: 0 <= j < i ==> buf[j] == image[k + j]
        invariant Selected(bus.run) == Selected(b0.run) && Onward(b0, c0, bus, chip, Ins(i), buf[..i])
      {
        ghost var c1, b1, bytes := chip, bus, buf[..i];
        var b := ReadByte(q, k + i);
        buf[i] := b;
        OnwardTrans(b0, c0, Ins(i), bytes, b1, c1, [In], [b], bus, chip, Ins(i + 1), buf[..i + 1]);
      }
    }

    /** A buffer pointer, low byte first. */
    method WritePtr(addr: byte, p: nat)
      requires Wf(chip) && Bank(chip) == 0 && p < 0x1_0000 && Selected(bus.run) == Known(0)
      requires addr in {ERDPTL, EWRPTL} || (addr in {ETXSTL, ETXNDL} && !Flag(chip, ECON1, TXRTS))
      modifies `chip, `now, `bus
      ensures Wf(chip) && Pointed(old(chip), chip, addr, p) && Bank(chip) == 0 && old(now) <= now
      ensures old(Operates()) ==> Operates()
      ensures old(RingSound()) ==> RingSound()
      ensures old(Operates() && !Flag(chip, ECON1, TXRTS)) ==> TxStill(old(chip), chip)
      ensures Selected(bus.run) == Known(0) && Onward(old(bus), old(chip), bus, chip, PtrSteps(addr, p), [])
    {
      hide Idled, Sound, Operating, Grown, WriteCtl, RunHw, TxStill, PtrAt, Pointed, Bit, Selected, Onward, SameSetup;
      ghost var c0, s0, b0 := chip, Seen(), bus;
      WriteReg(addr, p % 0x100);
      ghost var c1, s1, b1 := chip, Seen(), bus;
      WriteReg(addr + 1, p / 0x100);
      PtrWritten(c0, s0, c1, s1, addr, p, rxPtr, taken);
      OnwardTrans(b0, c0, [Apply(WCR, addr, p % 0x100)], [], b1, c1, [Apply(WCR, addr + 1, p / 0x100)], [], bus, chip,
                  PtrSteps(addr, p), []);
    }

    /** Bank 0 is selected and ERDPT set to the read position. */
    method Seek(ghost q: seq<Packet>)
      requires Wf(chip) && rxPtr < 0x1_0000
      modifies `chip, `now, `bus
      ensures Grown(old(chip), chip) && (old(Operates()) ==> Operates())
      ensures old(RingSound()) ==> RingSound()
      ensures old(RingSound()) && q == old(chip).ring.log[taken..] ==> Aligned(chip, rxPtr, taken, q, 0)
      ensures Selected(bus.run) == Known(0)
      ensures Onward(old(bus), old(chip), bus, chip, SelectSteps(0) + PtrSteps(0x00, rxPtr), [])
    {
      hide Sound, Operating, TxQuiet, At, Image, Aligned, Selected, Onward, PtrAt, SameSetup, Bit;
      ghost var c0, b0 := chip, bus;
      SetBank(0);
      ghost var c1, b1 := chip, bus;
      WritePtr(0x00, rxPtr);
      if Sound(c0, rxPtr, taken) { AlignedAtStart(c0, chip, rxPtr, taken); }
      OnwardTrans(b0, c0, SelectSteps(0), [], b1, c1, PtrSteps(0x00, rxPtr), [], bus, chip,
                  SelectSteps(0) + PtrSteps(0x00, rxPtr), []);
    }

    /** The header of the oldest unread packet, with q the packets unread at this moment. */
    method FetchHeader(ghost q: seq<Packet>) returns (nextPtr: nat, frameLen: nat, ghost bytes: seq<byte>)
      requires Wf(chip) && rxPtr < 0x1_0000
      modifies `chip, `now, `bus
      ensures Grown(old(chip), chip) && (old(Operates()) ==> Operates())
      ensures |bytes| == 6 && nextPtr == Short(bytes[0], bytes[1]) && frameLen == Short(bytes[4], bytes[5])
      ensures old(RingSound()) ==> RingSound()
      ensures old(RingSound()) && q != [] && q == old(chip).ring.log[taken..] ==>
                && nextPtr == At(rxPtr, PacketSize(q[0])) && frameLen == |q[0].frame|
                && Aligned(chip, rxPtr, taken, q, 6)
      ensures Selected(bus.run) == Known(0) && Onward(old(bus), old(chip), bus, chip, HeaderSteps(rxPtr), bytes)
    {
      hide Sound, Operating, At, Image, HeaderOf, Short, PacketSize, Aligned, Selected, Onward;
      ghost var c0, b0 := chip, bus;
      Seek(q);
      ghost var aligned := Aligned(chip, rxPtr, taken, q, 0) && q != [];
      if q != [] { ImageBegins(rxPtr, q, 0); }
      ghost var c1, b1 := chip, bus;
      var header := new byte[6];
      ReadBuffer(header, 6, q, 0);
      bytes := header[..6];
      nextPtr, frameLen := Short(header[0], header[1]), Short(header[4], header[5]);
      if aligned { HeaderFound(chip, rxPtr, taken, q, bytes); }
      OnwardTrans(b0, c0, SelectSteps(0) + PtrSteps(0x00, rxPtr), [], b1, c1, Ins(6), bytes, bus, chip,
                  HeaderSteps(rxPtr), bytes);
    }

    /** The last part of PacketReceive: the packet before nextPtr is given back to the hardware. */
    method Release(nextPtr: nat)
      requires Valid() && chip.ring.cnt > 0 && nextPtr < 0x1_0000
      modifies `chip, `now, `bus, `rxPtr, `taken
      ensures Valid() && rxPtr == nextPtr && taken == old(taken) + 1
      ensures old(chip).ring.log <= chip.ring.log && (old(Operates()) ==> Operates())
      ensures chip.ring.rdpt == Ptr(FreeLow(nextPtr), FreeHigh(nextPtr))
      ensures SameSettings(chip.regs, old(chip).regs)
      ensures old(RingSound()) && nextPtr == old(At(rxPtr, PacketSize(chip.ring.log[taken]))) ==>
                if nextPtr != RXSTART then RingSound() && chip.ring.rdpt == nextPtr - 1 else chip.ring.rdpt > RXEND
      ensures Onward(old(bus), old(chip), bus, chip, ReleaseSteps(nextPtr), [])
    {
      hide Idled, Sound, Operating, Grown, WriteCtl, Command, RunHw, PacketSize, At, RingWf, Selected, Onward,
        SameSetup, Dormant, Bit, FreeLow, FreeHigh;
      ghost var c0, b0, rp, sound := chip, bus, rxPtr, RingSound();
      rxPtr := nextPtr;
      taken := taken + 1;
      SetBank(0);
      ghost var c1, s1, b1 := chip, Seen(), bus;
      WriteReg(0x0C, FreeLow(nextPtr));
      ghost var c2, s2, b2 := chip, Seen(), bus;
      WriteReg(0x0D, FreeHigh(nextPtr));
      ghost var c3, s3, b3 := chip, Seen(), bus;
      WriteOp(BFS, 0x1E, 0x40);
      ReleaseEffect(c0, c1, s1, c2, s2, c3, s3, rxPtr, taken);
      if sound && nextPtr == At(rp, PacketSize(c0.ring.log[taken - 1])) {
        TakeKeeps(c0, rp, taken - 1);
        ReleaseKeeps(c0, c1, s1, c2, s2, c3, s3, rxPtr, taken);
      }
      ReleaseOnBus(b0, c0, b1, c1, b2, c2, b3, c3, bus, chip, nextPtr);
    }

    /** EPKTCNT, which is in bank 1. */
    method PendingCount() returns (pktCnt: byte)
      requires Wf(chip)
      modifies `chip, `now, `bus
      ensures Grown(old(chip), chip) && pktCnt == chip.ring.cnt && (old(Operates()) ==> Operates())
      ensures old(RingSound()) ==> RingSound()
      ensures Onward(old(bus), old(chip), bus, chip, CountSteps(), [pktCnt])
    {
      hide Sound, Operating, RingWf, Selected, Onward, TxQuiet, SameSetup, Bit;
      ghost var c0, b0 := chip, bus;
      SetBank(1);
      ghost var c1, b1 := chip, bus;
      pktCnt := ReadReg(0x19);
      OnwardTrans(b0, c0, SelectSteps(1), [], b1, c1, [Query(0x19)], [pktCnt], bus, chip, CountSteps(), [pktCnt]);
    }

    /** The rest of PacketReceive, when there is a packet. */
    method TakePacket(buf: array<byte>, maxlen: nat) returns (pktLen: nat, ghost header: seq<byte>)
      requires Valid() && chip.ring.cnt > 0 && maxlen < 0x1_0000 && maxlen <= buf.Length
      modifies `chip, `now, `bus, `rxPtr, `taken, buf
      ensures Valid() && old(chip).ring.log <= chip.ring.log && (old(Operates()) ==> Operates())
      ensures taken == old(taken) + 1 && SameSettings(chip.regs, old(chip).regs)
      ensures pktLen <= maxlen && buf[pktLen..] == old(buf[pktLen..])
      ensures old(RingSound()) ==>
                var p := chip.ring.log[old(taken)];
                && pktLen == Delivered(|p.frame|, maxlen)
                && (|p.frame| >= 4 ==> buf[..pktLen] == p.frame[..pktLen])
                && rxPtr == At(old(rxPtr), PacketSize(p))
                && if rxPtr != RXSTART then RingSound() && chip.ring.rdpt == rxPtr - 1 else chip.ring.rdpt > RXEND
      ensures |header| == 6 && rxPtr == Short(header[0], header[1])
      ensures pktLen == Delivered(Short(header[4], header[5]), maxlen)
      ensures Onward(old(bus), old(chip), bus, chip, HeaderSteps(old(rxPtr)) + Ins(pktLen) + ReleaseSteps(rxPtr),
                     header + buf[..pktLen])
    {
      hide Sound, Operating, RingWf, At, Image, HeaderOf, PacketSize, Aligned, FreeLow, FreeHigh, Ptr, Onward, Short,
        HeaderSteps, ReleaseSteps, Ins, Selected;
      ghost var q, sound := chip.ring.log[taken..], RingSound();
      ghost var c1, b1, rp := chip, bus, rxPtr;
      var nextPtr, frameLen;
      nextPtr, frameLen, header := FetchHeader(q);
      ghost var c2, b2 := chip, bus;
      pktLen := (frameLen + 0x1_0000 - 4) % 0x1_0000;
      if pktLen > maxlen { pktLen := maxlen; }
      if sound && pktLen <= |q[0].frame| { ImageBegins(rxPtr, q, pktLen); }
      ReadBuffer(buf, pktLen, q, 6);
      ghost var c3, b3 := chip, bus;
      OnwardTrans(b1, c1, HeaderSteps(rp), header, b2, c2, Ins(pktLen), buf[..pktLen], b3, c3,
                  HeaderSteps(rp) + Ins(pktLen), header + buf[..pktLen]);
      Release(nextPtr);
      OnwardTrans(b1, c1, HeaderSteps(rp) + Ins(pktLen), header + buf[..pktLen], b3, c3, ReleaseSteps(nextPtr), [],
                  bus, chip, HeaderSteps(rp) + Ins(pktLen) + ReleaseSteps(nextPtr), header + buf[..pktLen]);
    }

    /** Takes the oldest unread packet, if there is one. On a sound chip the bytes are those of its frame, whatever
        the hardware does meanwhile; afterwards the whole buffer but for the other unread packets is free and the chip
        sound, unless the next packet starts at RXSTART. From any bank, the function acts as on a flat file of named
        registers, and uses the bytes that it is shown. All this also holds, at every moment of the run, for a ring that
        is not guarded, as long as everything fits in it; and the next release then guards it again. */
    method PacketReceive(buf: array<byte>, maxlen: nat) returns (pktLen: nat)
      requires Valid() && maxlen < 0x1_0000 && maxlen <= buf.Length
      modifies `chip, `now, `bus, `rxPtr, `taken, buf
      ensures Valid() && old(chip).ring.log <= chip.ring.log && (old(Operates()) ==> Operates())
      ensures taken == old(taken) || taken == old(taken) + 1
      ensures old(taken < |chip.ring.log|) ==> taken == old(taken) + 1
      ensures taken == old(taken) ==>
                pktLen == 0 && buf[..] == old(buf[..]) && rxPtr == old(rxPtr) && (old(RingSound()) ==> RingSound())
      ensures pktLen <= maxlen && buf[pktLen..] == old(buf[pktLen..])
      ensures taken == old(taken) + 1 && old(RingSound()) ==>
                var p := chip.ring.log[old(taken)];
                && pktLen == Delivered(|p.frame|, maxlen)
                && (|p.frame| >= 4 ==> buf[..pktLen] == p.frame[..pktLen])
                && rxPtr == At(old(rxPtr), PacketSize(p))
                && if rxPtr != RXSTART then RingSound() && chip.ring.rdpt == rxPtr - 1 else chip.ring.rdpt > RXEND
      ensures bus.origin == old(chip) && ActsFlat(bus, chip)
      ensures Steps(bus.run) == ReceiveSteps(old(rxPtr), maxlen, BytesOf(bus))
      ensures taken == old(taken) ==> BytesOf(bus) == [0]
      ensures taken == old(taken) + 1 ==> ReceiveBytes(BytesOf(bus), rxPtr, maxlen, buf[..pktLen])
      ensures FreedIn(bus.run) <==> taken == old(taken) + 1
      ensures SameSettings(chip.regs, old(chip).regs)
      ensures old(Operates()) ==> Quiet(old(chip), chip)
      ensures old(RingHeld()) ==>
                && HeldByRoom(bus, old(rxPtr), old(taken), rxPtr,
                              old(chip).ring.rdpt <= RXEND && (taken == old(taken) + 1 ==> rxPtr != RXSTART))
                && (Roomy(old(chip), bus.run, old(taken)) ==>
                      && RingHeld()
                      && (taken == old(taken) + 1 ==>
                            Takes(chip, old(rxPtr), old(taken), rxPtr, maxlen, buf[..pktLen])))
    {
      hide Sound, Operating, RingWf, At, Image, HeaderOf, PacketSize, Aligned, FreeLow, FreeHigh, Ptr, Onward, ActsFlat,
        OnBus, RunBanked, BytesOf, Steps, Short, ReceiveSteps, ReceiveBytes, HeaderSteps, ReleaseSteps, Ins, Selected,
        Held, Roomy, HeldByRoom, Takes, Quiet, CountSteps, FreedIn;
      ghost var c0, b0, rp := chip, Bus(chip, []), rxPtr;
      bus := b0;
      var pktCnt := PendingCount();
      if pktCnt == 0 {
        OnwardFrom(c0, bus, chip, CountSteps(), [0]);
        NothingReceived(rp, maxlen);
        NothingKept(bus, chip, rp, taken, maxlen);
        return 0;
      }
      ghost var c1, b1 := chip, bus;
      ghost var header;
      pktLen, header := TakePacket(buf, maxlen);
      ReceivedOnBus(c0, b1, c1, bus, chip, rp, maxlen, pktCnt, header, buf[..pktLen]);
      TakenKept(bus, chip, rp, taken - 1, maxlen, rxPtr, buf[..pktLen]);
    }

    /** Polls a register until the masked bits are clear, or more than `limit` ticks have passed since t was read at
        `start`. It ends, after a bounded number of polls, also when the tick wraps meanwhile. */
    method AwaitClear(addr: byte, mask: byte, t: word, limit: nat, ghost start: nat) returns (ghost polls: seq<byte>)
      requires Wf(chip) && ClockOk(clock, period) && limit <= MAX_WAIT
      requires addr % 32 == ECON1 ==> mask % 4 == 0
      requires start <= now <= start + 2 && t == clock(start) % WORD
      modifies `chip, `now, `bus
      ensures Idled(old(chip), chip, rxPtr, taken) && Wf(chip)
      ensures Bank(chip) == Bank(old(chip)) && Grown(old(chip), chip)
      ensures old(Dormant(chip)) ==> Dormant(chip) && chip.ring == old(chip).ring && chip.sent == old(chip).sent
      ensures SameSetup(chip.regs, old(chip).regs)
      ensures And(ReadCtl(chip, Slot(Bank(chip), addr % 32)), mask) == 0 || clock(now) - clock(start) > limit
      ensures old(now) < now <= start + (limit + 1) * period + 3
      ensures Selected(bus.run) == old(Selected(bus.run))
      ensures Polled(polls, mask, clock(now) - clock(start) > limit)
      ensures old(Named(Selected(bus.run), addr % 32)) ==>
                Onward(old(bus), old(chip), bus, chip, Polls(addr % 32, |polls|), polls)
    {
      hide Idled, Sound, Grown, Dormant, SameSetup, ClockOk, Since, ReadCtl, And, RingWf, Bit, Selected, Named, Onward,
        Shown, Slot, PolledTo, Polled, Polls;
      ghost var c0, b0, a: Address := chip, bus, addr % 32;
      var v := ReadReg(addr);
      polls := [Shown(a, v)];
      PolledFirst(a, mask, v);
      ClockGrows(clock, period, start, now);
      ghost var first, turn := now, (clock(now) - clock(start)) / WORD;
      while And(v, mask) != 0
        invariant Idled(c0, chip, rxPtr, taken) && Wf(chip) && Bank(chip) == Bank(c0)
        invariant v == ReadCtl(chip, Slot(Bank(chip), addr % 32))
        invariant first <= now <= first + (limit + 1) * period
        invariant clock(start) <= clock(first) && turn * WORD <= clock(first) - clock(start)
        invariant turn * WORD <= clock(now) - clock(start) < turn * WORD + WORD
        invariant Selected(bus.run) == Selected(b0.run) && PolledTo(polls, mask, v)
        invariant Named(Selected(b0.run), a) ==> Onward(b0, c0, bus, chip, Polls(a, |polls|), polls)
        decreases first + (limit + 1) * period - now
      {
        var tick := GetTick();
        SinceInTurn(clock(start), clock(now), turn);
        if Since(tick, t) > limit { break; }
        StillWaiting(clock, period, first, now, limit);
        ghost var c, b, x := chip, bus, v;
        v := ReadReg(addr);
        ClockStep(clock, period, now - 1);
        IdledTrans(c0, c, chip, rxPtr, taken);
        if Named(Selected(b0.run), a) { PollOnBus(b0, c0, b, c, bus, chip, a, polls, Shown(a, v)); }
        PolledMore(polls, a, mask, x, v);
        polls := polls + [Shown(a, v)];
      }
      IdledMeans(c0, chip, rxPtr, taken);
      PolledOver(polls, mask, v, clock(now) - clock(start) > limit);
    }

    /** One byte of a buffer write: it comes behind those in the transmit buffer. */
    method WriteByte(b: byte, ghost sent: seq<seq<byte>>, ghost bytes: seq<byte>)
      requires Wf(chip)
      modifies `chip, `now, `bus
      ensures Filled(old(chip), chip) && old(now) <= now
      ensures old(TxHolds(chip, sent, bytes)) && |bytes| <= MAXTX ==>
                TxHolds(chip, sent, bytes + [b]) && (old(RingSound()) ==> RingSound())
      ensures Selected(bus.run) == old(Selected(bus.run)) && Onward(old(bus), old(chip), bus, chip, [Out(b)], [])
    {
      hide Sound, Filled, TxHolds, BufWrite, RunHw, Selected, Onward;
      ghost var c, events := chip, env(now);
      Elapse();
      ByteWritten(c, chip, rxPtr, taken, sent, bytes, b);
      chip := BufWrite(chip, b);
      OnwardStep(bus, c, events, Out(b));
      bus := Extended(bus, events, Out(b));
    }

    /** The buffer write of SendPacket: the control byte and then the frame, from EWRPT on. */
    method FillTx(buf: array<byte>, len: nat)
      requires Wf(chip) && len <= buf.Length
      modifies `chip, `now, `bus
      ensures Filled(old(chip), chip) && old(now) <= now
      ensures old(Operates() && !Flag(chip, ECON1, TXRTS) && PtrAt(chip, EWRPTL) == TXSTART) && len <= MAXTX ==>
                TxHolds(chip, old(chip).sent, [0] + buf[..len]) && Operates() && (old(RingSound()) ==> RingSound())
      ensures Selected(bus.run) == old(Selected(bus.run))
      ensures Onward(old(bus), old(chip), bus, chip, Outs([0] + buf[..len]), [])
    {
      ghost var c0, b0, sent, sound := chip, bus, chip.sent, RingSound();
      ghost var fits := TxHolds(chip, sent, []) && len <= MAXTX;
      assert Operates() && !Flag(chip, ECON1, TXRTS) && PtrAt(chip, EWRPTL) == TXSTART && len <= MAXTX ==> fits;
      hide Filled, TxHolds, Sound, Operating, PtrAt, Bit, Selected, Onward;
      WriteByte(0, sent, []);
      assert [] + [0] == [0] + buf[..0] && [Out(0)] == Outs([0] + buf[..0]);
      for i := 0 to len
        invariant Wf(chip) && Filled(c0, chip) && old(now) <= now
        invariant fits ==> TxHolds(chip, sent, [0] + buf[..i]) && (sound ==> RingSound())
        invariant Selected(bus.run) == Selected(b0.run) && Onward(b0, c0, bus, chip, Outs([0] + buf[..i]), [])
      {
        ghost var c, b := chip, bus;
        WriteByte(buf[i], sent, [0] + buf[..i]);
        FilledTrans(c0, c, chip);
        assert [0] + buf[..i] + [buf[i]] == [0] + buf[..i + 1];
        OnwardTrans(b0, c0, Outs([0] + buf[..i]), [], b, c, [Out(buf[i])], [], bus, chip,
                    Outs([0] + buf[..i + 1]), []);
      }
      if fits { TxOperates(chip, sent, [0] + buf[..len]); }
    }

    /** Any transmission is cancelled, and bank 0 selected. c1 is the chip between the two. */
    method CancelTx() returns (ghost c1: Chip)
      requires Wf(chip)
      modifies `chip, `now, `bus
      ensures Wf(chip) && Wf(c1) && Grown(old(chip), chip) && Bank(chip) == 0 && !Flag(chip, ECON1, TXRTS)
      ensures old(now) <= now
      ensures old(Operates()) ==> Operates() && OldSentOnly(old(chip), c1) && TxStill(c1, chip)
      ensures old(RingSound()) ==> RingSound()
      ensures Selected(bus.run) == Known(0)
      ensures Onward(old(bus), old(chip), bus, chip, [Apply(BFC, 0x1F, 0x08)] + SelectSteps(0), [])
    {
      hide Idled, Sound, Operating, Command, RunHw, OldSentOnly, TxStill, RingWf, Selected, Onward, SameSetup;
      ghost var operating, sound, c0, s0, b0 := Operates(), RingSound(), chip, Seen(), bus;
      WriteOp(BFC, 0x1F, 0x08);
      Cancelled(c0, s0, rxPtr, taken);
      c1 := chip;
      ghost var b1 := bus;
      SetBank(0);
      if operating { StillIdle(c1, chip, rxPtr, taken); }
      if sound { SoundLater(c1, chip, rxPtr, taken); }
      OnwardTrans(b0, c0, [Apply(BFC, 0x1F, 0x08)], [], b1, c1, SelectSteps(0), [], bus, chip,
                  [Apply(BFC, 0x1F, 0x08)] + SelectSteps(0), []);
    }

    /** The first part of SendPacket: any transmission is cancelled and the frame is put in place. */
    method LoadFrame(buf: array<byte>, len: nat)
      requires Wf(chip) && len <= buf.Length && len < 0x1_0000
      modifies `chip, `now, `bus
      ensures Wf(chip) && Grown(old(chip), chip) && Bank(chip) == 0 && !Flag(chip, ECON1, TXRTS)
      ensures old(now) <= now
      ensures old(Operates()) && len <= MAXTX ==>
                && Operates() && Loaded(chip, buf[..len]) && OldSentOnly(old(chip), chip)
                && (old(RingSound()) ==> RingSound())
      ensures Selected(bus.run) == Known(0) && Onward(old(bus), old(chip), bus, chip, LoadSteps(buf[..len]), [])
    {
      hide Idled, Sound, Operating, RunHw, TxFrame, Loaded, OldSentOnly, TxStill, TxHolds, RingWf, Selected,
        Onward, LoadSteps, Bit, Ptr;
      ghost var operating, c0, b0 := Operates(), chip, bus;
      ghost var c1 := CancelTx();
      ghost var c2, b2 := chip, bus;
      WritePtr(0x04, TXSTART);
      ghost var c3, b3 := chip, bus;
      WritePtr(0x02, TXSTART);
      ghost var c4, b4 := chip, bus;
      FillTx(buf, len);
      ghost var c5, b5 := chip, bus;
      var txEnd := (TXSTART + len) % 0x1_0000;
      WritePtr(0x06, txEnd);
      if operating && len <= MAXTX { FrameLoaded(c0, c1, c2, c3, c4, c5, chip, buf[..len]); }
      LoadedOnBus(b0, c0, b2, c2, b3, c3, b4, c4, b5, c5, bus, chip, buf[..len]);
    }

    /** The last part of SendPacket: TXRTS is set, and polled. */
    method Transmit(ghost frame: seq<byte>) returns (ghost start: nat, ghost started: Chip, ghost polls: seq<byte>)
      requires Wf(chip) && ClockOk(clock, period) && !Flag(chip, ECON1, TXRTS)
      modifies `chip, `now, `bus
      ensures Grown(old(chip), chip)
      ensures !Flag(chip, ECON1, TXRTS) || clock(now) - clock(start) > 200
      ensures old(now) <= start <= now <= start + 201 * period + 3
      ensures Idled(started, chip, rxPtr, taken)
      ensures old(Operates() && Loaded(chip, frame)) ==>
                && Flag(started, ECON1, TXRTS) && Loaded(started, frame) && started.sent == old(chip).sent
                && Operating(started)
                && Operates() && Loaded(chip, frame)
                && (chip.sent == started.sent || chip.sent == started.sent + [frame])
      ensures old(RingSound() && Loaded(chip, frame)) ==> RingSound()
      ensures Polled(polls, 0x08, clock(now) - clock(start) > 200)
      ensures Onward(old(bus), old(chip), bus, chip, StartSteps(|polls|), polls)
    {
      hide Idled, Sound, Operating, Command, RunHw, Loaded, TxFrame, Onward, Polled, Selected, SameSetup,
        Bit, And, Dormant;
      ghost var c0, s0, b0 := chip, Seen(), bus;
      ghost var fits, sound := Operates() && Loaded(chip, frame), RingSound() && Loaded(chip, frame);
      WriteOp(BFS, 0x1F, 0x08);
      Started(c0, s0, rxPtr, taken, frame);
      var t := GetTick();
      start, started := now, chip;
      ghost var b1 := bus;
      SetBank(0);
      ghost var c2, b2 := chip, bus;
      polls := AwaitClear(0x1F, 0x08, t, 200, start);
      IdledTrans(started, c2, chip, rxPtr, taken);
      TxrtsBit(chip);
      if fits { Transmitted(started, chip, rxPtr, taken, frame); }
      if sound { SoundLater(started, chip, rxPtr, taken); }
      StartedOnBus(b0, c0, b1, started, b2, c2, bus, chip, polls);
    }

    /** The two parts of SendPacket: the chip is c1 and the bus b1 when the frame is loaded. */
    method LoadAndStart(buf: array<byte>, len: nat)
      returns (ghost start: nat, ghost started: Chip, ghost b1: Bus, ghost c1: Chip, ghost polls: seq<byte>)
      requires Wf(chip) && ClockOk(clock, period) && len <= buf.Length && len < 0x1_0000
      modifies `chip, `now, `bus
      ensures Grown(old(chip), chip)
      ensures !Flag(chip, ECON1, TXRTS) || clock(now) - clock(start) > 200
      ensures old(now) <= start <= now <= start + 201 * period + 3
      ensures Idled(started, chip, rxPtr, taken)
      ensures old(Operates()) && len <= MAXTX ==>
                && Flag(started, ECON1, TXRTS) && Loaded(started, buf[..len]) && OldSentOnly(old(chip), started)
                && Operates() && Loaded(chip, buf[..len]) && Operating(started)
                && (chip.sent == started.sent || chip.sent == started.sent + [buf[..len]])
      ensures old(RingSound()) && len <= MAXTX ==> RingSound()
      ensures Polled(polls, 0x08, clock(now) - clock(start) > 200)
      ensures Onward(old(bus), old(chip), b1, c1, LoadSteps(buf[..len]), [])
      ensures Onward(b1, c1, bus, chip, StartSteps(|polls|), polls)
    {
      ghost var c0, frame := chip, buf[..len];
      ghost var fits, sound := Operates() && len <= MAXTX, RingSound() && len <= MAXTX;
      assert sound ==> fits;
      hide Idled, Sound, Operating, Loaded, OldSentOnly, Onward, LoadSteps, StartSteps, Polled, Selected, ClockOk;
      LoadFrame(buf, len);
      b1, c1 := bus, chip;
      start, started, polls := Transmit(frame);
      if fits { OldSentStays(c0, c1, started); }
    }

    /** Loads the frame into the transmit buffer, starts the transmission and waits for its end, or for 200 ms. On a
        chip in operation, wherever ERXRDPT points, nothing but this frame goes out from then on, and a sound receive
        side stays sound: `started` is the chip at the moment when TXRTS has been set, and `start` the time. From any
        bank, the function acts as on a flat file of named registers, and polls until it is shown TXRTS clear. */
    method SendPacket(buf: array<byte>, len: nat) returns (ghost start: nat, ghost started: Chip)
      requires Valid() && ClockOk(clock, period) && len <= buf.Length && len < 0x1_0000
      modifies `chip, `now, `bus
      ensures Valid() && old(chip).ring.log <= chip.ring.log
      ensures !Flag(chip, ECON1, TXRTS) || clock(now) - clock(start) > 200
      ensures old(now) <= start <= now <= start + 201 * period + 3
      ensures Idled(started, chip, rxPtr, taken)
      ensures old(Operates()) && len <= MAXTX ==>
                && Flag(started, ECON1, TXRTS) && Loaded(started, buf[..len]) && OldSentOnly(old(chip), started)
                && Operates() && Loaded(chip, buf[..len])
                && (chip.sent == started.sent || chip.sent == started.sent + [buf[..len]])
      ensures old(Operates()) && len <= MAXTX ==> Operating(started)
      ensures old(RingSound()) && len <= MAXTX ==> RingSound()
      ensures len <= MAXTX ==> WritesAbove(bus)
      ensures !FreedIn(bus.run) && SameSettings(chip.regs, old(chip).regs)
      ensures old(RingHeld()) && len <= MAXTX ==>
                && HeldByRoom(bus, rxPtr, taken, rxPtr, old(chip).ring.rdpt <= RXEND)
                && (Roomy(old(chip), bus.run, taken) ==> RingHeld())
      ensures bus.origin == old(chip) && ActsFlat(bus, chip)
      ensures Steps(bus.run) == SendSteps(buf[..len], |BytesOf(bus)|)
      ensures Polled(BytesOf(bus), 0x08, clock(now) - clock(start) > 200)
    {
      ghost var c0, frame := chip, buf[..len];
      hide Idled, Sound, Operating, Loaded, OldSentOnly, Onward, ActsFlat, OnBus, BytesOf, Steps, SendSteps, LoadSteps,
        Polled, Held, Roomy, HeldByRoom, WritesAbove, FreedIn, StartSteps, ClockOk;
      bus := Bus(chip, []);
      ghost var b1, c1, polls;
      start, started, b1, c1, polls := LoadAndStart(buf, len);
      SendConcludes(c0, b1, c1, bus, chip, frame, polls, rxPtr, taken);
    }

    /** The receive buffer boundaries, as Init sets them. */
    method SetRxRing()
      requires Wf(chip) && Dormant(chip)
      modifies `chip, `now, `bus
      ensures Wf(chip) && Dormant(chip) && chip.ring == old(chip).ring.(st := RXSTART, nd := RXEND, wr := RXSTART)
      ensures chip.sent == old(chip).sent
    {
      hide Idled, Dormant, Grown, SameSetup, Selected, Onward, WriteCtl, RunHw, Wf, Bit;
      SetBank(0);
      ghost var c0, s0 := chip, Seen();
      WriteReg(0x08, RXSTART % 0x100);
      ghost var c1, s1 := chip, Seen();
      WriteReg(0x09, RXSTART / 0x100);
      ghost var c2, s2 := chip, Seen();
      WriteReg(0x0A, RXEND % 0x100);
      ghost var c3, s3 := chip, Seen();
      WriteReg(0x0B, RXEND / 0x100);
      DormantLater(c0, s0, rxPtr, taken);
      BoundsWritten(s0, c1, s1, c2, s2, c3, s3, rxPtr, taken);
    }

    /** WriteReg on a register that only holds a value, outside the buffer pointers. The registers for setting up are
        those of r before, and of r' after. */
    method WriteSetup(addr: byte, data: byte, ghost r: seq<byte>) returns (ghost r': seq<byte>)
      requires Wf(chip) && SetupSlot(Slot(Bank(chip), addr % 32)) && SameSetup(chip.regs, r)
      modifies `chip, `now, `bus
      ensures Wf(chip) && Bank(chip) == Bank(old(chip)) && now == old(now) + 1
      ensures old(Dormant(chip)) ==> Dormant(chip) && chip.ring == old(chip).ring && chip.sent == old(chip).sent
      ensures r' == r[Slot(Bank(old(chip)), addr % 32) := data] && SameSetup(chip.regs, r')
    {
      WriteReg(addr, data);
      r' := r[Slot(Bank(old(chip)), addr % 32) := data];
    }

    /** The MAC registers, as Init sets them. */
    method SetMac()
      requires Wf(chip) && Dormant(chip)
      modifies `chip, `now, `bus
      ensures Wf(chip) && Dormant(chip) && chip.ring == old(chip).ring && chip.sent == old(chip).sent
      ensures SameSetup(chip.regs, old(chip).regs[MACON1 := 0x0D][MACON3 := 0xF3][MACON4 := 0x40]
                                                 [MAMXFLL := 0xEE][MAMXFLH := 0x05])
    {
      hide Idled, Dormant, Grown, SameSetup, Selected, Onward, WriteCtl, RunHw, Wf, Bank, Bit, Flag;
      ghost var r := chip.regs;
      SetBank(2);
      r := WriteSetup(0x00, 0x0D, r);
      r := WriteSetup(0x02, 0xF3, r);
      r := WriteSetup(0x03, 0x40, r);
      r := WriteSetup(0x0A, 0xEE, r);
      r := WriteSetup(0x0B, 0x05, r);
    }

    /** The MAC address, as Init sets it. */
    method SetAddress(macAddr: seq<byte>)
      requires Wf(chip) && Dormant(chip) && |macAddr| == 6
      modifies `chip, `now, `bus
      ensures Wf(chip) && Dormant(chip) && chip.ring == old(chip).ring && chip.sent == old(chip).sent
      ensures SameSetup(chip.regs,
                        old(chip).regs[MAADR + 4 := macAddr[0]][MAADR + 5 := macAddr[1]][MAADR := macAddr[2]]
                                      [MAADR + 1 := macAddr[3]][MAADR + 2 := macAddr[4]][MAADR + 3 := macAddr[5]])
    {
      hide Idled, Dormant, Grown, SameSetup, Selected, Onward, WriteCtl, RunHw, Wf, Bank, Bit, Flag;
      ghost var r := chip.regs;
      SetBank(3);
      r := WriteSetup(0x04, macAddr[0], r);
      r := WriteSetup(0x05, macAddr[1], r);
      r := WriteSetup(0x00, macAddr[2], r);
      r := WriteSetup(0x01, macAddr[3], r);
      r := WriteSetup(0x02, macAddr[4], r);
      r := WriteSetup(0x03, macAddr[5], r);
    }

    /** The wait of ReadPHY and WritePHY: until MISTAT.BUSY is clear, or for 100 ms. */
    method AwaitMii(ghost r: seq<byte>) returns (ghost start: nat)
      requires Wf(chip) && ClockOk(clock, period) && SameSetup(chip.regs, r)
      modifies `chip, `now, `bus
      ensures Wf(chip)
      ensures old(Dormant(chip)) ==> Dormant(chip) && chip.ring == old(chip).ring && chip.sent == old(chip).sent
      ensures Bank(chip) == 3 && SameSetup(chip.regs, r)
      ensures And(chip.regs[MISTAT], 0x01) == 0 || clock(now) - clock(start) > 100
      ensures old(now) <= start <= now <= start + 101 * period + 3
    {
      hide Idled, Dormant, Grown, SameSetup, Selected, Onward, WriteCtl, RunHw, Wf, ClockOk, And, Bit;
      ghost var c1 := chip;
      SetBank(3);
      ghost var c2 := chip;
      var t := GetTick();
      start := now;
      ghost var polls := AwaitClear(0x0A, 0x01, t, 100, start);
      SetupTrans(chip.regs, c2.regs, c1.regs);
      SetupTrans(chip.regs, c1.regs, r);
    }

    /** Writes a PHY register through the MII registers and waits until the MII is idle, or for 100 ms. */
    method WritePHY(phyAddr: byte, data: nat) returns (ghost start: nat)
      requires Wf(chip) && ClockOk(clock, period) && data < 0x1_0000
      modifies `chip, `now, `bus
      ensures Wf(chip)
      ensures old(Dormant(chip)) ==> Dormant(chip) && chip.ring == old(chip).ring && chip.sent == old(chip).sent
      ensures Bank(chip) == 3
      ensures SameSetup(chip.regs, old(chip).regs[MIREGADR := phyAddr][MIWRL := data % 0x100][MIWRH := data / 0x100])
      ensures And(chip.regs[MISTAT], 0x01) == 0 || clock(now) - clock(start) > 100
      ensures old(now) <= start <= now <= start + 101 * period + 3
    {
      hide Idled, Dormant, Grown, SameSetup, Selected, Onward, WriteCtl, RunHw, Wf, ClockOk, And, Bit;
      ghost var r := chip.regs;
      SetBank(2);
      r := WriteSetup(0x14, phyAddr, r);
      r := WriteSetup(0x16, data % 0x100, r);
      r := WriteSetup(0x17, data / 0x100, r);
      start := AwaitMii(r);
    }

    /** Reads a PHY register; the wait is that of WritePHY, over at `end`, when the chip is `waited`. MIRDL is read when
        it is `low`, and MIRDH last. */
    method ReadPHY(phyAddr: byte)
      returns (val: nat, ghost start: nat, ghost end: nat, ghost waited: Chip, ghost low: Chip)
      requires Wf(chip) && ClockOk(clock, period)
      modifies `chip, `now, `bus
      ensures Wf(chip) && val < 0x1_0000
      ensures SameSetup(chip.regs, old(chip).regs[MIREGADR := phyAddr][MICMD := 0])
      ensures old(now) <= start <= end <= start + 101 * period + 3 && end <= now
      ensures Wf(waited) && SameSetup(waited.regs, old(chip).regs[MIREGADR := phyAddr][MICMD := 1])
      ensures And(waited.regs[MISTAT], 0x01) == 0 || clock(end) - clock(start) > 100
      ensures Wf(low) && low.regs[MICMD] == 0 && Bank(low) == 2 && Bank(chip) == 2
      ensures val == Reply(low, 0x18) + 0x100 * Reply(chip, 0x19)
    {
      ghost var r := chip.regs;
      assert |r| == 128;
      hide Dormant, SameSetup, RunHw, Wf, ClockOk, And, Bit, Reply, Bank;
      RequestRead(phyAddr);
      start := AwaitMii(r[MIREGADR := phyAddr][MICMD := 1]);
      end, waited := now, chip;
      val, low := FinishRead(r[MIREGADR := phyAddr][MICMD := 1]);
      UpdateAgain(r[MIREGADR := phyAddr], MICMD, 1, 0);
    }

    /** The first part of ReadPHY: the read is started. */
    method RequestRead(phyAddr: byte)
      requires Wf(chip)
      modifies `chip, `now, `bus
      ensures Wf(chip) && SameSetup(chip.regs, old(chip).regs[MIREGADR := phyAddr][MICMD := 1])
      ensures old(now) <= now
    {
      hide Idled, Dormant, Grown, SameSetup, Selected, Onward, WriteCtl, RunHw, Wf, Bit;
      ghost var r := chip.regs;
      SetBank(2);
      r := WriteSetup(0x14, phyAddr, r);
      r := WriteSetup(0x12, 0x01, r);
    }

    /** The last part of ReadPHY: MICMD is cleared, and MIRDL and MIRDH are read. */
    method FinishRead(ghost r: seq<byte>) returns (val: nat, ghost low: Chip)
      requires Wf(chip) && SameSetup(chip.regs, r)
      modifies `chip, `now, `bus
      ensures Wf(chip) && val < 0x1_0000 && SameSetup(chip.regs, r[MICMD := 0]) && old(now) <= now
      ensures Wf(low) && low.regs[MICMD] == 0 && Bank(low) == 2 && Bank(chip) == 2
      ensures val == Reply(low, 0x18) + 0x100 * Reply(chip, 0x19)
    {
      hide SameSetup, Selected, Onward, Short, ReadCtl, RingWf, Grown, Idled, Bit, RunHw;
      ghost var c1 := chip;
      SetBank(2);
      SetupTrans(chip.regs, c1.regs, r);
      ghost var r' := WriteSetup(0x12, 0x00, r);
      ghost var c2 := chip;
      var lo := ReadReg(0x18);
      low := chip;
      var hi := ReadReg(0x19);
      SetupTrans(low.regs, c2.regs, r');
      SetupTrans(chip.regs, low.regs, r');
      SetupAt(low.regs, r', MICMD);
      val := Short(lo, hi);
    }

    /** The reset command. */
    method SoftReset()
      requires Wf(chip) && resetRdpt < SRAM
      modifies `chip, `now, `bus, `taken
      ensures Wf(chip) && Dormant(chip) && chip.ring.rdpt == resetRdpt && chip.ring.log == [] && taken == 0
      ensures chip.sent == old(Seen()).sent
    {
      Elapse();
      DormantReset(chip, resetRdpt);
      chip := Reset(chip, resetRdpt);
      taken, bus := 0, Bus(chip, []);
    }

    /** The last step of Init: bank 0 and ECON1.RXEN. */
    method EnableRx()
      requires Wf(chip) && Dormant(chip) && taken == 0 && rxPtr < 0x1_0000
      requires chip.ring.st == RXSTART && chip.ring.nd == RXEND && chip.ring.wr == RXSTART
      modifies `chip, `now, `bus
      ensures Valid() && chip.ring == old(chip).ring && SameSetup(chip.regs, old(chip).regs)
      ensures Operates() && (RingSound() <==> rxPtr == RXSTART && chip.ring.rdpt <= RXEND)
      ensures chip.sent == old(chip).sent && !Flag(chip, ECON1, TXRTS)
    {
      ghost var c0 := chip;
      assert Wf(c0) && c0.ring.cnt == 0 && c0.ring.log == [];
      hide Idled, Sound, Operating, Dormant, Grown, SameSetup, Command, RunHw, Wf, Bit, Bank, Selected, Onward;
      SetBank(0);
      ghost var c, s := chip, Seen();
      WriteOp(BFS, 0x1F, 0x04);
      Enabled(c0, c, s, rxPtr, taken);
    }

    /** Sets the chip up and starts the reception. The buffer is empty, and the chip sound just when ERXRDPT comes up in
        the ring and rxPtr, which is not reset, is at its start: as it is the first time. */
    method Init(macAddr: seq<byte>)
      requires Wf(chip) && ClockOk(clock, period) && rxPtr < 0x1_0000 && resetRdpt < SRAM && |macAddr| == 6
      modifies `chip, `now, `bus, `taken
      ensures Valid() && taken == 0 && chip.ring.log == [] && chip.ring.rx.Idle?
      ensures rxPtr == old(rxPtr) && chip.ring.rdpt == resetRdpt
      ensures chip.sent == old(Seen()).sent && !Flag(chip, ECON1, TXRTS)
      ensures Operates() && (RingSound() <==> rxPtr == RXSTART && resetRdpt <= RXEND)
      ensures chip.ring.st == 0x0000 && chip.ring.nd == 0x0BFF && chip.ring.wr == 0x0000
      ensures Programmed(chip.regs, macAddr)
    {
      hide Idled, Sound, Operating, Dormant, Grown, SameSetup, Programmed, RunHw, RingWf, ClockOk, Onward, Selected;
      SoftReset();
      SetRxRing();
      ghost var r0 := chip.regs;
      SetMac();
      ghost var r1 := chip.regs;
      SetAddress(macAddr);
      ghost var r2 := chip.regs;
      var phy := WritePHY(0x00, 0x0100);
      ghost var r3 := chip.regs;
      SetBank(1);
      ghost var r4 := WriteSetup(0x18, 0x00, r3);
      ghost var r5 := chip.regs;
      EnableRx();
      SetupTrans(chip.regs, r5, r4);
      ProgrammedIn(r0, r1, r2, r3, chip.regs, macAddr);
    }
  }

  /** The six octets of the station address, in the order in which they go over the wire: the registers are laid out
      as MAADR5, MAADR6, MAADR3, MAADR4, MAADR1, MAADR2 (DS39662, table 3-1). */
  function StationAddress(regs: seq<byte>): seq<byte>
    requires |regs| == 128
  {
    [regs[MAADR + 4], regs[MAADR + 5], regs[MAADR + 2], regs[MAADR + 3], regs[MAADR], regs[MAADR + 1]]
  }

  /** Init writes the last four octets in pairs the wrong way round: the chip has the address that was meant exactly
      when the two pairs are alike. */
  lemma AddressExactly(regs: seq<byte>, macAddr: seq<byte>)
    requires |regs| == 128 && |macAddr| == 6 && Programmed(regs, macAddr)
    ensures StationAddress(regs) == macAddr <==> macAddr[2..4] == macAddr[4..6]
  {
    hide Short;
    assert forall i :: 0 <= i < 6 ==> regs[MAADR..MAADR + 6][i] == (macAddr[2..] + macAddr[..2])[i];
    assert StationAddress(regs) == macAddr[..2] + macAddr[4..6] + macAddr[2..4];
    assert macAddr == macAddr[..2] + macAddr[2..4] + macAddr[4..6];
  }

  /** With the address of this firmware, 02:00:00:11:22:33, they are not: the chip has another one. */
  lemma FirmwareAddress(regs: seq<byte>)
    requires |regs| == 128 && Programmed(regs, [0x02, 0x00, 0x00, 0x11, 0x22, 0x33])
    ensures StationAddress(regs) == [0x02, 0x00, 0x22, 0x33, 0x00, 0x11] != [0x02, 0x00, 0x00, 0x11, 0x22, 0x33]
  {
    hide Short;
    var mac: seq<byte> := [0x02, 0x00, 0x00, 0x11, 0x22, 0x33];
    var there := regs[MAADR..MAADR + 6];
    assert mac[2..] + mac[..2] == [0x00, 0x11, 0x22, 0x33, 0x02, 0x00];
    assert there == [0x00, 0x11, 0x22, 0x33, 0x02, 0x00];
    assert StationAddress(regs) == [there[4], there[5], there[2], there[3], there[0], there[1]];
    assert StationAddress(regs)[2] != mac[2];
  }

  /** The length handed on is the frame without its four FCS bytes, cut to the buffer, exactly for frames that have
      four bytes: for a shorter one the subtraction wraps, to a length that only a longer buffer would hold. */
  lemma DeliveredExactly(frameLen: nat, maxlen: nat)
    requires frameLen < 0x1_0000 && maxlen < 0x1_0000
    ensures var wanted := if frameLen < 4 then 0 else if frameLen - 4 < maxlen then frameLen - 4 else maxlen;
      Delivered(frameLen, maxlen) == wanted <==> frameLen >= 4 || maxlen == 0
    ensures frameLen < 4 ==>
              Delivered(frameLen, maxlen) == if maxlen < 0xFFFC + frameLen then maxlen else 0xFFFC + frameLen
  {
  }
}
