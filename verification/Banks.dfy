/** SPI command bytes and the selection of a register bank: from any bank, the driver reaches the register it names. */
module Enc28Banks {
  import opened Bits
  import opened Enc28Chip
  import opened RxRing
  import opened RxHardware

  const WCR := 0x40
  const BFS := 0x80
  const BFC := 0xA0

  /** The command byte: opcode and the low five address bits side by side. */
  lemma CommandByte(op: byte, addr: byte)
    requires op % 32 == 0
    ensures OrByte(op, AndByte(addr, 0x1F)) == op + addr % 32
  {
    MaskFive(addr);
    JoinFive(op / 32, addr % 32);
  }

  lemma JoinFive(k: nat, low: nat)
    requires low < 32
    ensures Or(32 * k, low) == 32 * k + low
  {
    var p := Pow2(5);
    assert p == 32;
    OrDisjoint(k, low, 5);
    assert k * p == 32 * k;
  }

  lemma JoinTwo(k: nat, low: nat)
    requires low < 4
    ensures Or(4 * k, low) == 4 * k + low
  {
    var p := Pow2(2);
    assert p == 4;
    OrDisjoint(k, low, 2);
    assert k * p == 4 * k;
  }

  lemma BankArgument(bank: byte)
    ensures AndByte(bank, 0x03) == bank % 4
  {
    MaskTwo(bank);
  }

  /** A change of the bank bits alone. */
  lemma BankBitsIdle(c: Chip, v: byte, rp: nat, taken: nat)
    requires Wf(c) && v / 4 == c.regs[ECON1] / 4
    ensures Idled(c, c.(regs := c.regs[ECON1 := v]), rp, taken)
  {
    hide RingInv;
    forall b | b >= 2
      ensures Bit(v, b) == Flag(c, ECON1, b)
    {
      assert Bit(v, b) == Bit(v / 2, b - 1) == Bit(v / 4, b - 2);
      assert Flag(c, ECON1, b) == Bit(c.regs[ECON1] / 2, b - 1) == Bit(c.regs[ECON1] / 4, b - 2);
    }
  }

  /** Two chips that are the same, but for the bank selected. */
  predicate SameButBank(c: Chip, f: Chip)
    requires Wf(c) && Wf(f)
  {
    c == f.(regs := f.regs[ECON1 := c.regs[ECON1]]) && c.regs[ECON1] / 4 == f.regs[ECON1] / 4
  }

  /** Clearing the two bank bits selects bank 0 and changes nothing else. */
  lemma BankCleared(c: Chip)
    requires Wf(c)
    ensures var d := Command(c, BFC + 0x1F, 0x03);
      SameButBank(d, c) && Bank(d) == 0
  {
    MaskTwo(c.regs[ECON1]);
    hide AndNot;
  }

  /** Setting the bits of the bank number from there selects that bank and changes nothing else. */
  lemma BankSet(c: Chip, bank: byte)
    requires Wf(c) && bank < 4 && Bank(c) == 0
    ensures var d := Command(c, BFS + 0x1F, bank);
      SameButBank(d, c) && Bank(d) == bank
  {
    JoinTwo(c.regs[ECON1] / 4, bank);
    hide Or;
  }

  lemma BankIdle(c: Chip, d: Chip, rp: nat, taken: nat)
    requires Wf(c) && Wf(d) && SameButBank(d, c)
    ensures Idled(c, d, rp, taken)
  {
    hide Idled;
    BankBitsIdle(c, d.regs[ECON1], rp, taken);
  }

  /** The two writes of a bank selection, with the chip running before each of them. */
  lemma BankSelected(c0: Chip, s0: Chip, c1: Chip, s1: Chip, bank: byte, rp: nat, taken: nat)
    requires Idled(c0, s0, rp, taken) && c1 == Command(s0, BFC + 0x1F, 0x03)
    requires Idled(c1, s1, rp, taken) && Bank(s1) == Bank(c1) && bank < 4
    ensures var c2 := Command(s1, BFS + 0x1F, bank);
      Idled(c0, c2, rp, taken) && Bank(c2) == bank
  {
    assert Wf(s0) && Wf(s1);
    var c2 := Command(s1, BFS + 0x1F, bank);
    hide Idled, SameButBank, Command, RingWf;
    BankCleared(s0);
    BankIdle(s0, c1, rp, taken);
    BankSet(s1, bank);
    BankIdle(s1, c2, rp, taken);
    IdledTrans(c0, s0, c1, rp, taken);
    IdledTrans(c0, c1, s1, rp, taken);
    IdledTrans(c0, s1, c2, rp, taken);
  }

  // ---- the banked register file refines a flat one ----

  /** The upper three bits of a command byte, and the lower five. */
  type Opcode = o: byte | o % 32 == 0

  type Address = a: byte | a < 32

  /** What can happen on the bus: WriteOp; ReadOp; one byte of a buffer read or write; and whatever the hardware does
      before the next of these. */
  datatype Access =
    | Apply(op: Opcode, addr: Address, v: byte)
    | Query(addr: Address)
    | In
    | Out(b: byte)
    | Events(events: seq<HwEvent>)

  /** The bank last selected, as far as the accesses say. */
  datatype Selection = Unknown | Known(bank: byte)

  /** The two commands of SetBank: the bank bits are cleared, and then set. */
  predicate Selects(a: Access) {
    a.Apply? && a.addr == 0x1F && ((a.op == BFC && a.v == 0x03) || (a.op == BFS && a.v < 4))
  }

  function After(sel: Selection, a: Access): Selection {
    if Selects(a) then Known(if a.op == BFC then 0 else a.v) else sel
  }

  predicate Named(sel: Selection, addr: Address) {
    addr >= 0x1B || (sel.Known? && sel.bank < 4)
  }

  /** The register that an address stands for. */
  function Name(sel: Selection, addr: Address): (slot: nat)
    requires Named(sel, addr)
    ensures slot < 128
  {
    if addr >= 0x1B then addr else 32 * sel.bank + addr
  }

  /** A banked register is used only after a bank has been selected, and the bank bits of ECON1 only for that. */
  predicate Proper(sel: Selection, a: Access) {
    match a
    case Apply(op, addr, v) =>
      if Selects(a) then op == BFC || sel == Known(0)
      else op in {WCR, BFS, BFC} && Named(sel, addr) && (addr == 0x1F ==> op != WCR && v % 4 == 0)
    case Query(addr) => Named(sel, addr)
    case _ => true
  }

  function Selected(run: seq<Access>): Selection {
    if run == [] then Unknown else After(Selected(run[..|run| - 1]), run[|run| - 1])
  }

  predicate ProperRun(run: seq<Access>) {
    run == [] || (ProperRun(run[..|run| - 1]) && Proper(Selected(run[..|run| - 1]), run[|run| - 1]))
  }

  /** The chip afterwards and the bytes the driver has seen. Of ECON1 these are the bits above the bank number. */
  datatype Outcome = Outcome(chip: Chip, seen: seq<byte>)

  function Shown(slot: nat, v: byte): byte {
    if slot == ECON1 then v - v % 4 else v
  }

  /** On the chip: five address bits, in whatever bank is selected. */
  function Banked(c: Chip, a: Access): (o: Outcome)
    requires Wf(c)
    ensures Wf(o.chip)
  {
    match a
    case Apply(op, addr, v) => Outcome(Command(c, op + addr, v), [])
    case Query(addr) => Outcome(c, [Shown(addr, Reply(c, addr))])
    case In => Outcome(BufRead(c), [c.ring.mem[PtrAt(c, ERDPTL)]])
    case Out(b) => Outcome(BufWrite(c, b), [])
    case Events(events) => Outcome(RunHw(c, events), [])
  }

  /** Writing, setting and clearing bits of a register that is known by name. */
  function FlatPut(f: Chip, op: Opcode, slot: nat, v: byte): (g: Chip)
    requires Wf(f) && slot < 128 && op in {WCR, BFS, BFC}
    ensures Wf(g)
  {
    WriteCtl(f, slot,
             if op == WCR then v
             else if op == BFS then OrByte(ReadCtl(f, slot), v)
             else AndNotByte(ReadCtl(f, slot), v))
  }

  /** On a flat file of named registers, where there is no bank to select. */
  function Flat(f: Chip, sel: Selection, a: Access): (o: Outcome)
    requires Wf(f) && Proper(sel, a)
    ensures Wf(o.chip)
  {
    match a
    case Apply(op, addr, v) => Outcome(if Selects(a) then f else FlatPut(f, op, Name(sel, addr), v), [])
    case Query(addr) => Outcome(f, [Shown(addr, ReadCtl(f, Name(sel, addr)))])
    case In => Outcome(BufRead(f), [f.ring.mem[PtrAt(f, ERDPTL)]])
    case Out(b) => Outcome(BufWrite(f, b), [])
    case Events(events) => Outcome(RunHw(f, events), [])
  }

  function RunBanked(c: Chip, run: seq<Access>): (o: Outcome)
    requires Wf(c)
    ensures Wf(o.chip)
  {
    if run == [] then Outcome(c, [])
    else
      var before := RunBanked(c, run[..|run| - 1]);
      var last := Banked(before.chip, run[|run| - 1]);
      Outcome(last.chip, before.seen + last.seen)
  }

  function RunFlat(f: Chip, run: seq<Access>): (o: Outcome)
    requires Wf(f) && ProperRun(run)
    ensures Wf(o.chip)
  {
    if run == [] then Outcome(f, [])
    else
      var before := RunFlat(f, run[..|run| - 1]);
      var last := Flat(before.chip, Selected(run[..|run| - 1]), run[|run| - 1]);
      Outcome(last.chip, before.seen + last.seen)
  }

  lemma SameTrans(c: Chip, d: Chip, f: Chip)
    requires Wf(c) && Wf(d) && Wf(f) && SameButBank(c, d) && SameButBank(d, f)
    ensures SameButBank(c, f)
  {
    assert f.regs[ECON1 := d.regs[ECON1]][ECON1 := c.regs[ECON1]] == f.regs[ECON1 := c.regs[ECON1]];
  }

  /** Bits above the lowest two are set and cleared independently of those. */
  lemma {:induction false} Quarters(a: nat, b: nat)
    ensures Or(a, b) / 4 == Or(a / 4, b / 4)
    ensures AndNot(a, b) / 4 == AndNot(a / 4, b / 4)
  {
    hide Or, AndNot;
    Halves(a, b);
    Halves(a / 2, b / 2);
    assert a / 2 / 2 == a / 4 && b / 2 / 2 == b / 4;
    assert Or(a, b) / 2 / 2 == Or(a, b) / 4 && AndNot(a, b) / 2 / 2 == AndNot(a, b) / 4;
  }

  lemma Halves(a: nat, b: nat)
    ensures Or(a, b) / 2 == Or(a / 2, b / 2)
    ensures AndNot(a, b) / 2 == AndNot(a / 2, b / 2)
  {
  }

  /** Flags of ECON1 lie above the bank number. */
  lemma FlagAbove(c: Chip, f: Chip, b: nat)
    requires Wf(c) && Wf(f) && SameButBank(c, f) && b >= 2
    ensures Flag(c, ECON1, b) == Flag(f, ECON1, b)
  {
    var x, y := c.regs[ECON1], f.regs[ECON1];
    assert Bit(x, b) == Bit(x / 2, b - 1) == Bit(x / 4, b - 2);
    assert Bit(y, b) == Bit(y / 2, b - 1) == Bit(y / 4, b - 2);
  }

  /** The hardware does not look at the bank. */
  lemma HwBlind(c: Chip, f: Chip, e: HwEvent)
    requires Wf(c) && Wf(f) && SameButBank(c, f)
    ensures SameButBank(Hw(c, e), Hw(f, e))
  {
    FlagAbove(c, f, RXEN);
    FlagAbove(c, f, TXRTS);
    Quarters(c.regs[ECON1], Pow2(TXRTS));
    Quarters(f.regs[ECON1], Pow2(TXRTS));
    hide AndNot, Bit, Pow2, Put;
    if e.TxEnd? {
      assert TxFrame(c) == TxFrame(f);
    } else if e.PhyStatus? {
      assert f.regs[ECON1 := c.regs[ECON1]][MISTAT := e.v] == f.regs[MISTAT := e.v][ECON1 := c.regs[ECON1]];
    }
  }

  lemma {:induction false} RunHwBlind(c: Chip, f: Chip, events: seq<HwEvent>)
    requires Wf(c) && Wf(f) && SameButBank(c, f)
    ensures SameButBank(RunHw(c, events), RunHw(f, events)) && Bank(RunHw(c, events)) == Bank(c)
    decreases |events|
  {
    hide SameButBank, Hw;
    if events != [] {
      HwBlind(c, f, events[0]);
      HwIdles(c, events[0], 0, 0);
      RunHwBlind(Hw(c, events[0]), Hw(f, events[0]), events[1..]);
    }
  }

  lemma SelectStep(c: Chip, f: Chip, sel: Selection, a: Access)
    requires Wf(c) && Wf(f) && SameButBank(c, f) && Proper(sel, a) && Selects(a) && (sel.Known? ==> Bank(c) == sel.bank)
    ensures var d := Banked(c, a).chip;
      SameButBank(d, f) && After(sel, a) == Known(Bank(d))
  {
    var d := Banked(c, a).chip;
    hide Command, SameButBank;
    if a.op == BFC { BankCleared(c); } else { BankSet(c, a.v); }
    SameTrans(d, c, f);
  }

  lemma WriteElsewhere(c: Chip, f: Chip, slot: nat, v: byte)
    requires Wf(c) && Wf(f) && SameButBank(c, f) && slot < 128 && slot != ECON1
    ensures ReadCtl(c, slot) == ReadCtl(f, slot)
    ensures SameButBank(WriteCtl(c, slot, v), WriteCtl(f, slot, v))
    ensures Bank(WriteCtl(c, slot, v)) == Bank(c)
  {
    hide AndNotByte;
    var x, w := c.regs[ECON1], AndNotByte(v, Pow2(PKTDEC));
    assert c.regs[slot := v] == f.regs[slot := v][ECON1 := x];
    assert c.regs[ECON2 := w] == f.regs[ECON2 := w][ECON1 := x];
  }

  /** A flat access does not depend on the bank selected, and leaves it alone. */
  lemma FlatPutBlind(c: Chip, f: Chip, op: Opcode, slot: nat, v: byte)
    requires Wf(c) && Wf(f) && SameButBank(c, f) && slot < 128 && op in {WCR, BFS, BFC}
    requires slot == ECON1 ==> op != WCR && v % 4 == 0
    ensures SameButBank(FlatPut(c, op, slot, v), FlatPut(f, op, slot, v)) && Bank(FlatPut(c, op, slot, v)) == Bank(c)
  {
    if slot == ECON1 {
      Quarters(c.regs[ECON1], v);
      Quarters(f.regs[ECON1], v);
      PairStep(c.regs[ECON1], v / 4);
      hide Or, AndNot;
      assert v == 4 * (v / 4);
    } else {
      hide Or, AndNot, WriteCtl, ReadCtl, SameButBank;
      WriteElsewhere(c, f, slot, v);
      WriteElsewhere(c, f, slot, OrByte(ReadCtl(f, slot), v));
      WriteElsewhere(c, f, slot, AndNotByte(ReadCtl(f, slot), v));
    }
  }

  /** With the bank selected that the program says, the five address bits reach the register it names. */
  lemma ApplyStep(c: Chip, f: Chip, sel: Selection, op: Opcode, addr: Address, v: byte)
    requires Wf(c) && Wf(f) && SameButBank(c, f)
    requires Proper(sel, Apply(op, addr, v)) && !Selects(Apply(op, addr, v)) && (sel.Known? ==> Bank(c) == sel.bank)
    ensures var d := Banked(c, Apply(op, addr, v)).chip;
      SameButBank(d, Flat(f, sel, Apply(op, addr, v)).chip) && Bank(d) == Bank(c)
  {
    var slot := Name(sel, addr);
    assert Slot(Bank(c), addr) == slot;
    assert (op + addr) % 32 == addr && (op + addr) / 32 == op / 32;
    hide WriteCtl, ReadCtl, OrByte, AndNotByte, SameButBank;
    assert Banked(c, Apply(op, addr, v)).chip == FlatPut(c, op, slot, v);
    hide FlatPut, Command;
    FlatPutBlind(c, f, op, slot, v);
  }

  lemma QueryStep(c: Chip, f: Chip, sel: Selection, addr: Address)
    requires Wf(c) && Wf(f) && SameButBank(c, f) && Proper(sel, Query(addr)) && (sel.Known? ==> Bank(c) == sel.bank)
    ensures Banked(c, Query(addr)).seen == Flat(f, sel, Query(addr)).seen
  {
    assert Slot(Bank(c), addr) == Name(sel, addr);
    if addr == 0x1F {
      var x, y := c.regs[ECON1], f.regs[ECON1];
      assert x - x % 4 == 4 * (x / 4) == y - y % 4;
    }
  }

  lemma BufferBlind(c: Chip, f: Chip, b: byte)
    requires Wf(c) && Wf(f) && SameButBank(c, f)
    ensures SameButBank(BufRead(c), BufRead(f)) && Bank(BufRead(c)) == Bank(c)
    ensures SameButBank(BufWrite(c, b), BufWrite(f, b)) && Bank(BufWrite(c, b)) == Bank(c)
    ensures c.ring.mem[PtrAt(c, ERDPTL)] == f.ring.mem[PtrAt(f, ERDPTL)]
  {
    hide Ptr, Bit;
    assert PtrAt(c, ERDPTL) == PtrAt(f, ERDPTL) && PtrAt(c, EWRPTL) == PtrAt(f, EWRPTL);
    PtrBlind(c, f, ERDPTL, Succ(c.ring.st, c.ring.nd, PtrAt(c, ERDPTL)));
    PtrBlind(c.(ring := c.ring.(mem := c.ring.mem[PtrAt(c, EWRPTL) := b])),
             f.(ring := f.ring.(mem := f.ring.mem[PtrAt(f, EWRPTL) := b])), EWRPTL, (PtrAt(c, EWRPTL) + 1) % SRAM);
  }

  lemma PtrBlind(c: Chip, f: Chip, slot: nat, p: nat)
    requires Wf(c) && Wf(f) && SameButBank(c, f) && slot <= EWRPTL && p < SRAM
    ensures SameButBank(SetPtr(c, slot, p), SetPtr(f, slot, p)) && Bank(SetPtr(c, slot, p)) == Bank(c)
  {
    var x, lo, hi := c.regs[ECON1], p % 256, p / 256;
    assert f.regs[ECON1 := x][slot := lo][slot + 1 := hi] == f.regs[slot := lo][slot + 1 := hi][ECON1 := x];
  }

  lemma AccessStep(c: Chip, f: Chip, sel: Selection, a: Access)
    requires Wf(c) && Wf(f) && SameButBank(c, f) && Proper(sel, a) && (sel.Known? ==> Bank(c) == sel.bank)
    ensures var o, p := Banked(c, a), Flat(f, sel, a);
      && SameButBank(o.chip, p.chip) && o.seen == p.seen
      && (After(sel, a).Known? ==> Bank(o.chip) == After(sel, a).bank)
  {
    hide SameButBank, Command, FlatPut, BufRead, BufWrite, RunHw, Reply, ReadCtl, PtrAt;
    match a
    case Apply(op, addr, v) => if Selects(a) { SelectStep(c, f, sel, a); } else { ApplyStep(c, f, sel, op, addr, v); }
    case Query(addr) => QueryStep(c, f, sel, addr);
    case In => BufferBlind(c, f, 0);
    case Out(b) => BufferBlind(c, f, b);
    case Events(events) => RunHwBlind(c, f, events);
  }

  /** From any bank, any run of proper accesses, with the hardware doing as it likes in between, shows the driver what
      the same run on a flat file of named registers shows it, and leaves the chip as that one, up to which bank is
      selected. */
  lemma {:induction false} BanksAreFlat(c: Chip, f: Chip, run: seq<Access>)
    requires Wf(c) && Wf(f) && SameButBank(c, f) && ProperRun(run)
    ensures var o, p := RunBanked(c, run), RunFlat(f, run);
      && SameButBank(o.chip, p.chip) && o.seen == p.seen
      && (Selected(run).Known? ==> Bank(o.chip) == Selected(run).bank)
  {
    hide SameButBank, Banked, Flat, After, Proper;
    if run != [] {
      var before := run[..|run| - 1];
      BanksAreFlat(c, f, before);
      AccessStep(RunBanked(c, before).chip, RunFlat(f, before).chip, Selected(before), run[|run| - 1]);
    }
  }

  // ---- what the driver does on the bus ----

  /** The accesses of the driver alone. */
  function Steps(run: seq<Access>): seq<Access> {
    if run == [] then []
    else Steps(run[..|run| - 1]) + if run[|run| - 1].Events? then [] else [run[|run| - 1]]
  }

  /** What has happened on the bus since the chip was `origin`. */
  datatype Bus = Bus(origin: Chip, run: seq<Access>)

  /** A proper run has led to c. */
  ghost predicate OnBus(b: Bus, c: Chip) {
    Wf(b.origin) && ProperRun(b.run) && RunBanked(b.origin, b.run).chip == c
  }

  function BytesOf(b: Bus): seq<byte>
    requires Wf(b.origin)
  {
    RunBanked(b.origin, b.run).seen
  }

  /** The run goes on by these accesses of the driver, which show it these bytes. */
  ghost predicate Onward(b: Bus, c: Chip, b': Bus, c': Chip, steps: seq<Access>, bytes: seq<byte>) {
    && b'.origin == b.origin
    && (OnBus(b, c) ==> OnBus(b', c') && Steps(b'.run) == Steps(b.run) + steps && BytesOf(b') == BytesOf(b) + bytes)
  }

  /** A proper run has led to c, and on a flat file of named registers the same run would have led to the same chip,
      up to the bank bits, and shown the driver the same bytes. */
  ghost predicate ActsFlat(b: Bus, c: Chip) {
    && OnBus(b, c)
    && var p := RunFlat(b.origin, b.run);
       SameButBank(c, p.chip) && p.seen == BytesOf(b)
  }

  lemma FlatToo(b: Bus, c: Chip)
    requires OnBus(b, c)
    ensures ActsFlat(b, c)
  {
    assert SameButBank(b.origin, b.origin) by { assert b.origin.regs[ECON1 := b.origin.regs[ECON1]] == b.origin.regs; }
    hide SameButBank, RunBanked, RunFlat;
    BanksAreFlat(b.origin, b.origin, b.run);
  }

  lemma RunLengthens(r: seq<Access>, a: Access)
    ensures var r' := r + [a];
      && Selected(r') == After(Selected(r), a)
      && (ProperRun(r') <==> ProperRun(r) && Proper(Selected(r), a))
      && Steps(r') == Steps(r) + if a.Events? then [] else [a]
  {
    hide After, Proper;
    assert (r + [a])[..|r|] == r;
  }

  lemma RunGrows(origin: Chip, r: seq<Access>, a: Access)
    requires Wf(origin)
    ensures var o, o' := RunBanked(origin, r), RunBanked(origin, r + [a]);
      o'.chip == Banked(o.chip, a).chip && o'.seen == o.seen + Banked(o.chip, a).seen
  {
    hide Banked;
    assert (r + [a])[..|r|] == r;
  }

  /** The bus after one access, before which the hardware has done what it does. */
  function Extended(b: Bus, events: seq<HwEvent>, a: Access): Bus {
    Bus(b.origin, b.run + [Events(events)] + [a])
  }

  lemma OnwardStep(b: Bus, c: Chip, events: seq<HwEvent>, a: Access)
    requires Wf(c) && !a.Events?
    ensures var b' := Extended(b, events, a);
      && Selected(b'.run) == After(Selected(b.run), a)
      && var o := Banked(RunHw(c, events), a);
         Proper(Selected(b.run), a) ==> Onward(b, c, b', o.chip, [a], o.seen)
  {
    RunLengthens(b.run, Events(events));
    RunLengthens(b.run + [Events(events)], a);
    var b1 := Bus(b.origin, b.run + [Events(events)]);
    OnwardOne(b, c, Events(events));
    hide After, Proper, Selected, Onward, RunHw;
    if Proper(Selected(b.run), a) {
      OnwardOne(b1, RunHw(c, events), a);
      var o := Banked(RunHw(c, events), a);
      OnwardTrans(b, c, [], [], b1, RunHw(c, events), [a], o.seen, Extended(b, events, a), o.chip, [a], o.seen);
    }
  }

  lemma OnwardOne(b: Bus, c: Chip, a: Access)
    requires Wf(c) && Proper(Selected(b.run), a)
    ensures var o := Banked(c, a);
      Onward(b, c, Bus(b.origin, b.run + [a]), o.chip, if a.Events? then [] else [a], o.seen)
  {
    hide Proper, Selected, Banked, ProperRun, RunBanked, Steps;
    RunLengthens(b.run, a);
    if OnBus(b, c) { RunGrows(b.origin, b.run, a); }
  }

  lemma OnwardTrans(b: Bus, c: Chip, s1: seq<Access>, y1: seq<byte>, b1: Bus, c1: Chip, s2: seq<Access>, y2: seq<byte>,
        b2: Bus, c2: Chip, s: seq<Access>, y: seq<byte>)
    requires Onward(b, c, b1, c1, s1, y1) && Onward(b1, c1, b2, c2, s2, y2)
    requires s == s1 + s2 && y == y1 + y2
    ensures Onward(b, c, b2, c2, s, y)
  {
    hide OnBus, Steps, BytesOf;
  }

  lemma OnwardStays(b: Bus, c: Chip)
    ensures Onward(b, c, b, c, [], [])
  {
  }

  /** A run that begins with c. */
  lemma OnwardFrom(c: Chip, b: Bus, d: Chip, steps: seq<Access>, bytes: seq<byte>)
    requires Wf(c) && Onward(Bus(c, []), c, b, d, steps, bytes)
    ensures b.origin == c && ActsFlat(b, d) && Steps(b.run) == steps && BytesOf(b) == bytes
  {
    assert OnBus(b, d);
    hide OnBus, ActsFlat;
    FlatToo(b, d);
  }
}
