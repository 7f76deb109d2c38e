/** The driver's functions as what they do on the bus: which registers they name, in which order, given the bytes they
    are shown. */
module Enc28Programs {
  import opened Bits
  import opened Enc28Chip
  import opened Enc28Banks
  import opened DriverSteps

  function SelectSteps(bank: byte): seq<Access> {
    [Apply(BFC, 0x1F, 0x03), Apply(BFS, 0x1F, bank)]
  }

  function PtrSteps(addr: Address, p: nat): seq<Access>
    requires addr < 0x1B && p < 0x1_0000
  {
    [Apply(WCR, addr, p % 0x100), Apply(WCR, addr + 1, p / 0x100)]
  }

  function Ins(n: nat): (s: seq<Access>)
    ensures |s| == n
  {
    seq(n, i => In)
  }

  function Outs(bytes: seq<byte>): (s: seq<Access>)
    ensures |s| == |bytes|
  {
    seq(|bytes|, i requires 0 <= i < |bytes| => Out(bytes[i]))
  }

  function Polls(addr: Address, n: nat): (s: seq<Access>)
    ensures |s| == n
  {
    seq(n, i => Query(addr))
  }

  function CountSteps(): seq<Access> {
    SelectSteps(1) + [Query(0x19)]
  }

  function HeaderSteps(rxPtr: nat): seq<Access>
    requires rxPtr < 0x1_0000
  {
    SelectSteps(0) + PtrSteps(0x00, rxPtr) + Ins(6)
  }

  function ReleaseSteps(nextPtr: nat): seq<Access> {
    SelectSteps(0) + [Apply(WCR, 0x0C, FreeLow(nextPtr)), Apply(WCR, 0x0D, FreeHigh(nextPtr)), Apply(BFS, 0x1E, 0x40)]
  }

  /** PacketReceive, shown EPKTCNT, and then a header and a frame. */
  function ReceiveSteps(rxPtr: nat, maxlen: nat, seen: seq<byte>): seq<Access>
    requires rxPtr < 0x1_0000
  {
    if |seen| < 7 then CountSteps()
    else
      CountSteps()
      + (HeaderSteps(rxPtr) + Ins(Delivered(Short(seen[5], seen[6]), maxlen)) + ReleaseSteps(Short(seen[1], seen[2])))
  }

  /** The first part of SendPacket: everything up to ETXND. */
  function LoadSteps(frame: seq<byte>): seq<Access> {
    [Apply(BFC, 0x1F, 0x08)] + SelectSteps(0) + PtrSteps(0x04, TXSTART) + PtrSteps(0x02, TXSTART)
    + Outs([0] + frame) + PtrSteps(0x06, (TXSTART + |frame|) % 0x1_0000)
  }

  /** The last part, polling TXRTS this many times. */
  function StartSteps(polls: nat): seq<Access> {
    [Apply(BFS, 0x1F, 0x08)] + SelectSteps(0) + Polls(0x1F, polls)
  }

  function SendSteps(frame: seq<byte>, polls: nat): seq<Access> {
    LoadSteps(frame) + StartSteps(polls)
  }

  /** What the driver polls for is not touched by the bank bits. */
  lemma PolledBits(v: byte, mask: byte)
    requires mask % 4 == 0
    ensures And(v - v % 4, mask) == And(v, mask)
  {
    var x, m := v / 4, mask / 4;
    AndQuarter(v, m);
    AndQuarter(4 * x, m);
    assert mask == 4 * m && v - v % 4 == 4 * x && 4 * x / 4 == x;
  }

  lemma AndQuarter(a: nat, m: nat)
    ensures And(a, 4 * m) == 4 * And(a / 4, m)
  {
    hide And;
    AndHalf(a, 2 * m);
    AndHalf(a / 2, m);
    assert a / 2 / 2 == a / 4;
  }

  lemma AndHalf(a: nat, m: nat)
    ensures And(a, 2 * m) == 2 * And(a / 2, m)
  {
    assert 2 * m / 2 == m;
  }

  lemma PollShown(addr: Address, v: byte, mask: byte)
    requires addr == 0x1F ==> mask % 4 == 0
    ensures And(Shown(addr, v), mask) == And(v, mask)
  {
    hide And;
    if addr == 0x1F { PolledBits(v, mask); }
  }

  /** A poll loop reads until it is shown the bits clear, or the time is over. */
  predicate Polled(polls: seq<byte>, mask: byte, late: bool) {
    && polls != []
    && (forall i :: 0 <= i < |polls| - 1 ==> And(polls[i], mask) != 0)
    && (And(polls[|polls| - 1], mask) == 0 || late)
  }

  /** What PacketReceive is shown when it takes a packet, and what it makes of it. */
  predicate ReceiveBytes(seen: seq<byte>, nextPtr: nat, maxlen: nat, frame: seq<byte>) {
    && |seen| == 7 + |frame|
    && seen[0] != 0
    && nextPtr == Short(seen[1], seen[2])
    && |frame| == Delivered(Short(seen[5], seen[6]), maxlen)
    && frame == seen[7..]
  }

  lemma NothingReceived(rxPtr: nat, maxlen: nat)
    requires rxPtr < 0x1_0000
    ensures CountSteps() == ReceiveSteps(rxPtr, maxlen, [0])
  {
  }

  // ---- the functions put together from their parts ----

  lemma ReleaseOnBus(b0: Bus, c0: Chip, b1: Bus, c1: Chip, b2: Bus, c2: Chip, b3: Bus, c3: Chip, b4: Bus, c4: Chip,
        next: nat)
    requires Onward(b0, c0, b1, c1, SelectSteps(0), [])
    requires Onward(b1, c1, b2, c2, [Apply(WCR, 0x0C, FreeLow(next))], [])
    requires Onward(b2, c2, b3, c3, [Apply(WCR, 0x0D, FreeHigh(next))], [])
    requires Onward(b3, c3, b4, c4, [Apply(BFS, 0x1E, 0x40)], [])
    ensures Onward(b0, c0, b4, c4, ReleaseSteps(next), [])
  {
    hide Onward, FreeLow, FreeHigh;
    var s2 := SelectSteps(0) + [Apply(WCR, 0x0C, FreeLow(next))];
    var s3 := s2 + [Apply(WCR, 0x0D, FreeHigh(next))];
    OnwardTrans(b0, c0, SelectSteps(0), [], b1, c1, [Apply(WCR, 0x0C, FreeLow(next))], [], b2, c2, s2, []);
    OnwardTrans(b0, c0, s2, [], b2, c2, [Apply(WCR, 0x0D, FreeHigh(next))], [], b3, c3, s3, []);
    OnwardTrans(b0, c0, s3, [], b3, c3, [Apply(BFS, 0x1E, 0x40)], [], b4, c4, ReleaseSteps(next), []);
  }

  lemma ReceivedOnBus(c0: Chip, b1: Bus, c1: Chip, b2: Bus, c2: Chip, rxPtr: nat, maxlen: nat, cnt: byte,
        header: seq<byte>, frame: seq<byte>)
    requires Wf(c0) && rxPtr < 0x1_0000 && cnt != 0 && |header| == 6
    requires |frame| == Delivered(Short(header[4], header[5]), maxlen)
    requires Onward(Bus(c0, []), c0, b1, c1, CountSteps(), [cnt])
    requires Onward(b1, c1, b2, c2, HeaderSteps(rxPtr) + Ins(|frame|) + ReleaseSteps(Short(header[0], header[1])),
                    header + frame)
    ensures b2.origin == c0 && ActsFlat(b2, c2)
    ensures Steps(b2.run) == ReceiveSteps(rxPtr, maxlen, BytesOf(b2))
    ensures ReceiveBytes(BytesOf(b2), Short(header[0], header[1]), maxlen, frame)
  {
    hide Onward, CountSteps, HeaderSteps, ReleaseSteps, Ins, Short, Delivered, ActsFlat, BytesOf, Steps;
    var b0, seen := Bus(c0, []), [cnt] + (header + frame);
    var rest := HeaderSteps(rxPtr) + Ins(|frame|) + ReleaseSteps(Short(header[0], header[1]));
    OnwardTrans(b0, c0, CountSteps(), [cnt], b1, c1, rest, header + frame, b2, c2, CountSteps() + rest, seen);
    OnwardFrom(c0, b2, c2, CountSteps() + rest, seen);
    assert seen[1] == header[0] && seen[2] == header[1] && seen[5] == header[4] && seen[6] == header[5];
    assert seen[7..] == frame;
    assert CountSteps() + rest == ReceiveSteps(rxPtr, maxlen, seen);
  }

  lemma LoadedOnBus(b0: Bus, c0: Chip, b2: Bus, c2: Chip, b3: Bus, c3: Chip, b4: Bus, c4: Chip, b5: Bus, c5: Chip,
        b6: Bus, c6: Chip, frame: seq<byte>)
    requires Onward(b0, c0, b2, c2, [Apply(BFC, 0x1F, 0x08)] + SelectSteps(0), [])
    requires Onward(b2, c2, b3, c3, PtrSteps(0x04, TXSTART), [])
    requires Onward(b3, c3, b4, c4, PtrSteps(0x02, TXSTART), [])
    requires Onward(b4, c4, b5, c5, Outs([0] + frame), [])
    requires Onward(b5, c5, b6, c6, PtrSteps(0x06, (TXSTART + |frame|) % 0x1_0000), [])
    ensures Onward(b0, c0, b6, c6, LoadSteps(frame), [])
  {
    hide Onward, SelectSteps, PtrSteps, Outs;
    var s2 := [Apply(BFC, 0x1F, 0x08)] + SelectSteps(0);
    var s3 := s2 + PtrSteps(0x04, TXSTART);
    var s4 := s3 + PtrSteps(0x02, TXSTART);
    var s5 := s4 + Outs([0] + frame);
    var p6 := PtrSteps(0x06, (TXSTART + |frame|) % 0x1_0000);
    OnwardTrans(b0, c0, s2, [], b2, c2, PtrSteps(0x04, TXSTART), [], b3, c3, s3, []);
    OnwardTrans(b0, c0, s3, [], b3, c3, PtrSteps(0x02, TXSTART), [], b4, c4, s4, []);
    OnwardTrans(b0, c0, s4, [], b4, c4, Outs([0] + frame), [], b5, c5, s5, []);
    OnwardTrans(b0, c0, s5, [], b5, c5, p6, [], b6, c6, LoadSteps(frame), []);
  }

  lemma StartedOnBus(b0: Bus, c0: Chip, b1: Bus, c1: Chip, b2: Bus, c2: Chip, b3: Bus, c3: Chip, polls: seq<byte>)
    requires Onward(b0, c0, b1, c1, [Apply(BFS, 0x1F, 0x08)], [])
    requires Onward(b1, c1, b2, c2, SelectSteps(0), [])
    requires Onward(b2, c2, b3, c3, Polls(0x1F, |polls|), polls)
    ensures Onward(b0, c0, b3, c3, StartSteps(|polls|), polls)
  {
    hide Onward, SelectSteps, Polls;
    var s2 := [Apply(BFS, 0x1F, 0x08)] + SelectSteps(0);
    OnwardTrans(b0, c0, [Apply(BFS, 0x1F, 0x08)], [], b1, c1, SelectSteps(0), [], b2, c2, s2, []);
    OnwardTrans(b0, c0, s2, [], b2, c2, Polls(0x1F, |polls|), polls, b3, c3, StartSteps(|polls|), polls);
  }

  lemma SentOnBus(c0: Chip, b1: Bus, c1: Chip, b2: Bus, c2: Chip, frame: seq<byte>, polls: seq<byte>)
    requires Wf(c0)
    requires Onward(Bus(c0, []), c0, b1, c1, LoadSteps(frame), [])
    requires Onward(b1, c1, b2, c2, StartSteps(|polls|), polls)
    ensures b2.origin == c0 && ActsFlat(b2, c2)
    ensures BytesOf(b2) == polls && Steps(b2.run) == SendSteps(frame, |polls|)
  {
    hide Onward, LoadSteps, StartSteps, ActsFlat, BytesOf, Steps;
    var b0 := Bus(c0, []);
    OnwardTrans(b0, c0, LoadSteps(frame), [], b1, c1, StartSteps(|polls|), polls, b2, c2,
                SendSteps(frame, |polls|), polls);
    OnwardFrom(c0, b2, c2, SendSteps(frame, |polls|), polls);
  }

  /** One more poll. */
  lemma PollOnBus(b0: Bus, c0: Chip, b1: Bus, c1: Chip, b2: Bus, c2: Chip, addr: Address, polls: seq<byte>, v: byte)
    requires Onward(b0, c0, b1, c1, Polls(addr, |polls|), polls)
    requires Onward(b1, c1, b2, c2, [Query(addr)], [v])
    ensures Onward(b0, c0, b2, c2, Polls(addr, |polls| + 1), polls + [v])
  {
    hide Onward;
    OnwardTrans(b0, c0, Polls(addr, |polls|), polls, b1, c1, [Query(addr)], [v], b2, c2,
                Polls(addr, |polls| + 1), polls + [v]);
  }

  /** So far every poll but the last has shown some of the bits set; the last has shown those that v has. */
  predicate PolledTo(polls: seq<byte>, mask: byte, v: byte) {
    && polls != [] && And(polls[|polls| - 1], mask) == And(v, mask)
    && forall i :: 0 <= i < |polls| - 1 ==> And(polls[i], mask) != 0
  }

  lemma PolledMore(polls: seq<byte>, addr: Address, mask: byte, v: byte, v': byte)
    requires PolledTo(polls, mask, v) && And(v, mask) != 0 && (addr == 0x1F ==> mask % 4 == 0)
    ensures PolledTo(polls + [Shown(addr, v')], mask, v')
  {
    hide And;
    PollShown(addr, v', mask);
  }

  lemma PolledFirst(addr: Address, mask: byte, v: byte)
    requires addr == 0x1F ==> mask % 4 == 0
    ensures PolledTo([Shown(addr, v)], mask, v) && Polls(addr, 1) == [Query(addr)]
  {
    hide And;
    PollShown(addr, v, mask);
  }

  lemma PolledOver(polls: seq<byte>, mask: byte, v: byte, late: bool)
    requires PolledTo(polls, mask, v) && (And(v, mask) == 0 || late)
    ensures Polled(polls, mask, late)
  {
    hide And;
  }
}
