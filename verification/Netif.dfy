/** The lwIP side: gathering a pbuf chain for transmission. */
module Netif {
  import opened Bits
  import opened Enc28Chip
  import opened RxHardware
  import opened Enc28Banks
  import opened DriverSteps
  import opened Enc28Programs
  import opened Enc28Unguarded
  import opened Enc28Runs
  import opened Ticks
  import opened Enc28Driver

  /** A chain of pbufs: payload and next. */
  datatype Chain = End | Pbuf(payload: seq<byte>, next: Chain)

  function Payload(p: Chain): seq<byte> {
    match p
    case End => []
    case Pbuf(payload, next) => payload + Payload(next)
  }

  /** The pbufs of the chain one after the other, the last followed by the end, and how many bytes lie before each. */
  predicate Walk(p: Chain, links: seq<Chain>, before: seq<nat>) {
    && |before| == |links| > 0
    && links[0] == p && links[|links| - 1].End? && before[0] == 0
    && forall i :: 0 <= i < |links| - 1 ==>
         links[i].Pbuf? && links[i + 1] == links[i].next && before[i + 1] == before[i] + |links[i].payload|
  }

  /** Every chain can be walked. */
  lemma {:induction false} WalkThrough(p: Chain) returns (links: seq<Chain>, before: seq<nat>)
    ensures Walk(p, links, before)
  {
    match p
    case End =>
      links, before := [p], [0];
    case Pbuf(payload, next) =>
      var rest, behind := WalkThrough(next);
      links, before := [p] + rest, [0] + seq(|behind|, i requires 0 <= i < |behind| => behind[i] + |payload|);
  }

  /** The rest of a walk is a walk of the rest. */
  lemma WalkOn(p: Chain, links: seq<Chain>, before: seq<nat>) returns (rest: seq<Chain>, behind: seq<nat>)
    requires Walk(p, links, before) && |links| > 1
    ensures p.Pbuf? && rest == links[1..] && Walk(p.next, rest, behind)
    ensures forall i :: 0 <= i < |behind| ==> before[i + 1] == behind[i] + |p.payload|
  {
    assert links[0].Pbuf? && links[1] == p.next;
    for j := 1 to |before|
      invariant forall i :: 1 <= i <= j && i < |before| ==> before[i] >= |p.payload|
    {
      assert links[j - 1].Pbuf? && before[j - 1 + 1] == before[j - 1] + |links[j - 1].payload|;
    }
    rest, behind := links[1..], seq(|links| - 1, i requires 0 <= i < |links| - 1 => before[i + 1] - |p.payload|);
    forall i | 0 <= i < |rest| - 1
      ensures rest[i].Pbuf? && rest[i + 1] == rest[i].next && behind[i + 1] == behind[i] + |rest[i].payload|
    {
      assert links[i + 1].Pbuf? && links[i + 1 + 1] == links[i + 1].next;
    }
  }

  /** The payload of a chain has as many bytes as its pbufs together. */
  lemma {:induction false} PayloadLength(p: Chain, links: seq<Chain>, before: seq<nat>)
    requires Walk(p, links, before)
    ensures |Payload(p)| == before[|links| - 1]
    decreases |links|
  {
    if |links| > 1 {
      var rest, behind := WalkOn(p, links, before);
      PayloadLength(p.next, rest, behind);
    }
  }

  /** The bytes of each pbuf lie in it behind those of the pbufs before. */
  lemma {:induction false} PayloadPart(p: Chain, links: seq<Chain>, before: seq<nat>, i: nat)
    requires Walk(p, links, before) && i < |links| - 1
    ensures links[i].Pbuf? && before[i] + |links[i].payload| <= |Payload(p)|
    ensures Payload(p)[before[i]..before[i] + |links[i].payload|] == links[i].payload
    decreases i
  {
    if i > 0 {
      var n, m := |p.payload|, |links[i].payload|;
      var rest, behind := WalkOn(p, links, before);
      PayloadPart(p.next, rest, behind, i - 1);
      assert rest[i - 1] == links[i] && before[i] == behind[i - 1] + n;
      assert Payload(p)[before[i]..before[i] + m] == Payload(p.next)[behind[i - 1]..behind[i - 1] + m];
    }
  }

  /** The transmit buffer holds the control byte and then each pbuf's bytes in its place, and ETXND is at the last. */
  ghost predicate Gathered(c: Chip, links: seq<Chain>, before: seq<nat>) {
    && Wf(c) && |before| == |links| > 0
    && PtrAt(c, ETXSTL) == 0x0C00 && PtrAt(c, ETXNDL) == 0x0C00 + before[|links| - 1]
    && c.ring.mem[0x0C00] == 0
    && forall i :: 0 <= i < |links| - 1 ==> links[i].Pbuf? && Placed(c, 0x0C01 + before[i], links[i].payload)
  }

  predicate Placed(c: Chip, at: nat, bytes: seq<byte>)
    requires Wf(c)
  {
    at + |bytes| <= SRAM && c.ring.mem[at..at + |bytes|] == bytes
  }

  lemma LoadedIsGathered(c: Chip, p: Chain, links: seq<Chain>, before: seq<nat>)
    requires Loaded(c, Payload(p)) && Walk(p, links, before)
    ensures Gathered(c, links, before)
  {
    hide Ptr;
    PayloadLength(p, links, before);
    var n := |Payload(p)|;
    assert c.ring.mem[TXSTART..TXSTART + 1 + n] == [0] + Payload(p);
    assert c.ring.mem[TXSTART + 1..TXSTART + 1 + n] == c.ring.mem[TXSTART..TXSTART + 1 + n][1..] == Payload(p);
    assert c.ring.mem[TXSTART] == c.ring.mem[TXSTART..TXSTART + 1 + n][0];
    forall i | 0 <= i < |links| - 1
      ensures links[i].Pbuf? && Placed(c, 0x0C01 + before[i], links[i].payload)
    {
      PayloadPart(p, links, before, i);
      var a, m := before[i], |links[i].payload|;
      assert c.ring.mem[TXSTART + 1..TXSTART + 1 + n][a..a + m] == c.ring.mem[0x0C01 + a..0x0C01 + a + m];
    }
  }

  const TX_BUF := 600

  method MemCpy(dst: array<byte>, at: nat, src: seq<byte>)
    requires at + |src| <= dst.Length
    modifies dst
    ensures dst[..] == old(dst[..at]) + src + old(dst[at + |src|..])
  {
    for i := 0 to |src|
      invariant dst[..at] == old(dst[..at])
      invariant dst[at..at + i] == src[..i]
      invariant dst[at + |src|..] == old(dst[at + |src|..])
    {
      dst[at + i] := src[i];
    }
    assert dst[..] == dst[..at] + dst[at..at + |src|] + dst[at + |src|..];
  }

  /** Sends a chain of at most 600 bytes: afterwards the transmit buffer holds the control byte and the payloads one
      after the other, and ETXND is at the last of them, wherever ERXRDPT points; the receive side is as sound as it
      was. */
  method LowLevelOutput(dev: Enc28j60, p: Chain) returns (ghost start: nat, ghost started: Chip)
    requires dev.Valid() && ClockOk(dev.clock, dev.period) && |Payload(p)| <= TX_BUF
    modifies dev`chip, dev`now, dev`bus
    ensures dev.Valid() && old(dev.chip).ring.log <= dev.chip.ring.log
    ensures !Flag(dev.chip, ECON1, TXRTS) || dev.clock(dev.now) - dev.clock(start) > 200
    ensures Idled(started, dev.chip, dev.rxPtr, dev.taken)
    ensures old(dev.Operates()) ==>
              && Flag(started, ECON1, TXRTS) && Loaded(started, Payload(p)) && OldSentOnly(old(dev.chip), started)
              && dev.Operates() && Loaded(dev.chip, Payload(p))
              && (dev.chip.sent == started.sent || dev.chip.sent == started.sent + [Payload(p)])
    ensures old(dev.Operates()) ==> Operating(started)
    ensures old(dev.Operates()) ==>
              forall links, before :: Walk(p, links, before) ==> Gathered(dev.chip, links, before)
    ensures old(dev.RingSound()) ==> dev.RingSound()
    ensures WritesAbove(dev.bus) && !FreedIn(dev.bus.run)
    ensures SameSettings(dev.chip.regs, old(dev.chip).regs)
    ensures old(dev.RingHeld()) ==>
              && HeldByRoom(dev.bus, dev.rxPtr, dev.taken, dev.rxPtr, old(dev.chip).ring.rdpt <= RXEND)
              && (Roomy(old(dev.chip), dev.bus.run, dev.taken) ==> dev.RingHeld())
    ensures dev.bus.origin == old(dev.chip) && ActsFlat(dev.bus, dev.chip)
    ensures Steps(dev.bus.run) == SendSteps(Payload(p), |BytesOf(dev.bus)|)
  {
    hide Sound, Operating, Idled, Loaded, OldSentOnly, ActsFlat, Steps, BytesOf, SendSteps, Polled, Held, Roomy,
      HeldByRoom, WritesAbove, FreedIn, Walk, Gathered;
    var txBuf := new byte[TX_BUF];
    var q, len := p, 0;
    while q != End
      invariant 0 <= len && len + |Payload(q)| <= TX_BUF
      invariant txBuf[..len] + Payload(q) == Payload(p)
      invariant dev.chip == old(dev.chip) && dev.now == old(dev.now)
      decreases q
    {
      MemCpy(txBuf, len, q.payload);
      assert txBuf[..len + |q.payload|] == txBuf[..len] + q.payload;
      len := len + |q.payload|;
      q := q.next;
    }
    assert txBuf[..len] == Payload(p);
    start, started := dev.SendPacket(txBuf, len);
    if Loaded(dev.chip, Payload(p)) {
      forall links, before | Walk(p, links, before)
        ensures Gathered(dev.chip, links, before)
      {
        LoadedIsGathered(dev.chip, p, links, before);
      }
    }
  }
}
