/** The poll loop of main, as the source of whole runs: Init, then rounds of PacketReceive with any number of
    transmissions between them, while the hardware does as it likes. */
module PollLoop {
  import opened Bits
  import opened Enc28Chip
  import opened RxRing
  import opened RxHardware
  import opened RxSafety
  import opened Enc28Banks
  import opened DriverSteps
  import opened Enc28Programs
  import opened Enc28Unguarded
  import opened Enc28Runs
  import opened Ticks
  import opened Enc28Driver
  import opened Netif

  const PKT_BUF := 400

  /** A frame as main gets it: without its FCS, cut to the packet buffer. */
  function Stripped(p: Packet): seq<byte>
    requires |p.frame| >= 4
  {
    p.frame[..Delivered(|p.frame|, PKT_BUF)]
  }

  /** What main gets of a packet. Of one shorter than its FCS this is a full buffer, of bytes from elsewhere. */
  predicate Matches(p: Packet, f: seq<byte>) {
    if |p.frame| >= 4 then f == Stripped(p) else |f| == PKT_BUF
  }

  /** A frame of nothing but its FCS is passed over. */
  predicate PassedOver(p: Packet) {
    |p.frame| >= 4 && Stripped(p) == []
  }

  /** These frames, in this order and no others, are what main gets of these packets. */
  predicate Delivers(q: seq<Packet>, got: seq<seq<byte>>) {
    if q == [] then got == []
    else
      var p, before := q[|q| - 1], q[..|q| - 1];
      if PassedOver(p) then Delivers(before, got)
      else got != [] && Matches(p, got[|got| - 1]) && Delivers(before, got[..|got| - 1])
  }

  lemma DeliversOne(q: seq<Packet>, p: Packet, got: seq<seq<byte>>, f: seq<byte>)
    requires Delivers(q, got) && Matches(p, f)
    ensures Delivers(q + [p], if f == [] then got else got + [f])
  {
    assert (q + [p])[..|q|] == q;
    assert (got + [f])[..|got|] == got;
  }

  /** What main gets of a packet, in terms of its length: the 16-bit length less four, at most 400 bytes. */
  predicate GotOf(p: Packet, f: seq<byte>) {
    var n := |p.frame|;
    |f| == (if n < 4 || (n - 4) % 0x1_0000 > 400 then 400 else (n - 4) % 0x1_0000) && (n >= 4 ==> f == p.frame[..|f|])
  }

  /** Of the packets at these places, and no others, main gets these frames: all but those of four bytes. */
  predicate GotFrom(q: seq<Packet>, places: seq<nat>, got: seq<seq<byte>>) {
    && |got| == |places| && Increasing(places)
    && (forall j :: 0 <= j < |places| ==> places[j] < |q| && GotOf(q[places[j]], got[j]))
    && (forall i: nat :: i < |q| ==> (i in places <==> |q[i].frame| < 4 || (|q[i].frame| - 4) % 0x1_0000 != 0))
  }

  predicate Increasing(places: seq<nat>) {
    forall i, j :: 0 <= i < j < |places| ==> places[i] < places[j]
  }

  lemma MatchesIs(p: Packet, f: seq<byte>)
    ensures PassedOver(p) <==> |p.frame| >= 4 && (|p.frame| - 4) % 0x1_0000 == 0
    ensures Matches(p, f) <==> GotOf(p, f)
  {
  }

  /** A longer queue: its last packet is the last of the places, or is not among them. */
  lemma LastPlace(q: seq<Packet>, places: seq<nat>, got: seq<seq<byte>>)
    requires q != [] && GotFrom(q, places, got)
    ensures var n, m := |q| - 1, |places| - 1;
      if |q[n].frame| < 4 || (|q[n].frame| - 4) % 0x1_0000 != 0
      then m >= 0 && GotOf(q[n], got[m]) && GotFrom(q[..n], places[..m], got[..m])
      else GotFrom(q[..n], places, got)
  {
    hide GotOf;
    var n := |q| - 1;
    if n in places {
      var m := |places| - 1;
      assert places[m] == n by {
        var k :| 0 <= k < |places| && places[k] == n;
        if k < m { assert places[k] < places[m]; }
      }
      forall i: nat | i < n
        ensures i in places[..m] <==> i in places
      {
        assert places == places[..m] + [places[m]];
      }
    }
  }

  lemma PlaceMore(q: seq<Packet>, places: seq<nat>, got: seq<seq<byte>>, p: Packet, f: seq<byte>)
    requires GotFrom(q, places, got)
    ensures |p.frame| >= 4 && (|p.frame| - 4) % 0x1_0000 == 0 ==> GotFrom(q + [p], places, got)
    ensures (|p.frame| < 4 || (|p.frame| - 4) % 0x1_0000 != 0) && GotOf(p, f) ==>
              GotFrom(q + [p], places + [|q|], got + [f])
  {
    hide GotOf;
    assert |q| !in places;
  }

  /** Delivers says just that. */
  lemma {:induction false} DeliversMeans(q: seq<Packet>, got: seq<seq<byte>>)
    ensures Delivers(q, got) <==> exists places: seq<nat> :: GotFrom(q, places, got)
  {
    hide Matches, PassedOver, GotOf, GotFrom;
    if q == [] {
      NoPlaces(got);
    } else {
      var n, m := |q| - 1, |got| - 1;
      var p, before, less := q[n], q[..n], if got == [] then [] else got[..m];
      assert q == before + [p] && (got != [] ==> got == less + [got[m]]);
      DeliversMeans(before, got);
      DeliversMeans(before, less);
      MatchesIs(p, if got == [] then [] else got[m]);
      if Delivers(q, got) {
        var shorter := if PassedOver(p) then got else less;
        var places: seq<nat> :| GotFrom(before, places, shorter);
        PlaceMore(before, places, shorter, p, if got == [] then [] else got[m]);
      }
      if places: seq<nat> :| GotFrom(q, places, got) {
        LastPlace(q, places, got);
        assert |got| == |places| by { SamePlaces(q, places, got); }
      }
    }
  }

  lemma SamePlaces(q: seq<Packet>, places: seq<nat>, got: seq<seq<byte>>)
    requires GotFrom(q, places, got)
    ensures |got| == |places|
  {
  }

  lemma PlaceInside(q: seq<Packet>, places: seq<nat>, got: seq<seq<byte>>)
    requires GotFrom(q, places, got) && places != []
    ensures q != []
  {
    assert places[0] < |q|;
  }

  lemma NoPlaces(got: seq<seq<byte>>)
    ensures (exists places: seq<nat> :: GotFrom([], places, got)) <==> got == []
  {
    if got == [] { assert GotFrom([], [], got); }
    forall places: seq<nat> | GotFrom([], places, got)
      ensures got == []
    {
      if places != [] { PlaceInside([], places, got); }
    }
  }

  function Count(q: seq<Packet>): nat {
    if q == [] then 0 else Count(q[..|q| - 1]) + if PassedOver(q[|q| - 1]) then 0 else 1
  }

  lemma {:induction false} DeliversCount(q: seq<Packet>, got: seq<seq<byte>>)
    requires Delivers(q, got)
    ensures |got| == Count(q)
  {
    hide PassedOver, Matches;
    if q != [] {
      var before := q[..|q| - 1];
      DeliversCount(before, if PassedOver(q[|q| - 1]) then got else got[..|got| - 1]);
    }
  }

  lemma {:induction false} CountConcat(a: seq<Packet>, b: seq<Packet>)
    ensures Count(a + b) == Count(a) + Count(b)
    decreases |b|
  {
    hide PassedOver;
    if b == [] {
      assert a + b == a;
    } else {
      assert (a + b)[..|a + b| - 1] == a + b[..|b| - 1];
      CountConcat(a, b[..|b| - 1]);
    }
  }

  /** What main gets of more packets comes behind what it has got. */
  lemma {:induction false} DeliversConcat(a: seq<Packet>, b: seq<Packet>, g: seq<seq<byte>>, h: seq<seq<byte>>)
    requires Delivers(a, g)
    ensures Delivers(a + b, g + h) <==> Delivers(b, h)
    decreases |b|
  {
    hide PassedOver, Matches;
    if b == [] {
      assert a + b == a;
      DeliversCount(a, g);
      if Delivers(a, g + h) { DeliversCount(a, g + h); } else { assert g + [] == g; }
    } else {
      var b', p := b[..|b| - 1], b[|b| - 1];
      assert (a + b)[..|a + b| - 1] == a + b' && (a + b)[|a + b| - 1] == p;
      if PassedOver(p) {
        DeliversConcat(a, b', g, h);
      } else if h == [] {
        DeliversCount(a, g);
        CountConcat(a, b);
        CountConcat(a, b');
        if Delivers(a + b, g + h) { DeliversCount(a + b, g + h); }
      } else {
        var h' := h[..|h| - 1];
        assert (g + h)[..|g + h| - 1] == g + h' && (g + h)[|g + h| - 1] == h[|h| - 1];
        DeliversConcat(a, b', g, h');
      }
    }
  }

  // ---- where packets start ----

  /** The position behind the packets q that start at rp. */
  function Behind(rp: nat, q: seq<Packet>): nat
    decreases |q|
  {
    if q == [] then rp else Behind(At(rp, PacketSize(q[0])), q[1..])
  }

  /** None of the packets q, the first of which starts at rp, is followed by one that starts at RXSTART. */
  predicate NeverAtStart(rp: nat, q: seq<Packet>)
    decreases |q|
  {
    q == [] || (At(rp, PacketSize(q[0])) != RXSTART && NeverAtStart(At(rp, PacketSize(q[0])), q[1..]))
  }

  lemma {:induction false} BehindAppend(rp: nat, q: seq<Packet>, p: Packet)
    ensures Behind(rp, q + [p]) == At(Behind(rp, q), PacketSize(p))
    ensures NeverAtStart(rp, q + [p]) <==> NeverAtStart(rp, q) && Behind(rp, q + [p]) != RXSTART
    decreases |q|
  {
    hide At, PacketSize;
    if q == [] {
      assert q + [p] == [p] && [p][1..] == [];
      assert Behind(rp, [p]) == Behind(At(rp, PacketSize(p)), []);
    } else {
      assert (q + [p])[0] == q[0] && (q + [p])[1..] == q[1..] + [p];
      BehindAppend(At(rp, PacketSize(q[0])), q[1..], p);
    }
  }

  // ---- the rounds ----

  /** One round of the loop: does pbuf_alloc succeed, and what does the stack send. */
  datatype Round = Round(alloc: bool, sends: seq<Chain>)

  predicate Sendable(sends: seq<Chain>) {
    forall p <- sends :: |Payload(p)| <= TX_BUF
  }

  // ---- the calls of a run ----

  /** Where a run has got to. */
  datatype Place = Place(chip: Chip, rxPtr: nat, taken: nat)

  ghost function Here(dev: Enc28j60): Place
    reads dev
  {
    Place(dev.chip, dev.rxPtr, dev.taken)
  }

  /** One call of PacketReceive or SendPacket: what it did on the bus, where rxPtr stood before and after, and how many
      packets had been taken before. */
  datatype Call = Call(bus: Bus, rp: nat, taken: nat, next: nat)

  /** The call has been one of SendPacket with this chain. */
  ghost predicate SendCall(call: Call, p: Chain) {
    Wf(call.bus.origin) && Steps(call.bus.run) == SendSteps(Payload(p), |BytesOf(call.bus)|)
  }

  /** The call has been one of PacketReceive, and this is what main got. */
  ghost predicate ReceiveCall(call: Call, got: seq<byte>) {
    && Wf(call.bus.origin) && call.rp < 0x1_0000
    && Steps(call.bus.run) == ReceiveSteps(call.rp, 400, BytesOf(call.bus))
    && if FreedIn(call.bus.run) then ReceiveBytes(BytesOf(call.bus), call.next, 400, got) else got == []
  }

  /** One call for each chain, in this order, and no others. */
  ghost predicate AllSent(calls: seq<Call>, sends: seq<Chain>) {
    |calls| == |sends| && forall i :: 0 <= i < |sends| ==> SendCall(calls[i], sends[i])
  }

  /** One call of PacketReceive, and then one for each chain. */
  ghost predicate RoundCalls(calls: seq<Call>, round: Round, got: seq<byte>) {
    |calls| > 0 && ReceiveCall(calls[0], got) && AllSent(calls[1..], round.sends)
  }

  /** The calls of all these rounds, those of round i from at[i] on. */
  ghost predicate Made(calls: seq<Call>, at: seq<nat>, rounds: seq<Round>, arrived: seq<seq<byte>>) {
    && |at| == |rounds| + 1 && |arrived| == |rounds| && at[0] == 0 && at[|rounds|] == |calls|
    && forall i: nat :: i < |rounds| ==> MadeAt(calls, at, i, rounds[i], arrived[i])
  }

  ghost predicate MadeAt(calls: seq<Call>, at: seq<nat>, i: nat, round: Round, got: seq<byte>) {
    i + 1 < |at| && at[i] <= at[i + 1] <= |calls| && RoundCalls(calls[at[i]..at[i + 1]], round, got)
  }

  lemma RoundMade(call: Call, sent: seq<Call>, round: Round, got: seq<byte>)
    requires ReceiveCall(call, got) && AllSent(sent, round.sends)
    ensures RoundCalls([call] + sent, round, got)
  {
    assert ([call] + sent)[1..] == sent;
  }

  lemma MadeMore(calls: seq<Call>, at: seq<nat>, rounds: seq<Round>, arrived: seq<seq<byte>>, more: seq<Call>,
        round: Round, got: seq<byte>)
    requires Made(calls, at, rounds, arrived) && RoundCalls(more, round, got)
    ensures Made(calls + more, at + [|calls + more|], rounds + [round], arrived + [got])
  {
    hide RoundCalls;
    var calls', at', n := calls + more, at + [|calls + more|], |rounds|;
    forall i: nat | i < n + 1
      ensures MadeAt(calls', at', i, (rounds + [round])[i], (arrived + [got])[i])
    {
      if i < n {
        assert MadeAt(calls, at, i, rounds[i], arrived[i]);
        assert calls'[at'[i]..at'[i + 1]] == calls[at[i]..at[i + 1]];
      } else {
        assert calls'[at'[i]..at'[i + 1]] == more;
      }
    }
  }

  function TakenAfter(call: Call): nat {
    call.taken + if FreedIn(call.bus.run) then 1 else 0
  }

  /** These calls, one after the other and nothing else, have led from p to q. */
  ghost predicate Chained(calls: seq<Call>, p: Place, q: Place) {
    if calls == [] then p == q
    else
      var before, last := calls[..|calls| - 1], calls[|calls| - 1];
      && OnBus(last.bus, q.chip) && q.rxPtr == last.next && q.taken == TakenAfter(last)
      && Chained(before, p, Place(last.bus.origin, last.rp, last.taken))
  }

  lemma {:induction false} ChainedConcat(a: seq<Call>, b: seq<Call>, p: Place, q: Place, r: Place)
    requires Chained(a, p, q) && Chained(b, q, r)
    ensures Chained(a + b, p, r)
    decreases |b|
  {
    hide OnBus, TakenAfter;
    if b == [] {
      assert a + b == a;
    } else {
      var before, last := b[..|b| - 1], b[|b| - 1];
      assert (a + b)[..|a + b| - 1] == a + before;
      ChainedConcat(a, before, p, q, Place(last.bus.origin, last.rp, last.taken));
    }
  }

  /** During the call everything fits in the ring whenever ERXRDPT is outside. */
  ghost predicate RoomyCall(call: Call) {
    Wf(call.bus.origin) && Roomy(call.bus.origin, call.bus.run, call.taken)
  }

  ghost predicate AllRoomy(calls: seq<Call>) {
    forall x <- calls :: RoomyCall(x)
  }

  /** At every moment of these calls the ring is held from where rxPtr stands. */
  ghost predicate AllHeld(calls: seq<Call>) {
    forall x <- calls :: Throughout(x.bus, x.rp, x.taken, x.next, false)
  }

  ghost predicate RoomyIsHeld(calls: seq<Call>) {
    AllRoomy(calls) <==> AllHeld(calls)
  }

  lemma AllConcat(a: seq<Call>, b: seq<Call>)
    ensures AllRoomy(a + b) <==> AllRoomy(a) && AllRoomy(b)
    ensures AllHeld(a + b) <==> AllHeld(a) && AllHeld(b)
  {
    hide RoomyCall, Throughout;
    assert forall x :: x in a + b <==> x in a || x in b;
  }

  // ---- the wire ----

  /** The entries of p at these places, in order and each once, make up w. */
  predicate Picked(p: seq<seq<byte>>, places: seq<nat>, w: seq<seq<byte>>) {
    && |w| == |places|
    && (forall j :: 0 <= j < |places| ==> places[j] < |p| && w[j] == p[places[j]])
    && Increasing(places)
  }

  lemma PickMore(p: seq<seq<byte>>, places: seq<nat>, w: seq<seq<byte>>, x: seq<byte>)
    requires Picked(p, places, w)
    ensures Picked(p + [x], places, w) && Picked(p + [x], places + [|p|], w + [x]) && |p| !in places
  {
  }

  /** w is part of p, in order, and each entry of p is used at most once. */
  ghost predicate Among(w: seq<seq<byte>>, p: seq<seq<byte>>) {
    exists places: seq<nat> :: Picked(p, places, w)
  }

  lemma AmongMore(w: seq<seq<byte>>, p: seq<seq<byte>>, x: seq<byte>)
    requires Among(w, p)
    ensures Among(w, p + [x]) && Among(w + [x], p + [x])
  {
    var places: seq<nat> :| Picked(p, places, w);
    PickMore(p, places, w, x);
  }

  lemma AmongNone(p: seq<seq<byte>>)
    ensures Among([], p)
  {
    assert Picked(p, [], []);
  }

  /** Since `base` was on the wire, these payloads have been given to the driver: what has gone out is among them. The
      last may still be on its way. */
  ghost predicate OnWire(c: Chip, base: seq<seq<byte>>, payloads: seq<seq<byte>>) {
    && Operating(c) && base <= c.sent
    && var w := c.sent[|base|..];
       if Flag(c, ECON1, TXRTS) then
         && payloads != [] && Loaded(c, payloads[|payloads| - 1])
         && Among(w, payloads[..|payloads| - 1])
       else Among(w, payloads)
  }

  lemma LoadedFrame(c: Chip, frame: seq<byte>)
    requires Loaded(c, frame)
    ensures TxFrame(c) == frame
  {
    assert TxFrame(c) == c.ring.mem[TXSTART..TXSTART + 1 + |frame|][1..];
  }

  /** A transmission that has begun goes on, or ends with its frame on the wire or not. */
  lemma WireQuiet(c: Chip, d: Chip, base: seq<seq<byte>>, payloads: seq<seq<byte>>)
    requires OnWire(c, base, payloads) && Operating(d) && Quiet(c, d)
    ensures OnWire(d, base, payloads)
  {
    hide Bit, Ptr, Operating, TxFrame, Among;
    assert Wf(c) && Wf(d);
    if Flag(c, ECON1, TXRTS) {
      var before, last := payloads[..|payloads| - 1], payloads[|payloads| - 1];
      var w := c.sent[|base|..];
      assert payloads == before + [last];
      LoadedFrame(c, last);
      AmongMore(w, before, last);
      if Flag(d, ECON1, TXRTS) {
        assert PtrAt(d, ETXNDL) == PtrAt(c, ETXNDL) && PtrAt(d, ETXSTL) == PtrAt(c, ETXSTL);
        assert d.ring.mem[TXSTART..TXSTART + 1 + |last|] == c.ring.mem[TXSTART..TXSTART + 1 + |last|];
      } else if d.sent != c.sent {
        assert d.sent[|base|..] == w + [last];
      }
    }
  }

  /** The next frame: first any old one has its end. */
  lemma WireSends(c: Chip, started: Chip, d: Chip, rp: nat, taken: nat, base: seq<seq<byte>>, payloads: seq<seq<byte>>,
        frame: seq<byte>)
    requires OnWire(c, base, payloads) && OldSentOnly(c, started) && Idled(started, d, rp, taken)
    requires Operating(started) && Loaded(started, frame) && Flag(started, ECON1, TXRTS)
    ensures OnWire(d, base, payloads + [frame])
  {
    assert (payloads + [frame])[..|payloads|] == payloads;
    assert OnWire(started, base, payloads + [frame]) by {
      assert Among(started.sent[|base|..], payloads) by { WireOld(c, started, base, payloads); }
      hide Loaded, Operating, Bit, Among;
    }
    IdledIsQuiet(started, d, rp, taken);
    hide OnWire, Operating, Quiet;
    WireQuiet(started, d, base, payloads + [frame]);
  }

  lemma WireOld(c: Chip, started: Chip, base: seq<seq<byte>>, payloads: seq<seq<byte>>)
    requires OnWire(c, base, payloads) && OldSentOnly(c, started)
    ensures base <= started.sent && Among(started.sent[|base|..], payloads)
  {
    hide Bit, Ptr, Operating, TxFrame, Among;
    var w := c.sent[|base|..];
    if Flag(c, ECON1, TXRTS) {
      var before, last := payloads[..|payloads| - 1], payloads[|payloads| - 1];
      assert payloads == before + [last];
      LoadedFrame(c, last);
      AmongMore(w, before, last);
      if started.sent != c.sent { assert started.sent[|base|..] == w + [last]; }
    }
  }

  lemma IdledIsQuiet(c: Chip, d: Chip, rp: nat, taken: nat)
    requires Operating(c) && Idled(c, d, rp, taken)
    ensures Operating(d) && Quiet(c, d)
  {
    assert Wf(c);
    hide Operating, Sound, TxQuiet, Dormant, Bit;
    assert forall i :: ETXSTL <= i <= ETXNDH ==> d.regs[i] == c.regs[i];
  }

  function PayloadsOf(sends: seq<Chain>): seq<seq<byte>> {
    if sends == [] then [] else PayloadsOf(sends[..|sends| - 1]) + [Payload(sends[|sends| - 1])]
  }

  function RoundPayloads(rounds: seq<Round>): seq<seq<byte>> {
    if rounds == [] then [] else RoundPayloads(rounds[..|rounds| - 1]) + PayloadsOf(rounds[|rounds| - 1].sends)
  }

  method SendAll(dev: Enc28j60, sends: seq<Chain>, ghost base: seq<seq<byte>>, ghost payloads: seq<seq<byte>>)
    returns (ghost calls: seq<Call>)
    requires dev.Valid() && ClockOk(dev.clock, dev.period) && Sendable(sends)
    modifies dev`chip, dev`now, dev`bus
    ensures dev.Valid() && old(dev.chip).ring.log <= dev.chip.ring.log
    ensures old(dev.Operates()) ==> dev.Operates()
    ensures old(dev.RingSound()) ==> dev.RingSound()
    ensures Chained(calls, old(Here(dev)), Here(dev))
    ensures old(dev.RingHeld()) ==> RoomyIsHeld(calls) && (AllRoomy(calls) ==> dev.RingHeld())
    ensures old(dev.RingSound()) ==> AllRoomy(calls)
    ensures old(OnWire(dev.chip, base, payloads)) ==> OnWire(dev.chip, base, payloads + PayloadsOf(sends))
    ensures AllSent(calls, sends) && SameSettings(dev.chip.regs, old(dev.chip).regs)
  {
    hide Sound, Operating, Loaded, TxFrame, Idled, OldSentOnly, ActsFlat, OnBus, SendSteps, Steps, BytesOf, Held, Roomy,
      HeldByRoom, WritesAbove, FreedIn, OnWire, RingWf, Chained, AllRoomy, RoomyIsHeld;
    calls := [];
    NothingSent(Here(dev), payloads);
    ghost var p0, held, sound, wired := Here(dev), dev.RingHeld(), dev.RingSound(), OnWire(dev.chip, base, payloads);
    for i := 0 to |sends|
      invariant dev.Valid() && p0.chip.ring.log <= dev.chip.ring.log
      invariant old(dev.Operates()) ==> dev.Operates()
      invariant sound ==> dev.RingSound() && AllRoomy(calls)
      invariant Chained(calls, p0, Here(dev))
      invariant held ==> RoomyIsHeld(calls) && (AllRoomy(calls) ==> dev.RingHeld())
      invariant wired ==> OnWire(dev.chip, base, payloads + PayloadsOf(sends[..i]))
      invariant AllSent(calls, sends[..i]) && SameSettings(dev.chip.regs, p0.chip.regs)
    {
      assert sends[i] in sends;
      ghost var p, c := Here(dev), dev.chip;
      HeldMeans(c, dev.rxPtr, dev.taken);
      var start, started := LowLevelOutput(dev, sends[i]);
      ghost var call := Call(dev.bus, dev.rxPtr, dev.taken, dev.rxPtr);
      CallMade(calls, call, p0, p, Here(dev), c.ring.rdpt <= RXEND);
      if wired { WireRound(c, started, dev.chip, dev.rxPtr, dev.taken, base, payloads, sends, i); }
      calls := calls + [call];
    }
    assert sends[..|sends|] == sends;
  }

  lemma NothingSent(p: Place, payloads: seq<seq<byte>>)
    ensures Chained([], p, p) && AllRoomy([]) && RoomyIsHeld([]) && payloads + PayloadsOf([]) == payloads
  {
  }

  /** A call of the driver more. */
  lemma CallMade(calls: seq<Call>, call: Call, p: Place, q: Place, r: Place, firm: bool)
    requires Chained(calls, p, q) && q == Place(call.bus.origin, call.rp, call.taken) && ActsFlat(call.bus, r.chip)
    requires r.rxPtr == call.next && r.taken == TakenAfter(call)
    ensures Chained(calls + [call], p, r)
    ensures AllRoomy(calls + [call]) <==> AllRoomy(calls) && Roomy(q.chip, call.bus.run, call.taken)
    ensures HeldByRoom(call.bus, call.rp, call.taken, call.next, firm) && firm ==>
              Roomy(q.chip, call.bus.run, call.taken)
    ensures RoomyIsHeld(calls)
            && (AllRoomy(calls) ==> HeldByRoom(call.bus, call.rp, call.taken, call.next, firm)) ==>
              RoomyIsHeld(calls + [call])
  {
    assert OnBus(call.bus, r.chip) && Wf(q.chip);
    hide TakenAfter, OnBus, ActsFlat, Roomy, Throughout;
    assert (calls + [call])[..|calls|] == calls;
    assert Chained(calls + [call], p, r) by { hide Roomy; }
    AllConcat(calls, [call]);
    assert RoomyCall(call) <==> AllRoomy([call]);
    assert Throughout(call.bus, call.rp, call.taken, call.next, false) <==> AllHeld([call]);
  }

  lemma WireRound(c: Chip, started: Chip, d: Chip, rp: nat, taken: nat, base: seq<seq<byte>>, payloads: seq<seq<byte>>,
        sends: seq<Chain>, i: nat)
    requires i < |sends| && OnWire(c, base, payloads + PayloadsOf(sends[..i]))
    requires Operating(c) ==>
               && OldSentOnly(c, started) && Operating(started) && Loaded(started, Payload(sends[i]))
               && Flag(started, ECON1, TXRTS)
    requires Idled(started, d, rp, taken)
    ensures OnWire(d, base, payloads + PayloadsOf(sends[..i + 1]))
  {
    assert Operating(c);
    hide OnWire, Operating, Loaded, OldSentOnly, Idled;
    WireSends(c, started, d, rp, taken, base, payloads + PayloadsOf(sends[..i]), Payload(sends[i]));
    assert sends[..i + 1][..i] == sends[..i];
    assert payloads + PayloadsOf(sends[..i]) + [Payload(sends[i])] == payloads + PayloadsOf(sends[..i + 1]);
  }

  /** How far a run has got: since the driver stood at rp with t0 packets taken, it has taken those up to `taken`. The
      ring has been held at every moment, if and only if everything has fitted; then every frame has arrived. That is so
      if none of the packets taken was followed by one at RXSTART, and then the chip is sound as well. */
  ghost predicate Progressed(c: Chip, rxPtr: nat, taken: nat, rp: nat, t0: nat, received: seq<seq<byte>>,
        calls: seq<Call>)
  {
    && t0 <= taken <= |c.ring.log|
    && var drained := c.ring.log[t0..taken];
       && RoomyIsHeld(calls)
       && (NeverAtStart(rp, drained) ==> Sound(c, rxPtr, taken) && AllRoomy(calls))
       && (AllRoomy(calls) ==> Held(c, rxPtr, taken) && Arrived(rxPtr, rp, drained, received))
  }

  ghost predicate Arrived(rxPtr: nat, rp: nat, drained: seq<Packet>, received: seq<seq<byte>>) {
    rxPtr == Behind(rp, drained) && Delivers(drained, received)
  }

  /** Arrivals and transmissions do not disturb what has been drained. */
  lemma ProgressLater(c: Chip, d: Chip, rxPtr: nat, taken: nat, rp: nat, t0: nat, received: seq<seq<byte>>,
        calls: seq<Call>, more: seq<Call>)
    requires Progressed(c, rxPtr, taken, rp, t0, received, calls) && c.ring.log <= d.ring.log
    requires Sound(c, rxPtr, taken) ==> Sound(d, rxPtr, taken) && AllRoomy(more)
    requires Held(c, rxPtr, taken) ==> RoomyIsHeld(more) && (AllRoomy(more) ==> Held(d, rxPtr, taken))
    ensures Progressed(d, rxPtr, taken, rp, t0, received, calls + more)
  {
    AllConcat(calls, more);
    hide Sound, Held, AllRoomy, AllHeld;
    assert d.ring.log[t0..taken] == c.ring.log[t0..taken];
  }

  lemma ProgressStep(rp: nat, log: seq<Packet>, log': seq<Packet>, t0: nat, taken: nat)
    requires log <= log' && t0 <= taken < |log'| && taken <= |log|
    ensures var drained, drained', p := log[t0..taken], log'[t0..taken + 1], log'[taken];
      && log'[t0..taken] == drained && drained' == drained + [p]
      && Behind(rp, drained') == At(Behind(rp, drained), PacketSize(p))
      && (NeverAtStart(rp, drained') <==> NeverAtStart(rp, drained) && Behind(rp, drained') != RXSTART)
  {
    var drained, p := log[t0..taken], log'[taken];
    assert log'[t0..taken + 1] == drained + [p];
    BehindAppend(rp, drained, p);
  }

  /** What PacketReceive promises about one packet carries the run on by that packet. */
  lemma PollStep(c: Chip, rx: nat, taken: nat, d: Chip, rx': nat, rp: nat, t0: nat, got: seq<seq<byte>>,
        bytes: seq<byte>, calls: seq<Call>, more: seq<Call>)
    requires Progressed(c, rx, taken, rp, t0, got, calls) && c.ring.log <= d.ring.log && taken < |d.ring.log|
    requires Sound(c, rx, taken) ==>
               && Takes(d, rx, taken, rx', PKT_BUF, bytes)
               && (rx' != RXSTART ==> Sound(d, rx', taken + 1) && AllRoomy(more))
    requires Held(c, rx, taken) ==>
               && RoomyIsHeld(more)
               && (AllRoomy(more) ==> Takes(d, rx, taken, rx', PKT_BUF, bytes) && Held(d, rx', taken + 1))
    ensures Progressed(d, rx', taken + 1, rp, t0, if bytes == [] then got else got + [bytes], calls + more)
  {
    ProgressStep(rp, c.ring.log, d.ring.log, t0, taken);
    AllConcat(calls, more);
    var p, drained := d.ring.log[taken], c.ring.log[t0..taken];
    assert Takes(d, rx, taken, rx', PKT_BUF, bytes) ==> Matches(p, bytes) && rx' == At(rx, PacketSize(p)) by {
      hide At, PacketSize;
    }
    hide Sound, Held, At, PacketSize, NeverAtStart, Behind, Delivers, Matches, Takes, AllRoomy, AllHeld;
    if Takes(d, rx, taken, rx', PKT_BUF, bytes) && Arrived(rx, rp, drained, got) {
      DeliversOne(drained, p, got, bytes);
    }
  }

  /** The first half of an iteration: a packet is drained, if there is one. */
  method PollPacket(dev: Enc28j60, pktBuf: array<byte>, ghost rp: nat, ghost t0: nat, ghost got: seq<seq<byte>>,
        ghost calls: seq<Call>, ghost base: seq<seq<byte>>, ghost payloads: seq<seq<byte>>)
    returns (len: nat, ghost call: Call)
    requires dev.Valid() && pktBuf.Length == PKT_BUF
    modifies dev`chip, dev`now, dev`bus, dev`rxPtr, dev`taken, pktBuf
    ensures len <= PKT_BUF
    ensures dev.Valid() && old(dev.chip).ring.log <= dev.chip.ring.log
    ensures old(dev.taken) <= dev.taken <= old(dev.taken) + 1
    ensures old(dev.taken < |dev.chip.ring.log|) ==> dev.taken == old(dev.taken) + 1
    ensures old(dev.Operates()) ==> dev.Operates()
    ensures Chained([call], old(Here(dev)), Here(dev))
    ensures old(Progressed(dev.chip, dev.rxPtr, dev.taken, rp, t0, got, calls)) ==>
              Progressed(dev.chip, dev.rxPtr, dev.taken, rp, t0, if len > 0 then got + [pktBuf[..len]] else got,
                         calls + [call])
    ensures old(OnWire(dev.chip, base, payloads)) ==> OnWire(dev.chip, base, payloads)
    ensures ReceiveCall(call, pktBuf[..len]) && SameSettings(dev.chip.regs, old(dev.chip).regs)
  {
    hide Sound, Operating, At, PacketSize, RingWf, Progressed, Delivered, ActsFlat, OnBus, Steps, BytesOf, ReceiveSteps,
      ReceiveBytes, Held, Roomy, HeldByRoom, Takes, Quiet, FreedIn, OnWire, Chained, AllRoomy, RoomyIsHeld,
      SameSettings;
    ghost var p, c, rx, taken := Here(dev), dev.chip, dev.rxPtr, dev.taken;
    ghost var progressed := Progressed(c, rx, taken, rp, t0, got, calls);
    ghost var wired := OnWire(c, base, payloads);
    if wired { WireOperates(c, base, payloads); }
    len := dev.PacketReceive(pktBuf, PKT_BUF);
    call := Call(dev.bus, rx, taken, dev.rxPtr);
    ghost var d := dev.chip;
    NothingSent(p, payloads);
    CallMade([], call, p, p, Here(dev), c.ring.rdpt <= RXEND && (dev.taken == taken + 1 ==> dev.rxPtr != RXSTART));
    HeldMeans(c, rx, taken);
    assert [] + [call] == [call];
    if wired { WireQuiet(c, d, base, payloads); }
    if progressed {
      if dev.taken == taken {
        ProgressLater(c, d, dev.rxPtr, taken, rp, t0, got, calls, [call]);
      } else {
        SoundTakes(d, rx, taken, dev.rxPtr, pktBuf[..len]);
        PollStep(c, rx, taken, d, dev.rxPtr, rp, t0, got, pktBuf[..len], calls, [call]);
      }
    }
  }

  /** One iteration: a packet is drained, if there is one, and the stack sends what it has to send. */
  method Poll(dev: Enc28j60, pktBuf: array<byte>, round: Round, ghost rp: nat, ghost t0: nat, ghost got: seq<seq<byte>>,
        ghost calls: seq<Call>, ghost base: seq<seq<byte>>, ghost payloads: seq<seq<byte>>)
    returns (len: nat, ghost more: seq<Call>)
    requires dev.Valid() && ClockOk(dev.clock, dev.period) && pktBuf.Length == PKT_BUF && Sendable(round.sends)
    modifies dev`chip, dev`now, dev`bus, dev`rxPtr, dev`taken, pktBuf
    ensures len <= PKT_BUF
    ensures dev.Valid() && old(dev.chip).ring.log <= dev.chip.ring.log
    ensures old(dev.taken) <= dev.taken <= old(dev.taken) + 1
    ensures old(dev.taken < |dev.chip.ring.log|) ==> dev.taken == old(dev.taken) + 1
    ensures old(dev.Operates()) ==> dev.Operates()
    ensures Chained(more, old(Here(dev)), Here(dev))
    ensures old(Progressed(dev.chip, dev.rxPtr, dev.taken, rp, t0, got, calls)) ==>
              Progressed(dev.chip, dev.rxPtr, dev.taken, rp, t0, if len > 0 then got + [pktBuf[..len]] else got,
                         calls + more)
    ensures old(OnWire(dev.chip, base, payloads)) ==> OnWire(dev.chip, base, payloads + PayloadsOf(round.sends))
    ensures RoundCalls(more, round, pktBuf[..len]) && SameSettings(dev.chip.regs, old(dev.chip).regs)
  {
    hide Sound, Operating, RingWf, Progressed, Held, OnWire, Chained, AllRoomy, RoomyIsHeld, ReceiveCall, AllSent,
      RoundCalls, SameSettings;
    ghost var p, c := Here(dev), dev.chip;
    ghost var progressed := Progressed(c, dev.rxPtr, dev.taken, rp, t0, got, calls);
    ghost var call;
    len, call := PollPacket(dev, pktBuf, rp, t0, got, calls, base, payloads);
    ghost var q, d, frame := Here(dev), dev.chip, pktBuf[..len];
    HeldMeans(d, dev.rxPtr, dev.taken);
    ghost var sent := SendAll(dev, round.sends, base, payloads);
    more := [call] + sent;
    RoundMade(call, sent, round, frame);
    SettingsTrans(dev.chip.regs, d.regs, c.regs);
    ChainedConcat([call], sent, p, q, Here(dev));
    if progressed {
      ghost var now := if len > 0 then got + [frame] else got;
      ProgressLater(d, dev.chip, dev.rxPtr, dev.taken, rp, t0, now, calls + [call], sent);
      assert calls + [call] + sent == calls + more;
    }
  }

  lemma WireOperates(c: Chip, base: seq<seq<byte>>, payloads: seq<seq<byte>>)
    requires OnWire(c, base, payloads)
    ensures Operating(c)
  {
  }

  lemma SoundTakes(d: Chip, rp: nat, taken: nat, next: nat, frame: seq<byte>)
    ensures Takes(d, rp, taken, next, PKT_BUF, frame) <==>
              taken < |d.ring.log|
              && var p := d.ring.log[taken];
                 && |frame| == Delivered(|p.frame|, PKT_BUF)
                 && (|p.frame| >= 4 ==> frame == p.frame[..|frame|])
                 && next == At(rp, PacketSize(p))
  {
  }

  function Min(a: int, b: int): int {
    if a <= b then a else b
  }

  /** What the rounds have put in the packet buffer; the rounds that found nothing left out. */
  function NonEmpty(arrived: seq<seq<byte>>): seq<seq<byte>> {
    if arrived == [] then []
    else
      var n := |arrived| - 1;
      NonEmpty(arrived[..n]) + if arrived[n] == [] then [] else [arrived[n]]
  }

  /** Of these, what gets a pbuf and goes on to the stack. */
  function Accepted(arrived: seq<seq<byte>>, rounds: seq<Round>): seq<seq<byte>>
    requires |arrived| == |rounds|
  {
    if arrived == [] then []
    else
      var n := |arrived| - 1;
      Accepted(arrived[..n], rounds[..n]) + if arrived[n] == [] || !rounds[n].alloc then [] else [arrived[n]]
  }

  /** NonEmpty leaves out the empty ones, and nothing else. */
  lemma {:induction false} NonEmptyMeans(arrived: seq<seq<byte>>) returns (places: seq<nat>)
    ensures Picked(arrived, places, NonEmpty(arrived))
    ensures forall i: nat :: i < |arrived| ==> (i in places <==> arrived[i] != [])
  {
    places := [];
    if arrived != [] {
      var n := |arrived| - 1;
      places := NonEmptyMeans(arrived[..n]);
      PickMore(arrived[..n], places, NonEmpty(arrived[..n]), arrived[n]);
      assert arrived[..n] + [arrived[n]] == arrived;
      hide Picked;
      if arrived[n] != [] { places := places + [n]; }
    }
  }

  /** What is handed on is, in order and each once, what has arrived in a round in which a pbuf can be had. */
  lemma {:induction false} AcceptedMeans(arrived: seq<seq<byte>>, rounds: seq<Round>) returns (places: seq<nat>)
    requires |arrived| == |rounds|
    ensures Picked(arrived, places, Accepted(arrived, rounds))
    ensures forall i: nat :: i < |arrived| ==> (i in places <==> arrived[i] != [] && rounds[i].alloc)
  {
    places := [];
    if arrived != [] {
      var n := |arrived| - 1;
      places := AcceptedMeans(arrived[..n], rounds[..n]);
      PickMore(arrived[..n], places, Accepted(arrived[..n], rounds[..n]), arrived[n]);
      assert arrived[..n] + [arrived[n]] == arrived;
      hide Picked;
      if arrived[n] != [] && rounds[n].alloc { places := places + [n]; }
    }
  }

  lemma RoundsGrow(arrived: seq<seq<byte>>, rounds: seq<Round>, frame: seq<byte>)
    requires |arrived| < |rounds|
    ensures NonEmpty(arrived + [frame]) == NonEmpty(arrived) + if frame == [] then [] else [frame]
    ensures Accepted(arrived + [frame], rounds[..|arrived| + 1])
            == Accepted(arrived, rounds[..|arrived|]) + if frame == [] || !rounds[|arrived|].alloc then [] else [frame]
  {
    assert (arrived + [frame])[..|arrived|] == arrived;
    assert rounds[..|arrived| + 1][..|arrived|] == rounds[..|arrived|];
  }

  /** Rounds of the loop. Each drains a packet as long as there is one, whether or not a pbuf can be had for it: if
      nothing new arrives, n rounds bring the counter down by n, or to zero. Frames that get a pbuf are handed on. */
  method Rounds(dev: Enc28j60, rounds: seq<Round>, ghost base: seq<seq<byte>>, ghost payloads: seq<seq<byte>>)
    returns (arrived: seq<seq<byte>>, handed: seq<seq<byte>>, ghost calls: seq<Call>, ghost at: seq<nat>)
    requires dev.Valid() && ClockOk(dev.clock, dev.period)
    requires forall r <- rounds :: Sendable(r.sends)
    modifies dev`chip, dev`now, dev`bus, dev`rxPtr, dev`taken
    ensures dev.Valid() && old(dev.chip).ring.log <= dev.chip.ring.log
    ensures dev.taken <= old(dev.taken) + |rounds|
    ensures dev.taken >= Min(old(dev.taken) + |rounds|, |old(dev.chip).ring.log|)
    ensures dev.chip.ring.log == old(dev.chip).ring.log ==>
              dev.chip.ring.cnt == old(dev.chip).ring.cnt - Min(|rounds|, old(dev.chip).ring.cnt)
    ensures Chained(calls, old(Here(dev)), Here(dev))
    ensures old(dev.RingSound()) ==>
              Progressed(dev.chip, dev.rxPtr, dev.taken, old(dev.rxPtr), old(dev.taken), NonEmpty(arrived), calls)
    ensures old(OnWire(dev.chip, base, payloads)) ==> OnWire(dev.chip, base, payloads + RoundPayloads(rounds))
    ensures |arrived| == |rounds| && handed == Accepted(arrived, rounds)
    ensures Made(calls, at, rounds, arrived) && SameSettings(dev.chip.regs, old(dev.chip).regs)
    ensures old(dev.Operates()) ==> dev.Operates()
  {
    hide Sound, Operating, NeverAtStart, Delivers, RingWf, NonEmpty, Accepted, Held, OnWire, Chained,
      AllRoomy, Progressed, Made, RoundCalls, SameSettings;
    ghost var p0, rp, t0, sound := Here(dev), dev.rxPtr, dev.taken, dev.RingSound();
    ghost var wired := OnWire(dev.chip, base, payloads);
    calls, at := [], [0];
    NothingSent(p0, payloads);
    NoRounds(payloads);
    SettingsSelf(p0.chip);
    var pktBuf := new byte[PKT_BUF];
    arrived, handed := [], [];
    NothingYet(rounds);
    if sound { ProgressStart(dev.chip, rp, t0); }
    for i := 0 to |rounds|
      invariant dev.Valid() && old(dev.chip).ring.log <= dev.chip.ring.log
      invariant t0 <= dev.taken <= t0 + i
      invariant dev.taken >= Min(t0 + i, |old(dev.chip).ring.log|)
      invariant Chained(calls, p0, Here(dev))
      invariant sound ==> Progressed(dev.chip, dev.rxPtr, dev.taken, rp, t0, NonEmpty(arrived), calls)
      invariant wired ==> OnWire(dev.chip, base, payloads + RoundPayloads(rounds[..i]))
      invariant |arrived| == i && handed == Accepted(arrived, rounds[..i])
      invariant Made(calls, at, rounds[..i], arrived) && SameSettings(dev.chip.regs, p0.chip.regs)
      invariant old(dev.Operates()) ==> dev.Operates()
    {
      assert rounds[i] in rounds;
      ghost var got, p, before := NonEmpty(arrived), Here(dev), payloads + RoundPayloads(rounds[..i]);
      var len;
      ghost var more;
      len, more := Poll(dev, pktBuf, rounds[i], rp, t0, got, calls, base, before);
      ChainedConcat(calls, more, p0, p, Here(dev));
      SettingsTrans(dev.chip.regs, p.chip.regs, p0.chip.regs);
      MadeMore(calls, at, rounds[..i], arrived, more, rounds[i], pktBuf[..len]);
      assert rounds[..i] + [rounds[i]] == rounds[..i + 1];
      calls := calls + more;
      at := at + [|calls|];
      PayloadsGrow(payloads, rounds, i);
      var frame := pktBuf[..len];
      RoundsGrow(arrived, rounds, frame);
      arrived := arrived + [frame];
      assert NonEmpty(arrived) == if len > 0 then got + [frame] else got;
      if len > 0 && rounds[i].alloc { handed := handed + [frame]; }
    }
    assert rounds[..|rounds|] == rounds;
  }

  lemma NoRounds(payloads: seq<seq<byte>>)
    ensures payloads + RoundPayloads([]) == payloads
  {
  }

  lemma PayloadsGrow(payloads: seq<seq<byte>>, rounds: seq<Round>, i: nat)
    requires i < |rounds|
    ensures payloads + RoundPayloads(rounds[..i]) + PayloadsOf(rounds[i].sends)
            == payloads + RoundPayloads(rounds[..i + 1])
  {
    assert rounds[..i + 1][..i] == rounds[..i];
  }

  lemma NothingYet(rounds: seq<Round>)
    ensures NonEmpty([]) == [] && Accepted([], rounds[..0]) == [] && Made([], [0], rounds[..0], [])
  {
  }

  lemma ProgressStart(c: Chip, rp: nat, t0: nat)
    requires Sound(c, rp, t0)
    ensures Progressed(c, rp, t0, rp, t0, [], [])
  {
    HeldMeans(c, rp, t0);
    hide Held;
    assert AllRoomy([]) && AllHeld([]);
    assert c.ring.log[t0..t0] == [];
  }

  /** A whole run from the reset on: Init, what the stack sends when the interface comes up, and the rounds. `begun` is
      the chip behind Init, and `calls` is what the driver has done since.

      The calls are one of SendPacket for each chain sent at first, and in each round one of PacketReceive and then one
      of SendPacket for each chain, in their order; at says where those of each round begin.

      The chip stays in operation, with RXEN set and the registers as Init has programmed them. What has gone out on the
      wire since the reset is, in order and each at most once, among the payloads given to the driver.

      The ring has been held at every moment of the calls, if and only if everything has fitted whenever ERXRDPT was
      outside; as it does, with ERXRDPT always inside, if no drained packet was followed by one at RXSTART. Then the
      frames received so far are what main gets of the packets drained, in order, and what it will get of those still in
      the buffer completes what it gets of all packets that the hardware accepted; the driver stands at the oldest in
      the buffer, and the chain of next pointers leads to the hardware's write position. */
  method Run(dev: Enc28j60, macAddr: seq<byte>, first: seq<Chain>, rounds: seq<Round>)
    returns (arrived: seq<seq<byte>>, handed: seq<seq<byte>>, ghost begun: Chip, ghost calls: seq<Call>,
             ghost at: seq<nat>)
    requires Wf(dev.chip) && ClockOk(dev.clock, dev.period) && dev.rxPtr == RXSTART && dev.resetRdpt <= RXEND
    requires |macAddr| == 6 && Sendable(first) && forall r <- rounds :: Sendable(r.sends)
    modifies dev`chip, dev`now, dev`bus, dev`rxPtr, dev`taken
    ensures dev.Valid() && dev.taken <= |dev.chip.ring.log|
    ensures |arrived| == |rounds| && handed == Accepted(arrived, rounds)
    ensures dev.Operates() && Flag(dev.chip, ECON1, RXEN)
    ensures OnWire(dev.chip, old(dev.Seen()).sent, PayloadsOf(first) + RoundPayloads(rounds))
    ensures JustStarted(begun) && begun.ring.rdpt == dev.resetRdpt && Programmed(dev.chip.regs, macAddr)
    ensures |first| <= |calls| && AllSent(calls[..|first|], first) && Made(calls[|first|..], at, rounds, arrived)
    ensures Chained(calls, Place(begun, RXSTART, 0), Here(dev))
    ensures AllRoomy(calls) <==> AllHeld(calls)
    ensures NeverAtStart(RXSTART, dev.chip.ring.log[..dev.taken]) ==> dev.RingSound() && AllRoomy(calls)
    ensures var log := dev.chip.ring.log;
      AllRoomy(calls) ==>
        && dev.RingHeld()
        && Follow(dev.chip.ring.mem, dev.rxPtr, dev.chip.ring.cnt) == dev.chip.ring.wr
        && Delivers(log[..dev.taken], NonEmpty(arrived))
        && forall rest :: Delivers(log, NonEmpty(arrived) + rest) <==> Delivers(log[dev.taken..], rest)
  {
    ghost var base := dev.Seen().sent;
    hide Sound, Operating, NeverAtStart, Delivers, RingWf, Follow, NonEmpty, Accepted, Programmed, Held, OnWire,
      Chained, AllRoomy, AllHeld, Progressed, RunHw, Made, AllSent, SameSettings;
    dev.Init(macAddr);
    begun := dev.chip;
    WireStarts(begun);
    ghost var sent := SendAll(dev, first, base, []);
    assert [] + PayloadsOf(first) == PayloadsOf(first);
    ghost var p, q := Place(begun, RXSTART, 0), Here(dev);
    ghost var more;
    arrived, handed, more, at := Rounds(dev, rounds, base, PayloadsOf(first));
    calls := sent + more;
    assert calls[..|first|] == sent && calls[|first|..] == more;
    SettingsTrans(dev.chip.regs, q.chip.regs, begun.regs);
    StillProgrammed(begun.regs, dev.chip.regs, macAddr);
    ChainedConcat(sent, more, p, q, Here(dev));
    StillReceiving(dev.chip);
    RunConcludes(dev.chip, dev.rxPtr, dev.taken, NonEmpty(arrived), sent, more);
  }

  lemma RunConcludes(c: Chip, rxPtr: nat, taken: nat, got: seq<seq<byte>>, sent: seq<Call>, more: seq<Call>)
    requires Progressed(c, rxPtr, taken, RXSTART, 0, got, more) && taken + c.ring.cnt == |c.ring.log| && Wf(c)
    requires AllRoomy(sent) && RoomyIsHeld(sent)
    ensures AllRoomy(sent + more) <==> AllHeld(sent + more)
    ensures NeverAtStart(RXSTART, c.ring.log[..taken]) ==> Sound(c, rxPtr, taken) && AllRoomy(sent + more)
    ensures AllRoomy(sent + more) ==>
              && Held(c, rxPtr, taken) && Follow(c.ring.mem, rxPtr, c.ring.cnt) == c.ring.wr
              && Delivers(c.ring.log[..taken], got)
              && forall rest :: Delivers(c.ring.log, got + rest) <==> Delivers(c.ring.log[taken..], rest)
  {
    AllConcat(sent, more);
    ProgressMeans(c, rxPtr, taken, got, more);
    hide Sound, NeverAtStart, Delivers, Follow, Held, AllRoomy, AllHeld, Progressed;
    if AllRoomy(sent + more) {
      Framing(c, rxPtr, taken);
      Conserved(c.ring.log, taken, got);
    }
  }

  lemma SettingsSelf(c: Chip)
    requires Wf(c)
    ensures SameSettings(c.regs, c.regs)
  {
  }

  lemma SettingsTrans(a: seq<byte>, b: seq<byte>, c: seq<byte>)
    requires SameSettings(a, b) && SameSettings(b, c)
    ensures SameSettings(a, c)
  {
  }

  lemma StillProgrammed(a: seq<byte>, b: seq<byte>, macAddr: seq<byte>)
    requires |a| == 128 && |macAddr| == 6 && Programmed(a, macAddr) && SameSettings(b, a)
    ensures Programmed(b, macAddr)
  {
    assert b[MAADR..MAADR + 6] == a[MAADR..MAADR + 6];
  }

  /** Nothing is on its way when the driver begins. */
  lemma WireStarts(c: Chip)
    requires Operating(c) && !Flag(c, ECON1, TXRTS)
    ensures OnWire(c, c.sent, [])
  {
    AmongNone([]);
    assert c.sent[|c.sent|..] == [];
    hide Bit, Operating, Among;
  }

  lemma ProgressMeans(c: Chip, rxPtr: nat, taken: nat, received: seq<seq<byte>>, calls: seq<Call>)
    requires Progressed(c, rxPtr, taken, RXSTART, 0, received, calls)
    ensures taken <= |c.ring.log|
    ensures NeverAtStart(RXSTART, c.ring.log[..taken]) ==>
              Sound(c, rxPtr, taken) && AllRoomy(calls)
    ensures RoomyIsHeld(calls)
    ensures AllRoomy(calls) ==> Held(c, rxPtr, taken) && Delivers(c.ring.log[..taken], received)
  {
    hide Sound, Held, Delivers, AllRoomy, AllHeld, NeverAtStart;
    assert c.ring.log[0..taken] == c.ring.log[..taken];
  }

  lemma StillReceiving(c: Chip)
    requires Operating(c)
    ensures Wf(c) && Flag(c, ECON1, RXEN)
  {
  }

  /** What main has got, and will get of the unread packets, is what it gets of all packets accepted. */
  lemma Conserved(log: seq<Packet>, taken: nat, got: seq<seq<byte>>)
    requires taken <= |log| && Delivers(log[..taken], got)
    ensures forall rest :: Delivers(log, got + rest) <==> Delivers(log[taken..], rest)
  {
    hide Delivers;
    assert log == log[..taken] + log[taken..];
    forall rest
      ensures Delivers(log, got + rest) <==> Delivers(log[taken..], rest)
    {
      DeliversConcat(log[..taken], log[taken..], got, rest);
    }
  }
}
