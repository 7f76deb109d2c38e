/** Whole-buffer consequences of the ring invariant, and the exact condition under which the driver keeps it. */
module RxSafety {
  import opened Bits
  import opened Enc28Chip
  import opened RxRing
  import opened RxHardware
  import opened Enc28Banks
  import opened DriverSteps
  import opened Enc28Programs
  import opened Enc28Unguarded
  import opened Enc28Runs

  // ---- framing ----

  /** The location reached from a by following n next-packet pointers. */
  function Follow(mem: seq<byte>, a: nat, n: nat): nat
    requires |mem| == SRAM
    decreases n
  {
    if n == 0 || a >= SIZE then a else Follow(mem, Short(mem[a], mem[At(a, 1)]), n - 1)
  }

  lemma {:induction false} FollowPackets(mem: seq<byte>, rp: nat, q: seq<Packet>)
    requires |mem| == SRAM && rp < SIZE && Span(q) < SIZE && Holds(mem, rp, 0, Image(rp, q))
    ensures Follow(mem, rp, |q|) == At(rp, Span(q))
    decreases |q|
  {
    if q != [] {
      var size := PacketSize(q[0]);
      var next := At(rp, size);
      ImageBegins(rp, q, 0);
      HeaderDecodes(rp, q[0]);
      LinkHeld(mem, rp, Image(rp, q));
      HoldsConcat(mem, rp, 0, Encode(rp, q[0]), Image(next, q[1..]));
      HoldsShift(mem, rp, size, 0, Image(next, q[1..]));
      FollowPackets(mem, next, q[1..]);
    }
  }

  lemma LinkHeld(mem: seq<byte>, rp: nat, image: seq<byte>)
    requires |mem| == SRAM && rp < SIZE && Holds(mem, rp, 0, image) && |image| >= 6
    ensures mem[rp] == image[..6][0] && mem[At(rp, 1)] == image[..6][1]
  {
    assert mem[At(rp, 0 + 0)] == image[0] && mem[At(rp, 0 + 1)] == image[1];
  }

  /** Between two calls the driver stands at the header of the oldest unread packet, and following EPKTCNT next
      pointers from there leads to ERXWRPT. */
  lemma Framing(c: Chip, rp: nat, taken: nat)
    requires Held(c, rp, taken) && taken + c.ring.cnt == |c.ring.log|
    ensures Follow(c.ring.mem, rp, c.ring.cnt) == c.ring.wr
  {
    FollowPackets(c.ring.mem, rp, c.ring.log[taken..]);
  }

  // ---- safety over every run ----

  lemma {:induction false} RunSplit(c: Chip, a: seq<HwEvent>, b: seq<HwEvent>)
    requires Wf(c)
    ensures RunHw(c, a + b) == RunHw(RunHw(c, a), b)
    decreases |a|
  {
    if a == [] {
      assert a + b == b;
    } else {
      assert (a + b)[0] == a[0] && (a + b)[1..] == a[1..] + b;
      RunSplit(Hw(c, a[0]), a[1..], b);
    }
  }

  /** The j-th unread byte at some moment of a run is not changed by the rest of the run. */
  ghost predicate ByteSafe(c: Chip, before: seq<HwEvent>, after: seq<HwEvent>, rp: nat, taken: nat, j: nat)
    requires Wf(c)
  {
    var d := RunHw(c, before);
    taken <= |d.ring.log| && j < Span(d.ring.log[taken..]) && j < SIZE && rp < SIZE ==>
      RunHw(d, after).ring.mem[At(rp, j)] == d.ring.mem[At(rp, j)]
  }

  /** Every run of the hardware leaves every unread byte alone. */
  ghost predicate Safe(c: Chip, rp: nat, taken: nat)
    requires Wf(c)
  {
    forall before, after, j :: ByteSafe(c, before, after, rp, taken, j)
  }

  lemma SoundIsSafe(c: Chip, rp: nat, taken: nat)
    requires Sound(c, rp, taken)
    ensures Safe(c, rp, taken)
  {
    forall before, after, j: nat
      ensures ByteSafe(c, before, after, rp, taken, j)
    {
      RunIdles(c, before, rp, taken);
      UnreadKept(RunHw(c, before), after, rp, taken);
    }
  }

  // ---- frames that arrive ----

  /** The n locations from a on do not meet ERXRDPT. */
  predicate Clear(r: Ring, a: nat, n: nat) {
    forall k :: 0 <= k < n ==> At(a, k) != r.rdpt
  }

  function Bytes(n: nat, b: byte): (e: seq<HwEvent>)
    ensures |e| == n
  {
    seq(n, i => FrameByte(b))
  }

  /** A frame in progress goes on through the ring, over whatever is there, as long as it does not meet ERXRDPT. */
  lemma {:induction false} BytesGoOn(c: Chip, n: nat, b: byte)
    requires Wf(c) && Geometry(c.ring) && c.ring.rx.Busy? && c.ring.rx.cur < SIZE && n <= SIZE
    requires Clear(c.ring, c.ring.rx.cur, n)
    ensures var d := RunHw(c, Bytes(n, b));
      && d == c.(ring := c.ring.(mem := d.ring.mem, rx := d.ring.rx))
      && d.ring.rx.Busy? && d.ring.rx.cur == At(c.ring.rx.cur, n) && |d.ring.rx.frame| == |c.ring.rx.frame| + n
      && (n > 0 ==> d.ring.mem[At(c.ring.rx.cur, n - 1)] == b)
    decreases n
  {
    if n > 0 {
      var a := c.ring.rx.cur;
      var e := Hw(c, FrameByte(b));
      assert Bytes(n, b)[0] == FrameByte(b) && Bytes(n, b)[1..] == Bytes(n - 1, b);
      assert At(a, 0) != c.ring.rdpt;
      assert e.ring.rx.cur == At(a, 1);
      forall k | 0 <= k < n - 1
        ensures At(At(a, 1), k) != c.ring.rdpt
      {
        assert At(At(a, 1), k) == At(a, k + 1);
      }
      BytesGoOn(e, n - 1, b);
      assert n > 1 ==> At(e.ring.rx.cur, n - 2) == At(a, n - 1);
    }
  }

  lemma RunOne(c: Chip, e: HwEvent)
    requires Wf(c)
    ensures RunHw(c, [e]) == Hw(c, e)
  {
    assert RunHw(c, [e]) == RunHw(Hw(c, e), [e][1..]);
  }

  /** The arrival of one frame of n bytes. */
  function Arrival(n: nat): seq<HwEvent> {
    [FrameStart] + Bytes(n, 0) + [FrameEnd(0, 0, 0)]
  }

  /** There is room for a frame of n bytes, with its header and pad. */
  ghost predicate Room(c: Chip, n: nat) {
    && Operating(c) && c.ring.rx.Idle? && c.ring.cnt < 255 && n + 7 <= SIZE
    && Free(c.ring, c.ring.wr, 6) && Clear(c.ring, At(c.ring.wr, 6), n + n % 2)
  }

  /** d comes after c with a frame of n bytes more in the ring. */
  ghost predicate FrameIn(c: Chip, d: Chip, n: nat) {
    && Wf(c) && Operating(d) && d == c.(ring := d.ring)
    && d.ring.rx.Idle? && d.ring.rdpt == c.ring.rdpt
    && d.ring.cnt == c.ring.cnt + 1 && d.ring.wr == At(c.ring.wr, 6 + n + n % 2)
    && |d.ring.log| == |c.ring.log| + 1 && c.ring.log <= d.ring.log
    && |d.ring.log[|c.ring.log|].frame| == n && |d.ring.log[|c.ring.log|].pad| == n % 2
  }

  lemma StartGoes(c: Chip)
    requires Operating(c) && c.ring.rx.Idle? && Free(c.ring, c.ring.wr, 6)
    ensures Hw(c, FrameStart) == c.(ring := c.ring.(rx := Busy(At(c.ring.wr, 6), [])))
  {
    SkipWraps(c.ring.wr, 6);
    hide Bit, Ptr;
  }

  lemma Arrives(c: Chip, n: nat)
    requires Room(c, n)
    ensures FrameIn(c, RunHw(c, Arrival(n)), n)
  {
    hide Bytes, Free, Bit, Ptr;
    var s := Hw(c, FrameStart);
    var b := RunHw(s, Bytes(n, 0));
    StartGoes(c);
    BytesGoOn(s, n, 0);
    RunOne(c, FrameStart);
    RunOne(b, FrameEnd(0, 0, 0));
    RunSplit(c, [FrameStart], Bytes(n, 0));
    RunSplit(c, [FrameStart] + Bytes(n, 0), [FrameEnd(0, 0, 0)]);
    if n % 2 == 1 {
      assert At(At(c.ring.wr, 6), n) != c.ring.rdpt;
    }
    FrameEnds(c, b, n);
  }

  lemma FrameEnds(c: Chip, b: Chip, n: nat)
    requires Operating(c) && c.ring.rx.Idle? && c.ring.cnt < 255 && n + 7 <= SIZE
    requires Wf(b) && b == c.(ring := c.ring.(mem := b.ring.mem, rx := b.ring.rx))
    requires b.ring.rx.Busy? && b.ring.rx.cur == At(At(c.ring.wr, 6), n) && |b.ring.rx.frame| == n
    requires n % 2 == 1 ==> b.ring.rx.cur != c.ring.rdpt
    ensures FrameIn(c, Hw(b, FrameEnd(0, 0, 0)), n)
  {
    hide Put, Header, Bit, Ptr;
    assert Succ(RXSTART, RXEND, b.ring.rx.cur) == At(b.ring.rx.cur, 1);
  }

  // ---- before the first release ----

  /** Some frame of n bytes has been accepted after these events. */
  ghost predicate AcceptsLength(c: Chip, events: seq<HwEvent>, n: nat)
    requires Wf(c)
  {
    exists k :: 0 <= k < |RunHw(c, events).ring.log| && |RunHw(c, events).ring.log[k].frame| == n
  }

  ghost predicate Padded(log: seq<Packet>) {
    forall k :: 0 <= k < |log| ==> |log[k].pad| == |log[k].frame| % 2
  }

  lemma {:induction false} RunPads(c: Chip, events: seq<HwEvent>)
    requires Wf(c) && Padded(c.ring.log)
    ensures Padded(RunHw(c, events).ring.log)
    decreases |events|
  {
    if events != [] {
      HwPads(c, events[0]);
      RunPads(Hw(c, events[0]), events[1..]);
    }
  }

  lemma HwPads(c: Chip, e: HwEvent)
    requires Wf(c) && Padded(c.ring.log)
    ensures Padded(Hw(c, e).ring.log)
  {
    hide Put, Header, Bit, Ptr, Free, Skip;
  }

  lemma {:induction false} SpanCovers(q: seq<Packet>, k: nat)
    requires k < |q|
    ensures PacketSize(q[k]) <= Span(q)
  {
    if k > 0 { SpanCovers(q[1..], k - 1); }
  }

  lemma SpanEmpty(q: seq<Packet>)
    ensures Span(q) < 6 ==> q == []
  {
  }

  /** The chip as Init leaves it. */
  ghost predicate JustStarted(c: Chip) {
    Sound(c, RXSTART, 0) && c.ring.log == [] && c.ring.cnt == 0 && c.ring.rx.Idle?
  }

  /** Before the first release the hardware has the locations below ERXRDPT: it can accept a frame exactly if it fits
      there with its header and pad. */
  lemma FirstFits(c: Chip, n: nat)
    requires JustStarted(c)
    ensures (exists events :: AcceptsLength(c, events, n)) <==> 6 + n + n % 2 <= c.ring.rdpt
  {
    forall events | AcceptsLength(c, events, n)
      ensures 6 + n + n % 2 <= c.ring.rdpt
    {
      var d := RunHw(c, events);
      RunIdles(c, events, RXSTART, 0);
      RunPads(c, events);
      var k :| 0 <= k < |d.ring.log| && |d.ring.log[k].frame| == n;
      assert d.ring.log[0..] == d.ring.log;
      SpanCovers(d.ring.log, k);
    }
    if 6 + n + n % 2 <= c.ring.rdpt {
      FirstRoom(c, n);
      Arrives(c, n);
      assert |RunHw(c, Arrival(n)).ring.log[0].frame| == n;
      assert AcceptsLength(c, Arrival(n), n);
    }
  }

  lemma FirstRoom(c: Chip, n: nat)
    requires JustStarted(c) && 6 + n + n % 2 <= c.ring.rdpt
    ensures Room(c, n)
  {
    assert c.ring.log[0..] == [];
    FreeReach(c.ring, RXSTART, 0, 6);
  }

  /** Nothing at all is ever accepted exactly if not even a header fits below ERXRDPT. */
  lemma NothingFits(c: Chip)
    requires JustStarted(c)
    ensures (forall events :: RunHw(c, events).ring.log == []) <==> c.ring.rdpt < 6
  {
    if c.ring.rdpt < 6 {
      forall events
        ensures RunHw(c, events).ring.log == []
      {
        RunIdles(c, events, RXSTART, 0);
        var log := RunHw(c, events).ring.log;
        assert log[0..] == log;
        SpanEmpty(log);
      }
    } else {
      FirstRoom(c, 0);
      Arrives(c, 0);
      assert RunHw(c, Arrival(0)).ring.log != [];
    }
  }

  // ---- ERXRDPT outside the ring ----

  /** No frame of more than `limit` bytes, with n bytes of one seen already. */
  predicate FramesUpTo(events: seq<HwEvent>, limit: nat, n: nat)
    decreases |events|
  {
    events == []
    || match events[0]
       case FrameByte(_) => n < limit && FramesUpTo(events[1..], limit, n + 1)
       case FrameEnd(_, _, _) => FramesUpTo(events[1..], limit, 0)
       case FrameDrop => FramesUpTo(events[1..], limit, 0)
       case _ => FramesUpTo(events[1..], limit, n)
  }

  lemma {:induction false} BytesUpTo(m: nat, b: byte, rest: seq<HwEvent>, limit: nat, n: nat)
    requires n + m <= limit && FramesUpTo(rest, limit, n + m)
    ensures FramesUpTo(Bytes(m, b) + rest, limit, n)
    decreases m
  {
    if m == 0 {
      assert Bytes(0, b) + rest == rest;
    } else {
      assert (Bytes(m, b) + rest)[0] == FrameByte(b) && (Bytes(m, b) + rest)[1..] == Bytes(m - 1, b) + rest;
      BytesUpTo(m - 1, b, rest, limit, n + 1);
    }
  }

  lemma StartUpTo(rest: seq<HwEvent>, limit: nat)
    requires FramesUpTo(rest, limit, 0)
    ensures FramesUpTo([FrameStart] + rest, limit, 0)
  {
    assert ([FrameStart] + rest)[1..] == rest;
  }

  lemma ArrivalUpTo(n: nat, rest: seq<HwEvent>, limit: nat)
    requires n <= limit && FramesUpTo(rest, limit, 0)
    ensures FramesUpTo(Arrival(n) + rest, limit, 0)
  {
    var tail := [FrameEnd(0, 0, 0)] + rest;
    assert tail[1..] == rest;
    BytesUpTo(n, 0, tail, limit, 0);
    StartUpTo(Bytes(n, 0) + tail, limit);
    assert Arrival(n) + rest == [FrameStart] + (Bytes(n, 0) + tail);
  }

  lemma LoneUpTo(n: nat, b: byte, limit: nat)
    requires n <= limit
    ensures FramesUpTo([FrameStart] + Bytes(n, b), limit, 0)
  {
    BytesUpTo(n, b, [], limit, 0);
    assert Bytes(n, b) + [] == Bytes(n, b);
    StartUpTo(Bytes(n, b), limit);
  }

  /** With nothing to stop it, the hardware laps the driver: frames of 1018 bytes and one that is still arriving, after
      at most 1019, change an unread byte. */
  lemma {:induction false} Overrun(c: Chip, taken: nat) returns (before: seq<HwEvent>, after: seq<HwEvent>, j: nat)
    requires Unguarded(c) && c.ring.rx.Idle? && taken <= |c.ring.log|
    requires Span(c.ring.log[taken..]) < SIZE && c.ring.wr == Span(c.ring.log[taken..])
    requires c.ring.cnt + (SIZE - c.ring.wr) / 1024 < 255
    ensures !ByteSafe(c, before, after, RXSTART, taken, j)
    ensures FramesUpTo(before, 1018, 0) && FramesUpTo(after, 1019, 0)
    decreases SIZE - c.ring.wr
  {
    hide Arrival;
    var gap := SIZE - c.ring.wr;
    if gap > 1024 {
      var d := RunHw(c, Arrival(1018));
      Laps(c, taken);
      before, after, j := Overrun(d, taken);
      RunSplit(c, Arrival(1018), before);
      ArrivalUpTo(1018, before, 1018);
      before := Arrival(1018) + before;
    } else {
      before := [];
      after, j := Overwrite(c);
    }
  }

  lemma AlwaysRoom(c: Chip)
    requires Unguarded(c) && c.ring.rx.Idle? && c.ring.cnt < 255
    ensures Room(c, 1018)
  {
    AlwaysFree(c.ring, c.ring.wr, 6);
    hide Free, Operating;
  }

  /** One more frame of 1018 bytes, which takes 1024 in the ring. */
  lemma Laps(c: Chip, taken: nat)
    requires Unguarded(c) && c.ring.rx.Idle? && taken <= |c.ring.log| && c.ring.cnt < 255
    ensures var d := RunHw(c, Arrival(1018));
      && Unguarded(d) && d.ring.rx.Idle? && d.ring.cnt == c.ring.cnt + 1 && d.ring.wr == At(c.ring.wr, 1024)
      && taken <= |d.ring.log| && Span(d.ring.log[taken..]) == Span(c.ring.log[taken..]) + 1024
  {
    hide Arrival, Room, Operating, Span, RunHw;
    AlwaysRoom(c);
    Arrives(c, 1018);
    SpanMore(c, RunHw(c, Arrival(1018)), 1018, taken);
  }

  lemma SpanMore(c: Chip, d: Chip, n: nat, taken: nat)
    requires FrameIn(c, d, n) && taken <= |c.ring.log|
    ensures Span(d.ring.log[taken..]) == Span(c.ring.log[taken..]) + 6 + n + n % 2
  {
    hide Operating, RingWf;
    var log, log' := c.ring.log, d.ring.log;
    assert log' == log + [log'[|log|]];
    assert log'[taken..] == log[taken..] + [log'[|log|]];
    SpanAppend(log[taken..], log'[|log|]);
  }

  /** A frame that is still arriving runs into the unread bytes. */
  lemma Overwrite(c: Chip) returns (after: seq<HwEvent>, j: nat)
    requires Unguarded(c) && c.ring.rx.Idle? && c.ring.wr > 0
    ensures j < c.ring.wr && RunHw(c, after).ring.mem[At(RXSTART, j)] != c.ring.mem[At(RXSTART, j)]
    ensures SIZE - c.ring.wr <= 1024 ==> FramesUpTo(after, 1019, 0)
  {
    var gap := SIZE - c.ring.wr;
    var n := if gap >= 6 then gap - 5 else 1;
    j := if gap >= 6 then 0 else 6 - gap;
    var b: byte := if c.ring.mem[j] == 0 then 1 else 0;
    hide Bytes, Free, Bit, Ptr;
    after := [FrameStart] + Bytes(n, b);
    AlwaysFree(c.ring, c.ring.wr, 6);
    StartGoes(c);
    BytesGoOn(Hw(c, FrameStart), n, b);
    RunOne(c, FrameStart);
    RunSplit(c, [FrameStart], Bytes(n, b));
    if gap <= 1024 { LoneUpTo(n, b, 1019); }
  }

  /** As Overrun, whatever the counter says. When it is nearly full there are packets waiting, and one long frame
      does it. */
  lemma OverrunAnyway(c: Chip, taken: nat) returns (before: seq<HwEvent>, after: seq<HwEvent>, j: nat)
    requires Unguarded(c) && c.ring.rx.Idle? && taken <= |c.ring.log| && taken + c.ring.cnt == |c.ring.log| + 1
    requires Span(c.ring.log[taken..]) < SIZE && c.ring.wr == Span(c.ring.log[taken..])
    ensures !ByteSafe(c, before, after, RXSTART, taken, j)
    ensures c.ring.cnt <= 250 ==> FramesUpTo(before, 1018, 0) && FramesUpTo(after, 1019, 0)
  {
    if c.ring.cnt <= 250 {
      before, after, j := Overrun(c, taken);
    } else {
      assert c.ring.log[taken..] != [];
      before := [];
      after, j := Overwrite(c);
    }
  }

  /** The last write of a release, ERXRDPTH, keeps every unread byte safe from every later run of the hardware,
      exactly when the next packet does not start at RXSTART. The packet released is still counted. */
  lemma SafeExactly(s: Chip, rp: nat, taken: nat)
    requires Sound(s, rp, taken) && s.latch == FreeLow(rp) && taken + s.ring.cnt == |s.ring.log| + 1
    ensures Safe(WriteCtl(s, ERXRDPTH, FreeHigh(rp)), rp, taken) <==> rp != RXSTART
  {
    var c := WriteCtl(s, ERXRDPTH, FreeHigh(rp));
    FreePointer(rp);
    if rp != RXSTART {
      FreeKeeps(s, rp, taken);
      SoundIsSafe(c, rp, taken);
    } else {
      hide Bit, Ptr;
      var d := Hw(c, FrameDrop);
      RunOne(c, FrameDrop);
      hide FreeLow, FreeHigh, Hw;
      var before, after, j := OverrunAnyway(d, taken);
      RunSplit(c, [FrameDrop], before);
      assert !ByteSafe(c, [FrameDrop] + before, after, rp, taken, j);
    }
  }

  // ---- the unsafe case is reached ----

  /** A chip that has just been started: there is one for every ERXRDPT in the ring. */
  function Fresh(rdpt: nat): Chip {
    Chip(Ring(seq(SRAM, i => 0), RXSTART, RXEND, rdpt, RXSTART, 0, Idle, []),
         seq(128, i => if i == ECON1 then 0x04 else if i == ECON2 then 0x80 else 0), 0, [])
  }

  lemma FreshStarts(rdpt: nat)
    requires rdpt <= RXEND
    ensures JustStarted(Fresh(rdpt))
  {
    var c := Fresh(rdpt);
    assert Pow2(RXEN) == 0x04 && Pow2(AUTOINC) == 0x80;
    BitOfPow2(RXEN, RXEN);
    BitOfPow2(RXEN, TXRTS);
    BitOfPow2(AUTOINC, AUTOINC);
    EmptyIsSound(c, RXSTART);
  }

  /** All packets have been taken, and nothing is arriving. */
  ghost predicate AllTaken(c: Chip, rp: nat, taken: nat) {
    Held(c, rp, taken) && |c.ring.log| == taken && c.ring.cnt == 0 && c.ring.rx.Idle?
  }

  lemma EmptyRoom(c: Chip, rp: nat, taken: nat)
    requires AllTaken(c, rp, taken) && c.ring.rdpt <= RXEND && 1024 <= Dist(rp, c.ring.rdpt)
    ensures Room(c, 1018)
  {
    assert c.ring.log[taken..] == [];
    FreeReach(c.ring, rp, 0, 6);
    forall k | 0 <= k < 1018
      ensures At(At(rp, 6), k) != c.ring.rdpt
    {
    }
  }

  /** A frame of 1018 bytes arrives, and then PacketReceive runs. */
  function RoundRun(rp: nat, n: nat): seq<Access>
    requires rp < SIZE
  {
    [Events(Arrival(1018))] + WholeReceive(rp, n, At(rp, 1024))
  }

  function RoundPart(rp: nat, n: nat, k: nat): seq<Access>
    requires rp < SIZE && k <= 18 + n
  {
    [Events(Arrival(1018))] + WholeReceive(rp, n, At(rp, 1024))[..k]
  }

  lemma PartMore(rp: nat, n: nat, k: nat)
    requires rp < SIZE && k < 18 + n
    ensures RoundPart(rp, n, k + 1) == RoundPart(rp, n, k) + [ReceiveStep(k, rp, n, At(rp, 1024))]
  {
    StepIs(k, rp, n, At(rp, 1024));
    hide WholeReceive, ReceiveStep;
  }

  function SelectionAt(k: nat): Selection {
    if k == 0 then Unknown else if k == 2 || k == 3 then Known(1) else Known(0)
  }

  /** The run is proper, and its steps are those of PacketReceive. */
  lemma {:induction false} PartIsProper(rp: nat, n: nat, k: nat)
    requires rp < SIZE && k <= 18 + n
    ensures var run := RoundPart(rp, n, k);
      && ProperRun(run) && Selected(run) == SelectionAt(k)
      && Steps(run) == WholeReceive(rp, n, At(rp, 1024))[..k]
  {
    var next := At(rp, 1024);
    if k == 0 {
      PartStarts(rp, n);
    } else {
      var before, a := RoundPart(rp, n, k - 1), ReceiveStep(k - 1, rp, n, next);
      hide WholeReceive, ReceiveStep, RoundPart, SelectionAt, ProperRun, Proper, After, Selected, Steps, At;
      PartIsProper(rp, n, k - 1);
      PartMore(rp, n, k - 1);
      StepIs(k - 1, rp, n, next);
      StepIsProper(k - 1, rp, n, next);
      OneStepMore(WholeReceive(rp, n, next), k - 1);
      RunLengthens(before, a);
    }
  }

  lemma OneStepMore(s: seq<Access>, k: nat)
    requires k < |s|
    ensures s[..k + 1] == s[..k] + [s[k]]
  {
  }

  lemma PartStarts(rp: nat, n: nat)
    requires rp < SIZE
    ensures var run := RoundPart(rp, n, 0);
      ProperRun(run) && Selected(run) == Unknown && Steps(run) == WholeReceive(rp, n, At(rp, 1024))[..0]
  {
    hide WholeReceive, Arrival;
    assert RoundPart(rp, n, 0) == [] + [Events(Arrival(1018))];
    RunLengthens([], Events(Arrival(1018)));
  }

  lemma StepIsProper(k: nat, rp: nat, n: nat, next: nat)
    requires rp < SIZE && k < 18 + n
    ensures var a := ReceiveStep(k, rp, n, next);
      !a.Events? && Proper(SelectionAt(k), a) && After(SelectionAt(k), a) == SelectionAt(k + 1)
  {
    hide FreeLow, FreeHigh;
  }

  /** Between the arrival and the end nothing else is accepted. */
  lemma {:induction false} PartKeepsLog(c: Chip, rp: nat, n: nat, k: nat)
    requires Wf(c) && rp < SIZE && k <= 18 + n
    ensures var d := RunBanked(c, RoundPart(rp, n, k)).chip;
      d.ring.log == RunHw(c, Arrival(1018)).ring.log && d.ring.rx == RunHw(c, Arrival(1018)).ring.rx
  {
    hide WholeReceive, Arrival, Banked, RunHw;
    if k == 0 {
      var e := Events(Arrival(1018));
      assert RoundPart(rp, n, 0) == [] + [e];
      RunGrows(c, [], e);
      EventsAre(c, Arrival(1018));
    } else {
      PartKeepsLog(c, rp, n, k - 1);
      PartMore(rp, n, k - 1);
      var a := ReceiveStep(k - 1, rp, n, At(rp, 1024));
      RunGrows(c, RoundPart(rp, n, k - 1), a);
      StepNoEvents(k - 1, rp, n);
      AccessKeepsLog(RunBanked(c, RoundPart(rp, n, k - 1)).chip, a);
    }
  }

  lemma EventsAre(c: Chip, events: seq<HwEvent>)
    requires Wf(c)
    ensures Banked(c, Events(events)).chip == RunHw(c, events)
  {
  }

  lemma StepNoEvents(k: nat, rp: nat, n: nat)
    requires rp < SIZE && k < 18 + n
    ensures !ReceiveStep(k, rp, n, At(rp, 1024)).Events?
  {
  }

  lemma AccessKeepsLog(c: Chip, a: Access)
    requires Wf(c) && !a.Events?
    ensures var d := Banked(c, a).chip;
      d.ring.log == c.ring.log && d.ring.rx == c.ring.rx
  {
    hide Bit, Ptr;
  }

  lemma {:induction false} PartIsRoomy(c: Chip, rp: nat, n: nat, k: nat, taken: nat)
    requires Wf(c) && rp < SIZE && k <= 18 + n && c.ring.rdpt <= RXEND
    ensures Roomy(c, RoundPart(rp, n, k), taken)
  {
    hide WholeReceive, Arrival, RunBanked, ReceiveStep;
    if k == 0 {
      var run := RoundPart(rp, n, 0);
      assert run == [] + [Events(Arrival(1018))] && run[..0] == [];
      StartsRoomy(c, taken);
    } else {
      PartIsRoomy(c, rp, n, k - 1, taken);
      PartMore(rp, n, k - 1);
      StepNoEvents(k - 1, rp, n);
      var before := RoundPart(rp, n, k - 1);
      assert RoundPart(rp, n, k)[..|before|] == before;
    }
  }

  lemma StartsRoomy(c: Chip, taken: nat)
    requires Wf(c) && c.ring.rdpt <= RXEND
    ensures Roomy(c, [], taken) && RunBanked(c, []).chip == c && RoomFor(c, Arrival(1018), taken)
  {
  }

  /** The moments of the run, as ReceiveMoments describes them. */
  lemma PartReads(c: Chip, rp: nat, n: nat, k: nat, taken: nat, seen: seq<byte>)
    requires AllTaken(c, rp, taken) && c.ring.rdpt <= RXEND && rp < SIZE && k <= 18 + n
    requires Consistent(k, n, At(rp, 1024), RunBanked(c, RoundPart(rp, n, k)).seen, seen)
    ensures var e := RunBanked(c, RoundPart(rp, n, k));
      Receiving(c, k, n, At(rp, 1024), e.chip, e.seen, rp, taken)
  {
    assert Wf(c) && Held(c, rp, taken) && taken + c.ring.cnt == |c.ring.log|;
    PartIsProper(rp, n, k);
    PartIsRoomy(c, rp, n, k, taken);
    hide AllTaken, Held, WholeReceive, Roomy, Steps, Reading, Giving, RingWf, RoundPart, RunBanked, Consistent;
    ReceiveMoments(c, RoundPart(rp, n, k), rp, taken, n, At(rp, 1024), seen);
  }

  /** The frame that has arrived. */
  lemma PartHas(c: Chip, rp: nat, n: nat, k: nat, taken: nat)
    requires AllTaken(c, rp, taken) && c.ring.rdpt <= RXEND && 1024 <= Dist(rp, c.ring.rdpt) && rp < SIZE && k <= 18 + n
    ensures var r := RunBanked(c, RoundPart(rp, n, k)).chip.ring;
      && |r.log| == taken + 1 && PacketSize(r.log[taken]) == 1024 && |r.log[taken].frame| == 1018 && r.rx.Idle?
  {
    assert Wf(c) && |c.ring.log| == taken;
    EmptyRoom(c, rp, taken);
    hide AllTaken, Arrival, RunHw, Room, RoundPart, RunBanked, Operating;
    Arrives(c, 1018);
    PartKeepsLog(c, rp, n, k);
  }

  /** The driver sees that there is a packet. */
  lemma PartCounts(c: Chip, rp: nat, n: nat, taken: nat)
    requires AllTaken(c, rp, taken) && c.ring.rdpt <= RXEND && 1024 <= Dist(rp, c.ring.rdpt) && rp < SIZE
    ensures RunBanked(c, RoundPart(rp, n, 3)).seen == [1]
  {
    var run, next := RoundPart(rp, n, 2), At(rp, 1024);
    assert Wf(c);
    var e := RunBanked(c, run);
    PartHas(c, rp, n, 2, taken);
    PartReads(c, rp, n, 2, taken, e.seen);
    PartMore(rp, n, 2);
    RunGrows(c, run, Query(0x19));
    hide AllTaken, Held, RingWf, Banked, RoundPart, RunBanked, ReadOff, Shows;
    CountReads(c, n, next, e.chip, e.seen, rp, taken);
  }

  /** It is shown the header of the frame that has arrived. */
  lemma PartShows(c: Chip, rp: nat, n: nat, taken: nat)
    requires AllTaken(c, rp, taken) && c.ring.rdpt <= RXEND && 1024 <= Dist(rp, c.ring.rdpt) && rp < SIZE
    ensures var seen := RunBanked(c, RoundPart(rp, n, 16 + n)).seen;
      && |seen| == 7 + n && seen[0] == 1
      && Short(seen[1], seen[2]) == At(rp, 1024) && Short(seen[5], seen[6]) == 1018
  {
    var k, next := 16 + n, At(rp, 1024);
    assert Wf(c);
    var e := RunBanked(c, RoundPart(rp, n, k));
    PartCounts(c, rp, n, taken);
    PartBegins(c, rp, n, 3, k);
    PartHas(c, rp, n, k, taken);
    hide AllTaken, Held, RingWf, Banked, RoundPart, RunBanked, ReadOff, Shows, Short, FreeLow, PacketSize, At;
    PartReads(c, rp, n, k, taken, e.seen);
    var bytes := e.seen[1..];
    HeaderSays(rp, e.chip.ring.log[taken], bytes);
    assert bytes[0] == e.seen[1] && bytes[1] == e.seen[2] && bytes[4] == e.seen[5] && bytes[5] == e.seen[6];
  }

  lemma PartBegins(c: Chip, rp: nat, n: nat, k: nat, m: nat)
    requires Wf(c) && rp < SIZE && k <= m <= 18 + n
    ensures RunBanked(c, RoundPart(rp, n, k)).seen <= RunBanked(c, RoundPart(rp, n, m)).seen
  {
    PartSlices(rp, n, k, m);
    hide RunBanked, RoundPart;
    BytesPrefix(c, RoundPart(rp, n, m), k + 1);
  }

  lemma PartSlices(rp: nat, n: nat, k: nat, m: nat)
    requires rp < SIZE && k <= m <= 18 + n
    ensures |RoundPart(rp, n, m)| == m + 1 && RoundPart(rp, n, m)[..k + 1] == RoundPart(rp, n, k)
  {
    hide WholeReceive, Arrival, At;
    SliceFront(Events(Arrival(1018)), WholeReceive(rp, n, At(rp, 1024)), k, m);
  }

  lemma SliceFront(a: Access, s: seq<Access>, k: nat, m: nat)
    requires k <= m <= |s|
    ensures ([a] + s[..m])[..k + 1] == [a] + s[..k]
  {
  }

  /** One round: PacketReceive runs, with a buffer of any length, and takes the frame that has arrived. */
  lemma RoundTakes(c: Chip, rp: nat, taken: nat, maxlen: nat)
    requires AllTaken(c, rp, taken) && c.ring.rdpt <= RXEND && 1024 <= Dist(rp, c.ring.rdpt) && rp < SIZE
    ensures var next, run := At(rp, 1024), RoundRun(rp, Delivered(1018, maxlen));
      var e := RunBanked(c, run);
      && ProperRun(run) && Steps(run) == ReceiveSteps(rp, maxlen, e.seen)
      && AllTaken(e.chip, next, taken + 1) && e.chip.ring.rdpt == Ptr(FreeLow(next), FreeHigh(next))
  {
    var n, next := Delivered(1018, maxlen), At(rp, 1024);
    assert Wf(c);
    var run := RoundPart(rp, n, 18 + n);
    var e := RunBanked(c, run);
    assert RoundRun(rp, n) == run by { hide WholeReceive; }
    PartIsProper(rp, n, 18 + n);
    PartShows(c, rp, n, taken);
    PartBegins(c, rp, n, 16 + n, 18 + n);
    PartHas(c, rp, n, 18 + n, taken);
    hide Held, RingWf, Banked, RoundPart, RunBanked, RoundRun, Shows, Short, FreeLow, FreeHigh, PacketSize, At, Steps,
      WholeReceive, Ptr, Delivered;
    PartReads(c, rp, n, 18 + n, taken, e.seen);
    WholeIs(rp, maxlen, e.seen, n, next);
  }

  function AfterRound(c: Chip, rp: nat, maxlen: nat): (d: Chip)
    requires Wf(c) && rp < SIZE
    ensures Wf(d)
  {
    RunBanked(c, RoundRun(rp, Delivered(1018, maxlen))).chip
  }

  /** What happens in a round after the arrival is a call of PacketReceive: these are its accesses, given what it is
      shown. */
  ghost predicate Receives(c: Chip, rp: nat, maxlen: nat)
    requires Wf(c) && rp < SIZE
  {
    var run := RoundRun(rp, Delivered(1018, maxlen));
    ProperRun(run) && Steps(run) == ReceiveSteps(rp, maxlen, RunBanked(c, run).seen)
  }

  /** Three such rounds. */
  function Lap(c: Chip, maxlen: nat): (d: Chip)
    requires Wf(c)
    ensures Wf(d)
  {
    AfterRound(AfterRound(AfterRound(c, RXSTART, maxlen), 1024, maxlen), 2048, maxlen)
  }

  /** From a chip as Init leaves it, with ERXRDPT anywhere behind the first such frame, three frames of 1018 bytes and
      three calls of PacketReceive lead to a release at RXSTART. Everything has been taken by then, but what arrives
      from now on is not safe. */
  lemma StartIsReached(c: Chip, maxlen: nat)
    requires JustStarted(c) && c.ring.rdpt >= 1024
    ensures var d := Lap(c, maxlen);
      AllTaken(d, RXSTART, 3) && d.ring.rdpt > RXEND && !Safe(d, RXSTART, 3)
    ensures var c1 := AfterRound(c, RXSTART, maxlen);
      Receives(c, RXSTART, maxlen) && Receives(c1, 1024, maxlen) && Receives(AfterRound(c1, 1024, maxlen), 2048, maxlen)
  {
    StartAllTaken(c);
    FreePointer(1024);
    FreePointer(2048);
    FreePointer(RXSTART);
    assert Wf(c);
    hide AllTaken, JustStarted, RunBanked, RoundRun, ReceiveSteps, Steps, ProperRun, FreeLow, FreeHigh, Ptr, RingWf,
      Safe;
    RoundTakes(c, RXSTART, 0, maxlen);
    var c1 := AfterRound(c, RXSTART, maxlen);
    RoundTakes(c1, 1024, 1, maxlen);
    var c2 := AfterRound(c1, 1024, maxlen);
    RoundTakes(c2, 2048, 2, maxlen);
    EmptyIsUnsafe(AfterRound(c2, 2048, maxlen), 3);
  }

  lemma StartAllTaken(c: Chip)
    requires JustStarted(c)
    ensures AllTaken(c, RXSTART, 0) && c.ring.rdpt <= RXEND
  {
    HeldMeans(c, RXSTART, 0);
    hide Sound, Held;
  }

  lemma EmptyIsUnsafe(d: Chip, taken: nat)
    requires AllTaken(d, RXSTART, taken) && d.ring.rdpt > RXEND
    ensures !Safe(d, RXSTART, taken)
  {
    assert d.ring.log[taken..] == [];
    var before, after, j := Overrun(d, taken);
    assert !ByteSafe(d, before, after, RXSTART, taken, j);
  }
}
