/** ERXRDPT outside the ring, where it stops nothing: what the hardware then does, and what is lost. */
module Enc28Unguarded {
  import opened Bits
  import opened Enc28Chip
  import opened RxRing
  import opened RxHardware
  import opened DriverSteps

  /** A chip whose receive hardware has nothing to stop it. */
  ghost predicate Unguarded(c: Chip) {
    Operating(c) && c.ring.rdpt > RXEND
  }

  lemma {:induction false} AlwaysFree(r: Ring, a: nat, n: nat)
    requires Geometry(r) && r.rdpt > RXEND && a < SIZE
    ensures Free(r, a, n)
    decreases n
  {
    if n > 0 { AlwaysFree(r, Succ(r.st, r.nd, a), n - 1); }
  }

  /** The same chip with ERXRDPT at RXEND, if it was outside the ring: the guard of the read position RXSTART. */
  function Guarded(c: Chip): Chip {
    if c.ring.rdpt > RXEND then c.(ring := c.ring.(rdpt := RXEND)) else c
  }

  /** The ring holds the unread packets from rp on, and the frame being received. If ERXRDPT is outside, rp is RXSTART,
      and all is as it would be with the guard in place. */
  ghost predicate Held(c: Chip, rp: nat, taken: nat) {
    && Operating(c)
    && (c.ring.rdpt > RXEND ==> rp == RXSTART)
    && Sound(Guarded(c), rp, taken)
  }

  lemma HeldMeans(c: Chip, rp: nat, taken: nat)
    ensures Sound(c, rp, taken) ==> Held(c, rp, taken) && c.ring.rdpt <= RXEND
    ensures Held(c, rp, taken) && c.ring.rdpt <= RXEND ==> Sound(c, rp, taken)
  {
    hide Configured;
  }

  /** What has been accepted and not yet freed, and what is arriving, fits in the ring. */
  ghost predicate Fits(c: Chip, freed: nat)
    requires Wf(c)
  {
    freed <= |c.ring.log| && Span(c.ring.log[freed..]) + Progress(c.ring.rx) < SIZE
  }

  /** ... at every moment of a run of the hardware. */
  ghost predicate FitsThroughout(c: Chip, events: seq<HwEvent>, freed: nat)
    requires Wf(c)
    decreases |events|
  {
    Fits(c, freed) && (events == [] || FitsThroughout(Hw(c, events[0]), events[1..], freed))
  }

  /** As long as everything fits, the hardware does what it would do with the guard in place. */
  lemma GuardIsMoot(c: Chip, e: HwEvent, taken: nat)
    requires Unguarded(c) && Held(c, RXSTART, taken) && Fits(Hw(c, e), taken)
    ensures Unguarded(Hw(c, e)) && Guarded(Hw(c, e)) == Hw(Guarded(c), e)
  {
    HwOperates(c, e);
    HwEvolves(c, e);
    var g := Guarded(c);
    var used := Span(c.ring.log[taken..]);
    match e
    case FrameStart =>
      AlwaysFree(c.ring, c.ring.wr, 6);
      FreeReach(g.ring, RXSTART, used, 6);
      hide Free, Bit, Ptr, Skip;
      assert c.ring.wr == At(RXSTART, used);
    case FrameByte(b) =>
      hide Bit, Ptr;
    case FrameEnd(s0, s1, pad) =>
      EndIsMoot(c, s0, s1, pad, taken);
      hide Bit, Ptr, RxEnd;
    case _ =>
      hide Bit, Ptr, Put;
  }

  lemma EndIsMoot(c: Chip, s0: byte, s1: byte, pad: byte, taken: nat)
    requires Unguarded(c) && Held(c, RXSTART, taken) && Fits(Hw(c, FrameEnd(s0, s1, pad)), taken)
    ensures RxEnd(c.ring, s0, s1, pad).(rdpt := RXEND) == RxEnd(Guarded(c).ring, s0, s1, pad)
  {
    assert c.ring.rx.Busy? ==> c.ring.rx.cur == At(RXSTART, Span(c.ring.log[taken..]) + Progress(c.ring.rx));
    assert Geometry(c.ring) && taken <= |c.ring.log|;
    hide Put, Header, Sound, Held, Unguarded, Bit, Ptr;
    var r := c.ring;
    if r.rx.Busy? && r.cnt != 255 && |r.rx.frame| % 2 == 1 {
      var s := RxEnd(r, s0, s1, pad);
      var p := s.log[|r.log|];
      assert s.log[taken..] == r.log[taken..] + [p];
      SpanAppend(r.log[taken..], p);
      assert r.rx.cur != RXEND;
    }
  }

  lemma FitsSound(c: Chip, rp: nat, taken: nat)
    requires Sound(c, rp, taken)
    ensures Fits(c, taken)
  {
    hide Configured;
  }

  /** One event, exactly: with and without the guard the hardware does the same if and only if everything still fits. */
  lemma MootIf(c: Chip, e: HwEvent, taken: nat)
    requires Unguarded(c) && Held(c, RXSTART, taken)
    ensures Guarded(Hw(c, e)) == Hw(Guarded(c), e) <==> Fits(Hw(c, e), taken)
    ensures Fits(Hw(c, e), taken) ==> Unguarded(Hw(c, e)) && Held(Hw(c, e), RXSTART, taken)
  {
    HwKeeps(Guarded(c), e, RXSTART, taken);
    FitsSound(Hw(Guarded(c), e), RXSTART, taken);
    if Fits(Hw(c, e), taken) { GuardIsMoot(c, e, taken); }
    hide Sound, Operating, Hw;
  }

  ghost predicate SameAsGuarded(c: Chip, events: seq<HwEvent>)
    requires Wf(c)
  {
    Guarded(RunHw(c, events)) == RunHw(Guarded(c), events)
  }

  /** A run: at every moment the hardware has done what it would have done with the guard in place, if and only if
      everything fits throughout. Then nothing is lost. */
  lemma {:induction false} MootExactly(c: Chip, events: seq<HwEvent>, taken: nat)
    requires Unguarded(c) && Held(c, RXSTART, taken)
    ensures (forall k :: 0 <= k <= |events| ==> SameAsGuarded(c, events[..k])) <==> FitsThroughout(c, events, taken)
    ensures FitsThroughout(c, events, taken) ==>
              Unguarded(RunHw(c, events)) && Held(RunHw(c, events), RXSTART, taken)
    decreases |events|
  {
    assert Wf(c) && Wf(Guarded(c));
    HeldFits(c, taken);
    hide Held, Unguarded, Guarded, Hw, Fits, RingWf;
    if events == [] {
      assert events[..0] == [];
    } else {
      var d, rest := Hw(c, events[0]), events[1..];
      MootIf(c, events[0], taken);
      if Fits(d, taken) {
        MootExactly(d, rest, taken);
        FirstApart(c, events);
      } else {
        assert !FitsThroughout(d, rest, taken);
        RunFirst(c, events[..1]);
        RunFirst(Guarded(c), events[..1]);
        assert !SameAsGuarded(c, events[..1]);
      }
    }
  }

  lemma HeldFits(c: Chip, taken: nat)
    requires Held(c, RXSTART, taken)
    ensures Fits(c, taken)
  {
    FitsSound(Guarded(c), RXSTART, taken);
  }

  lemma RunFirst(c: Chip, events: seq<HwEvent>)
    requires Wf(c) && |events| == 1
    ensures RunHw(c, events) == Hw(c, events[0])
  {
    assert RunHw(c, events) == RunHw(Hw(c, events[0]), events[1..]);
  }

  lemma FirstApart(c: Chip, events: seq<HwEvent>)
    requires Wf(c) && events != [] && Guarded(Hw(c, events[0])) == Hw(Guarded(c), events[0])
    ensures var d := Hw(c, events[0]);
      (forall k :: 0 <= k <= |events| ==> SameAsGuarded(c, events[..k]))
      <==> (forall k :: 0 <= k <= |events| - 1 ==> SameAsGuarded(d, events[1..][..k]))
  {
    var d := Hw(c, events[0]);
    assert Wf(Guarded(c));
    hide Guarded, Hw, RingWf;
    assert SameAsGuarded(c, events[..0]);
    forall k | 0 <= k <= |events| - 1
      ensures SameAsGuarded(c, events[..k + 1]) <==> SameAsGuarded(d, events[1..][..k])
    {
      assert events[..k + 1][0] == events[0] && events[..k + 1][1..] == events[1..][..k];
    }
    if forall k :: 0 <= k <= |events| - 1 ==> SameAsGuarded(d, events[1..][..k]) {
      forall k | 0 <= k <= |events|
        ensures SameAsGuarded(c, events[..k])
      {
        if k > 0 { assert SameAsGuarded(d, events[1..][..k - 1]); }
      }
    }
  }

  // ---- what keeps the ring ----

  /** There is room for what arrives, if nothing else stops it. */
  ghost predicate RoomFor(c: Chip, events: seq<HwEvent>, freed: nat)
    requires Wf(c)
  {
    c.ring.rdpt > RXEND ==> FitsThroughout(c, events, freed)
  }

  lemma HeldRun(c: Chip, events: seq<HwEvent>, rp: nat, taken: nat)
    requires Held(c, rp, taken) && RoomFor(c, events, taken)
    ensures var d := RunHw(c, events);
      Held(d, rp, taken) && d.ring.rdpt == c.ring.rdpt
  {
    RunIdles(c, events, rp, taken);
    hide Sound, Operating, TxQuiet, FitsThroughout;
    if c.ring.rdpt > RXEND {
      MootExactly(c, events, taken);
    } else {
      HeldMeans(c, rp, taken);
      HeldMeans(RunHw(c, events), rp, taken);
    }
  }

  /** The ring is held all along a run of the hardware; if firm, it is guarded as well. */
  ghost predicate HeldAlong(c: Chip, events: seq<HwEvent>, rp: nat, taken: nat, firm: bool)
    requires Wf(c)
  {
    forall j :: 0 <= j <= |events| ==>
      Held(RunHw(c, events[..j]), rp, taken) && (firm ==> Sound(RunHw(c, events[..j]), rp, taken))
  }

  lemma {:induction false} FitsPrefix(c: Chip, events: seq<HwEvent>, j: nat, freed: nat)
    requires Wf(c) && j <= |events| && FitsThroughout(c, events, freed)
    ensures FitsThroughout(c, events[..j], freed)
    decreases j
  {
    hide Fits, Hw, RingWf;
    if j > 0 {
      assert events[..j][0] == events[0] && events[..j][1..] == events[1..][..j - 1];
      FitsPrefix(Hw(c, events[0]), events[1..], j - 1, freed);
    }
  }

  lemma RoomHolds(c: Chip, events: seq<HwEvent>, rp: nat, taken: nat, firm: bool)
    requires Held(c, rp, taken) && RoomFor(c, events, taken) && (firm ==> c.ring.rdpt <= RXEND)
    ensures HeldAlong(c, events, rp, taken, firm)
  {
    assert Wf(c);
    hide Held, FitsThroughout, Hw, RunHw, RingWf, Sound;
    forall j | 0 <= j <= |events|
      ensures Held(RunHw(c, events[..j]), rp, taken) && (firm ==> Sound(RunHw(c, events[..j]), rp, taken))
    {
      if c.ring.rdpt > RXEND { FitsPrefix(c, events, j, taken); }
      HeldRun(c, events[..j], rp, taken);
      HeldMeans(RunHw(c, events[..j]), rp, taken);
    }
  }

  /** And only then: whenever ERXRDPT is outside, what is held fits. */
  lemma HoldingNeedsRoom(c: Chip, events: seq<HwEvent>, rp: nat, taken: nat)
    requires Wf(c) && HeldAlong(c, events, rp, taken, false)
    ensures RoomFor(c, events, taken)
  {
    assert RunHw(c, events[..0]) == c;
    assert Held(c, rp, taken);
    hide Held, FitsThroughout, RingWf, RunHw;
    if c.ring.rdpt > RXEND {
      assert rp == RXSTART by { HeldAtStart(c, rp, taken); }
      HoldingFits(c, events, taken);
    }
  }

  lemma HeldAtStart(c: Chip, rp: nat, taken: nat)
    requires Held(c, rp, taken) && c.ring.rdpt > RXEND
    ensures rp == RXSTART
  {
  }

  lemma {:induction false} HoldingFits(c: Chip, events: seq<HwEvent>, taken: nat)
    requires Wf(c) && HeldAlong(c, events, RXSTART, taken, false)
    ensures FitsThroughout(c, events, taken)
    decreases |events|
  {
    assert RunHw(c, events[..0]) == c;
    assert Held(c, RXSTART, taken);
    HeldFits(c, taken);
    hide Held, Fits, Hw, RingWf;
    if events != [] {
      var d, rest := Hw(c, events[0]), events[1..];
      forall j | 0 <= j <= |rest|
        ensures Held(RunHw(d, rest[..j]), RXSTART, taken)
      {
        assert events[..j + 1][0] == events[0] && events[..j + 1][1..] == rest[..j];
        assert RunHw(d, rest[..j]) == RunHw(c, events[..j + 1]);
      }
      HoldingFits(d, rest, taken);
    }
  }

  /** Accesses that leave the ring alone. */
  lemma HeldSame(c: Chip, d: Chip, rp: nat, taken: nat)
    requires Held(c, rp, taken) && Operating(d) && d.ring == c.ring.(cnt := d.ring.cnt)
    ensures Held(d, rp, taken)
  {
    hide Bit, Ptr;
  }

  /** A write above the ring. */
  lemma HeldAbove(c: Chip, d: Chip, rp: nat, taken: nat)
    requires Held(c, rp, taken) && Operating(d) && d.ring == c.ring.(mem := d.ring.mem)
    requires forall i :: 0 <= i < SIZE ==> d.ring.mem[i] == c.ring.mem[i]
    ensures Held(d, rp, taken)
  {
    var g := Guarded(c);
    InvElsewhere(g.ring, d.ring.mem, rp, taken);
    hide Bit, Ptr, RingInv;
  }

  /** The oldest packet is freed: wherever the next one starts, the ring is held, and it is guarded again unless that is
      RXSTART. */
  lemma HeldFree(c: Chip, rp: nat, taken: nat)
    requires Held(c, rp, taken) && taken < |c.ring.log|
    ensures var next := At(rp, PacketSize(c.ring.log[taken]));
      var d := c.(ring := c.ring.(rdpt := Ptr(FreeLow(next), FreeHigh(next))));
      && next < SIZE && Held(d, next, taken + 1) && (next != RXSTART <==> d.ring.rdpt <= RXEND)
  {
    var g := Guarded(c);
    var next := At(rp, PacketSize(c.ring.log[taken]));
    TakeKeeps(g, rp, taken);
    NextInside(g, rp, taken);
    FreePointer(next);
    var d := c.(ring := c.ring.(rdpt := Ptr(FreeLow(next), FreeHigh(next))));
    hide FreeLow, FreeHigh, Ptr, At, PacketSize;
    if next != RXSTART {
      FreeKeeps(g, next, taken + 1);
      HeldMeans(d, next, taken + 1);
    } else {
      GuardWhole(g, taken + 1);
    }
    hide Sound;
  }

  lemma NextInside(c: Chip, rp: nat, taken: nat)
    requires Sound(c, rp, taken) && taken < |c.ring.log|
    ensures At(rp, PacketSize(c.ring.log[taken])) < SIZE
  {
    hide Configured;
    assert c.ring.log[taken..][0] == c.ring.log[taken];
  }

  lemma GuardWhole(g: Chip, taken: nat)
    requires Sound(g, RXSTART, taken)
    ensures Sound(g.(ring := g.ring.(rdpt := RXEND)), RXSTART, taken)
  {
    hide Bit, Ptr;
  }
}
