/** What the receive buffer means: the bytes from the driver's read position on are the unread packets, one after
    the other. The invariant is stated on offsets from the read position, so that wrapping happens in one place. */
module RxRing {
  import opened Bits
  import opened Enc28Chip

  const SIZE := RXEND + 1

  /** The location k bytes after `at`. */
  function At(at: nat, k: nat): nat {
    if at + k >= SIZE then at + k - SIZE else at + k
  }

  /** How far `to` lies ahead of `from`, going round the ring. */
  function Dist(from: nat, to: nat): int {
    if to >= from then to - from else to + SIZE - from
  }

  // ---- the layout of packets ----

  function PacketSize(p: Packet): nat {
    6 + |p.frame| + |p.pad|
  }

  function Span(q: seq<Packet>): nat {
    if q == [] then 0 else PacketSize(q[0]) + Span(q[1..])
  }

  /** The header of a packet that starts at `at`: it points behind the packet. */
  function HeaderOf(at: nat, p: Packet): (h: seq<byte>)
    ensures |h| == 6
  {
    Header(At(at, PacketSize(p)), p.status0, p.status1, |p.frame|)
  }

  /** A packet whose header lies at `at`. */
  function Encode(at: nat, p: Packet): (e: seq<byte>)
    ensures |e| == PacketSize(p)
  {
    HeaderOf(at, p) + p.frame + p.pad
  }

  function Image(at: nat, q: seq<Packet>): (b: seq<byte>)
    ensures |b| == Span(q)
    decreases |q|
  {
    if q == [] then [] else Encode(at, q[0]) + Image(At(at, PacketSize(q[0])), q[1..])
  }

  // ---- the invariant ----

  ghost predicate Geometry(r: Ring) {
    RingWf(r) && r.st == RXSTART && r.nd == RXEND
  }

  function Progress(rx: Receiver): nat {
    if rx.Idle? then 0 else 6 + |rx.frame|
  }

  /** The ring holds bytes k locations after rp. */
  ghost predicate Holds(mem: seq<byte>, rp: nat, k: nat, bytes: seq<byte>)
    requires |mem| == SRAM && rp < SIZE
  {
    k + |bytes| <= SIZE && forall j :: 0 <= j < |bytes| ==> mem[At(rp, k + j)] == bytes[j]
  }

  /** The driver reads at rp and `used` bytes are unread: they end at ERXWRPT, the frame being received follows,
      and ERXRDPT lies no nearer than its end. */
  ghost predicate Pointers(r: Ring, rp: nat, used: nat) {
    && Geometry(r) && rp < SIZE && r.rdpt < SIZE
    && used + Progress(r.rx) <= Dist(rp, r.rdpt)
    && r.wr == At(rp, used)
    && (r.rx.Busy? ==> r.rx.cur == At(rp, used + Progress(r.rx)))
  }

  /** The unread bytes are `image`, and the frame being received lies behind them. */
  ghost predicate Contents(r: Ring, rp: nat, image: seq<byte>)
    requires |r.mem| == SRAM && rp < SIZE
  {
    && Holds(r.mem, rp, 0, image)
    && (r.rx.Busy? ==> Holds(r.mem, rp, |image| + 6, r.rx.frame))
  }

  ghost predicate Ready(r: Ring, rp: nat, image: seq<byte>) {
    Pointers(r, rp, |image|) && Contents(r, rp, image)
  }

  /** The ring invariant: the driver has taken the first `taken` of the accepted packets, reads at rp, and the
      others fill the ring from there on. */
  ghost predicate RingInv(r: Ring, rp: nat, taken: nat) {
    taken <= |r.log| && Ready(r, rp, Image(rp, r.log[taken..]))
  }

  // ---- pointers going round ----

  lemma {:induction false} SkipWraps(a: nat, n: nat)
    requires a < SIZE && n <= SIZE
    ensures Skip(RXSTART, RXEND, a, n) == At(a, n)
    decreases n
  {
    if n > 0 {
      var next := Succ(RXSTART, RXEND, a);
      assert next == At(a, 1);
      SkipWraps(next, n - 1);
      assert At(next, n - 1) == At(a, n);
    }
  }

  /** Stretches the hardware finds free end before ERXRDPT. */
  lemma {:induction false} FreeReach(r: Ring, rp: nat, k: nat, n: nat)
    requires Geometry(r) && rp < SIZE && r.rdpt < SIZE && k <= Dist(rp, r.rdpt)
    ensures Free(r, At(rp, k), n) <==> k + n <= Dist(rp, r.rdpt)
    decreases n
  {
    if n > 0 && k < Dist(rp, r.rdpt) {
      FreeReach(r, rp, k + 1, n - 1);
    }
  }

  /** A write of k bytes into the ring changes those locations and no others. */
  lemma {:induction false} PutInRing(mem: seq<byte>, rp: nat, k: nat, bytes: seq<byte>)
    requires |mem| == SRAM && rp < SIZE && k + |bytes| <= SIZE
    ensures var m := Put(mem, RXSTART, RXEND, At(rp, k), bytes);
      && (forall j :: 0 <= j < SIZE ==>
            m[At(rp, j)] == if k <= j < k + |bytes| then bytes[j - k] else mem[At(rp, j)])
      && (forall a :: SIZE <= a < SRAM ==> m[a] == mem[a])
    decreases |bytes|
  {
    if bytes != [] {
      var a := At(rp, k);
      if k + 1 < SIZE {
        PutInRing(mem[a := bytes[0]], rp, k + 1, bytes[1..]);
      } else {
        assert bytes[1..] == [];
      }
    }
  }

  lemma HoldsAfterWrite(mem: seq<byte>, rp: nat, k: nat, bytes: seq<byte>, at: nat, b: byte)
    requires |mem| == SRAM && rp < SIZE && Holds(mem, rp, k, bytes) && k + |bytes| <= at < SIZE
    ensures Holds(mem[At(rp, at) := b], rp, k, bytes)
    ensures at == k + |bytes| ==> Holds(mem[At(rp, at) := b], rp, k, bytes + [b])
  {
  }

  lemma HoldsConcat(mem: seq<byte>, rp: nat, k: nat, a: seq<byte>, b: seq<byte>)
    requires |mem| == SRAM && rp < SIZE
    ensures Holds(mem, rp, k, a + b) <==> Holds(mem, rp, k, a) && Holds(mem, rp, k + |a|, b)
  {
    if Holds(mem, rp, k, a + b) {
      assert forall j :: 0 <= j < |a| ==> a[j] == (a + b)[j];
      assert forall j :: 0 <= j < |b| ==> b[j] == (a + b)[|a| + j];
    }
  }

  lemma HoldsAfterPut(mem: seq<byte>, rp: nat, k: nat, bytes: seq<byte>, other: nat, kept: seq<byte>)
    requires |mem| == SRAM && rp < SIZE && k + |bytes| <= SIZE && Holds(mem, rp, other, kept)
    requires other + |kept| <= k || k + |bytes| <= other
    ensures var m := Put(mem, RXSTART, RXEND, At(rp, k), bytes);
      Holds(m, rp, k, bytes) && Holds(m, rp, other, kept)
  {
    PutInRing(mem, rp, k, bytes);
  }

  lemma EncodeHolds(mem: seq<byte>, rp: nat, k: nat, at: nat, p: Packet)
    requires |mem| == SRAM && rp < SIZE
    requires Holds(mem, rp, k, HeaderOf(at, p)) && Holds(mem, rp, k + 6, p.frame)
    requires Holds(mem, rp, k + 6 + |p.frame|, p.pad)
    ensures Holds(mem, rp, k, Encode(at, p))
  {
    var head := HeaderOf(at, p);
    HoldsConcat(mem, rp, k, head, p.frame);
    HoldsConcat(mem, rp, k, head + p.frame, p.pad);
  }

  /** The pad written behind a frame that is in place. */
  lemma PadWritten(mem: seq<byte>, rp: nat, before: seq<byte>, p: Packet)
    requires |mem| == SRAM && rp < SIZE && |before| + PacketSize(p) <= SIZE
    requires Holds(mem, rp, 0, before) && Holds(mem, rp, |before| + 6, p.frame)
    ensures var m := Put(mem, RXSTART, RXEND, At(rp, |before| + 6 + |p.frame|), p.pad);
      && Holds(m, rp, 0, before) && Holds(m, rp, |before| + 6, p.frame)
      && Holds(m, rp, |before| + 6 + |p.frame|, p.pad)
  {
    HoldsAfterPut(mem, rp, |before| + 6 + |p.frame|, p.pad, 0, before);
    HoldsAfterPut(mem, rp, |before| + 6 + |p.frame|, p.pad, |before| + 6, p.frame);
  }

  /** The header written in front completes the packet. */
  lemma HeaderWritten(mem: seq<byte>, rp: nat, before: seq<byte>, p: Packet)
    requires |mem| == SRAM && rp < SIZE && |before| + PacketSize(p) <= SIZE
    requires Holds(mem, rp, 0, before) && Holds(mem, rp, |before| + 6, p.frame)
    requires Holds(mem, rp, |before| + 6 + |p.frame|, p.pad)
    ensures var at := At(rp, |before|);
      Holds(Put(mem, RXSTART, RXEND, at, HeaderOf(at, p)), rp, 0, before + Encode(at, p))
  {
    var k := |before|;
    var at := At(rp, k);
    var head := HeaderOf(at, p);
    HoldsAfterPut(mem, rp, k, head, 0, before);
    HoldsAfterPut(mem, rp, k, head, k + 6, p.frame);
    HoldsAfterPut(mem, rp, k, head, k + 6 + |p.frame|, p.pad);
    var m := Put(mem, RXSTART, RXEND, at, head);
    EncodeHolds(m, rp, k, at, p);
    HoldsConcat(m, rp, 0, before, Encode(at, p));
  }

  // ---- images ----

  lemma {:induction false} SpanAppend(q: seq<Packet>, p: Packet)
    ensures Span(q + [p]) == Span(q) + PacketSize(p)
  {
    if q == [] {
      assert q + [p] == [p];
    } else {
      assert (q + [p])[1..] == q[1..] + [p];
      SpanAppend(q[1..], p);
    }
  }

  lemma {:induction false} ImageAppend(at: nat, q: seq<Packet>, p: Packet)
    requires at < SIZE && Span(q) + PacketSize(p) <= SIZE
    ensures Image(at, q + [p]) == Image(at, q) + Encode(At(at, Span(q)), p)
    decreases |q|
  {
    hide Encode;
    if q == [] {
      assert q + [p] == [p];
      assert Image(at, [p]) == Encode(at, p) + [];
    } else {
      assert (q + [p])[0] == q[0] && (q + [p])[1..] == q[1..] + [p];
      var next := At(at, PacketSize(q[0]));
      ImageAppend(next, q[1..], p);
      assert At(next, Span(q[1..])) == At(at, Span(q));
    }
  }

  lemma {:induction false} ImagePrefix(at: nat, q: seq<Packet>, q': seq<Packet>)
    requires q <= q'
    ensures Image(at, q) <= Image(at, q')
    decreases |q|
  {
    if q != [] { ImagePrefix(At(at, PacketSize(q[0])), q[1..], q'[1..]); }
  }

  // ---- what each hardware step keeps ----

  lemma StartKeeps(r: Ring, rp: nat, image: seq<byte>)
    requires Ready(r, rp, image)
    ensures Ready(RxStart(r), rp, image)
  {
    FreeReach(r, rp, |image|, 6);
    SkipWraps(r.wr, 6);
  }

  lemma ByteMoves(r: Ring, rp: nat, used: nat, b: byte)
    requires Pointers(r, rp, used)
    ensures Pointers(RxByte(r, b), rp, used)
  {
  }

  lemma ByteKeeps(r: Ring, rp: nat, image: seq<byte>, b: byte)
    requires Ready(r, rp, image)
    ensures Ready(RxByte(r, b), rp, image)
  {
    ByteMoves(r, rp, |image|, b);
    if r.rx.Busy? && r.rx.cur != r.rdpt {
      HoldsAfterWrite(r.mem, rp, 0, image, |image| + Progress(r.rx), b);
      HoldsAfterWrite(r.mem, rp, |image| + 6, r.rx.frame, |image| + Progress(r.rx), b);
    }
  }

  /** The packet that the hardware commits when a frame ends. */
  function Committed(rx: Receiver, status0: byte, status1: byte, pad: byte): Packet
    requires rx.Busy?
  {
    Packet(status0, status1, rx.frame, if |rx.frame| % 2 == 1 then [pad] else [])
  }

  /** The end of a frame either commits it, at the offsets it was announced for, or discards it. */
  lemma EndMoves(r: Ring, rp: nat, used: nat, status0: byte, status1: byte, pad: byte)
    requires Pointers(r, rp, used) && r.rx.Busy?
    ensures var s := RxEnd(r, status0, status1, pad);
      var p := Committed(r.rx, status0, status1, pad);
      || s == r.(rx := Idle)
      || (&& used + PacketSize(p) <= Dist(rp, r.rdpt)
          && s == r.(mem := s.mem, wr := At(rp, used + PacketSize(p)), cnt := r.cnt + 1, rx := Idle, log := r.log + [p])
          && s.mem == Put(Put(r.mem, RXSTART, RXEND, At(rp, used + 6 + |p.frame|), p.pad), RXSTART, RXEND,
                          At(rp, used), HeaderOf(At(rp, used), p)))
  {
    hide Put, Header;
  }

  lemma EndKeeps(r: Ring, rp: nat, image: seq<byte>, status0: byte, status1: byte, pad: byte)
    requires Ready(r, rp, image)
    ensures var s := RxEnd(r, status0, status1, pad);
      || (s.log == r.log && Ready(s, rp, image))
      || exists p :: s.log == r.log + [p] && |image| + PacketSize(p) <= SIZE && Ready(s, rp, image + Encode(r.wr, p))
  {
    if r.rx.Busy? {
      EndMoves(r, rp, |image|, status0, status1, pad);
      var s := RxEnd(r, status0, status1, pad);
      if s != r.(rx := Idle) {
        var p := Committed(r.rx, status0, status1, pad);
        PadWritten(r.mem, rp, image, p);
        HeaderWritten(Put(r.mem, RXSTART, RXEND, r.rx.cur, p.pad), rp, image, p);
        assert s.log == r.log + [p] && Ready(s, rp, image + Encode(r.wr, p));
      }
    }
  }
}
