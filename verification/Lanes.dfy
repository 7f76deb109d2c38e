/** Four byte lanes in a 32-bit word, as the drivers update them: mask out, shift in. */
module Lanes {
  import opened Bits

  /** 1 << 8 * k */
  function Unit(k: nat): (u: nat)
    requires k < 4
    ensures u >= 1 && u == Pow2(8 * k)
  {
    assert Pow2(8) == 0x100;
    PowAdd(8, 8);
    PowAdd(16, 8);
    if k == 0 then 1 else if k == 1 then 0x100 else if k == 2 then 0x1_0000 else 0x100_0000
  }

  /** (w >> 8 * k) & 0xFF */
  function Lane(w: nat, k: nat): (b: byte)
    requires k < 4
  {
    MaskByte(w / Unit(k));
    And(w / Unit(k), 0xFF)
  }

  /** (w & ~(0xFF << 8 * k)) | ((v & 0xFF) << 8 * k) */
  function WithLane(w: nat, k: nat, v: nat): nat
    requires k < 4
  {
    Or(AndNot(w, 0xFF * Unit(k)), And(v, 0xFF) * Unit(k))
  }

  lemma Replace0(w: nat, b: byte)
    ensures Or(AndNot(w, 0xFF), b) == w - w % 256 + b
  {
    hide Or, AndNot;
    MaskByte(w);
    ByteJoin(w / 256, b);
  }

  lemma Replace1(w: nat, b: byte)
    ensures Or(AndNot(w, 0xFF * 256), b * 256) == w - w / 256 % 256 * 256 + b * 256
  {
    hide Or, AndNot;
    var x := AndNot(w, 256 * 0xFF);
    ByteStep(w, 0xFF);
    ByteStep(x, b);
    Replace0(w / 256, b);
  }

  lemma Replace2(w: nat, b: byte)
    ensures Or(AndNot(w, 0xFF * 0x1_0000), b * 0x1_0000) == w - w / 0x1_0000 % 256 * 0x1_0000 + b * 0x1_0000
  {
    hide Or, AndNot;
    var x := AndNot(w, 256 * (0xFF * 256));
    ByteStep(w, 0xFF * 256);
    ByteStep(x, b * 256);
    Replace1(w / 256, b);
  }

  lemma Replace3(w: nat, b: byte)
    ensures Or(AndNot(w, 0xFF * 0x100_0000), b * 0x100_0000) == w - w / 0x100_0000 % 256 * 0x100_0000 + b * 0x100_0000
  {
    hide Or, AndNot;
    var x := AndNot(w, 256 * (0xFF * 0x1_0000));
    ByteStep(w, 0xFF * 0x1_0000);
    ByteStep(x, b * 0x1_0000);
    Replace2(w / 256, b);
  }

  lemma LaneIs(w: nat, k: nat)
    requires k < 4
    ensures Lane(w, k) == w / Unit(k) % 256
  {
    MaskByte(w / Unit(k));
  }

  /** What mask and shift come to: one byte of the word is replaced. */
  lemma WithLaneIs(w: nat, k: nat, v: nat)
    requires k < 4
    ensures WithLane(w, k, v) == w - w / Unit(k) % 256 * Unit(k) + v % 256 * Unit(k)
  {
    MaskByte(v);
    hide And, AndNot, Or;
    if k == 0 {
      Replace0(w, v % 256);
    } else if k == 1 {
      Replace1(w, v % 256);
    } else if k == 2 {
      Replace2(w, v % 256);
    } else {
      Replace3(w, v % 256);
    }
  }

  function Word(b0: byte, b1: byte, b2: byte, b3: byte): word {
    256 * (256 * (256 * b3 + b2) + b1) + b0
  }

  lemma Peel(q: nat, b: byte)
    ensures (256 * q + b) / 256 == q && (256 * q + b) % 256 == b
  {
  }

  lemma Quotients(w: nat)
    ensures w / 0x1_0000 == w / 256 / 256
    ensures w / 0x100_0000 == w / 256 / 256 / 256
  {
  }

  lemma WordLanes(b0: byte, b1: byte, b2: byte, b3: byte)
    ensures var w := Word(b0, b1, b2, b3);
      Lane(w, 0) == b0 && Lane(w, 1) == b1 && Lane(w, 2) == b2 && Lane(w, 3) == b3
  {
    hide Lane;
    var q2 := 256 * b3 + b2;
    var q1 := 256 * q2 + b1;
    var w := 256 * q1 + b0;
    Quotients(w);
    Peel(q1, b0);
    Peel(q2, b1);
    Peel(b3, b2);
    LaneIs(w, 0);
    LaneIs(w, 1);
    LaneIs(w, 2);
    LaneIs(w, 3);
  }

  lemma LanesWord(w: word)
    ensures w == Word(Lane(w, 0), Lane(w, 1), Lane(w, 2), Lane(w, 3))
  {
    hide Lane;
    LaneIs(w, 0);
    LaneIs(w, 1);
    LaneIs(w, 2);
    LaneIs(w, 3);
    Quotients(w);
  }

  lemma Replaced0(w: word, v: nat)
    ensures WithLane(w, 0, v) == Word(v % 256, Lane(w, 1), Lane(w, 2), Lane(w, 3))
  {
    hide Lane, WithLane;
    WithLaneIs(w, 0, v);
    LaneIs(w, 0);
    LanesWord(w);
  }

  lemma Replaced1(w: word, v: nat)
    ensures WithLane(w, 1, v) == Word(Lane(w, 0), v % 256, Lane(w, 2), Lane(w, 3))
  {
    hide Lane, WithLane;
    WithLaneIs(w, 1, v);
    LaneIs(w, 1);
    LanesWord(w);
  }

  lemma Replaced2(w: word, v: nat)
    ensures WithLane(w, 2, v) == Word(Lane(w, 0), Lane(w, 1), v % 256, Lane(w, 3))
  {
    hide Lane, WithLane;
    WithLaneIs(w, 2, v);
    LaneIs(w, 2);
    LanesWord(w);
  }

  lemma Replaced3(w: word, v: nat)
    ensures WithLane(w, 3, v) == Word(Lane(w, 0), Lane(w, 1), Lane(w, 2), v % 256)
  {
    hide Lane, WithLane;
    WithLaneIs(w, 3, v);
    LaneIs(w, 3);
    LanesWord(w);
  }

  /** Writing a lane is seen in that lane and in no other. */
  lemma LaneAfter(w: word, k: nat, v: nat, other: nat)
    requires k < 4 && other < 4
    ensures WithLane(w, k, v) < WORD
    ensures Lane(WithLane(w, k, v), other) == if other == k then v % 256 else Lane(w, other)
  {
    hide Lane, WithLane, Word;
    if k == 0 {
      Replaced0(w, v);
      WordLanes(v % 256, Lane(w, 1), Lane(w, 2), Lane(w, 3));
    } else if k == 1 {
      Replaced1(w, v);
      WordLanes(Lane(w, 0), v % 256, Lane(w, 2), Lane(w, 3));
    } else if k == 2 {
      Replaced2(w, v);
      WordLanes(Lane(w, 0), Lane(w, 1), v % 256, Lane(w, 3));
    } else {
      Replaced3(w, v);
      WordLanes(Lane(w, 0), Lane(w, 1), Lane(w, 2), v % 256);
    }
  }
}
