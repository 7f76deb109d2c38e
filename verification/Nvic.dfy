/** Interrupt priorities: packed four to a word, and split into a preemption and a subpriority. Everything holds for
    any number of priority bits from 1 to 8; the STM32F0 has 2. */
module Nvic {
  import opened Bits
  import opened Lanes

  // ---- the packed registers ----

  /** NVIC->IP and SCB->SHP. */
  datatype Registers = Registers(ip: seq<word>, shp: seq<word>)

  predicate Wf(r: Registers) {
    |r.ip| == 8 && |r.shp| == 2
  }

  /** The device interrupts and the exceptions that have a priority register. */
  predicate Settable(irq: int) {
    -8 <= irq < 32
  }

  /** (uint32_t)(int32_t)(IRQn) */
  function Unsigned(irq: int): nat
    requires Settable(irq)
  {
    if irq < 0 then irq + WORD else irq
  }

  /** _BIT_SHIFT is eight times this. */
  function LaneOf(irq: int): (k: nat)
    requires Settable(irq)
    ensures k < 4
  {
    Unsigned(irq) % 4
  }

  /** _SHP_IDX; the subtraction wraps in 32 bits. */
  function ShpIdx(irq: int): (i: nat)
    requires Settable(irq)
    ensures irq < 0 ==> i < 2
  {
    (Unsigned(irq) % 16 + WORD - 8) % WORD / 4
  }

  /** _IP_IDX */
  function IpIdx(irq: int): (i: nat)
    requires Settable(irq)
    ensures irq >= 0 ==> i < 8
  {
    Unsigned(irq) / 4
  }

  /** The word that holds the priority of irq. */
  function WordOf(r: Registers, irq: int): word
    requires Wf(r) && Settable(irq)
  {
    if irq >= 0 then r.ip[IpIdx(irq)] else r.shp[ShpIdx(irq)]
  }

  function WithWord(r: Registers, irq: int, w: word): (s: Registers)
    requires Wf(r) && Settable(irq)
    ensures Wf(s)
  {
    if irq >= 0 then r.(ip := r.ip[IpIdx(irq) := w]) else r.(shp := r.shp[ShpIdx(irq) := w])
  }

  /** priority << (8 - bits), in 32 bits: the implemented bits are the upper ones of their byte. */
  function Store(priority: word, bits: nat): (v: nat)
    requires 1 <= bits <= 8
  {
    priority * Pow2(8 - bits) % WORD
  }

  /** __NVIC_SetPriority on values */
  function Set(r: Registers, bits: nat, irq: int, priority: word): (s: Registers)
    requires Wf(r) && Settable(irq) && 1 <= bits <= 8
    ensures Wf(s)
  {
    LaneAfter(WordOf(r, irq), LaneOf(irq), Store(priority, bits), 0);
    WithWord(r, irq, WithLane(WordOf(r, irq), LaneOf(irq), Store(priority, bits)))
  }

  /** __NVIC_GetPriority on values */
  function Get(r: Registers, bits: nat, irq: int): nat
    requires Wf(r) && Settable(irq) && 1 <= bits <= 8
  {
    Shr(Lane(WordOf(r, irq), LaneOf(irq)), 8 - bits)
  }

  /** The byte that is stored: the low bits of the priority, at the upper end. */
  lemma StoredIs(p: word, bits: nat)
    requires 1 <= bits <= 8
    ensures Store(p, bits) % 256 == p % Pow2(bits) * Pow2(8 - bits)
  {
    assert Pow2(8) == 256;
    hide Pow2, Shr, Rest;
    DivMod(p, bits);
    ShrRest(p, bits);
    PowAdd(bits, 8 - bits);
    UpperPart(p, Shr(p, bits), Rest(p, bits), Pow2(bits), Pow2(8 - bits));
  }

  /** A byte with the priority in its upper bits gives it back, modulo 2^bits. */
  lemma StoredBack(p: word, bits: nat)
    requires 1 <= bits <= 8
    ensures Shr(Store(p, bits) % 256, 8 - bits) == Rest(p, bits)
  {
    hide Pow2, Shr, Rest, Store;
    StoredIs(p, bits);
    ShrRest(p, bits);
    Parts(Rest(p, bits), 0, 8 - bits);
  }

  /** The low byte of p * u, when p is x * m + rest and m * u a byte. */
  lemma UpperPart(p: nat, x: nat, rest: nat, m: nat, u: nat)
    requires p == x * m + rest && rest < m && m * u == 256
    ensures p * u % WORD % 256 == rest * u + 0
  {
    Scaled(x, rest, m, u);
    LowByte(p * u, x, rest * u);
  }

  lemma Scaled(x: nat, rest: nat, m: nat, u: nat)
    requires rest < m && m * u == 256
    ensures (x * m + rest) * u == 256 * x + rest * u && rest * u < 256
  {
    calc {
      (x * m + rest) * u;
      x * m * u + rest * u;
      x * (m * u) + rest * u;
    }
    assert (rest + 1) * u <= m * u;
  }

  lemma LowByte(v: nat, x: nat, y: nat)
    requires v == 256 * x + y && y < 256
    ensures v % WORD % 256 == y
  {
  }

  lemma SamePlace(irq: int, other: int)
    requires Settable(irq) && Settable(other) && (irq < 0 <==> other < 0) && LaneOf(irq) == LaneOf(other)
    ensures irq >= 0 && IpIdx(irq) == IpIdx(other) ==> irq == other
    ensures irq < 0 && ShpIdx(irq) == ShpIdx(other) ==> irq == other
  {
    SplitPlace(irq);
    SplitPlace(other);
    hide LaneOf, IpIdx, ShpIdx;
  }

  /** An interrupt or exception number is put together again from its word and its lane. */
  lemma SplitPlace(irq: int)
    requires Settable(irq)
    ensures irq == if irq >= 0 then 4 * IpIdx(irq) + LaneOf(irq) else 4 * ShpIdx(irq) + LaneOf(irq) - 8
  {
    if irq < 0 {
      assert (irq + WORD) % 16 == irq + 16;
      assert (irq + WORD) % 4 == (irq + 8) % 4;
    }
  }

  /** Setting the priority of one interrupt is seen in that one, modulo 2^bits, and in no other. */
  lemma SetThenGet(r: Registers, bits: nat, irq: int, priority: word, other: int)
    requires Wf(r) && Settable(irq) && Settable(other) && 1 <= bits <= 8
    ensures Get(Set(r, bits, irq, priority), bits, other)
            == if other == irq then Rest(priority, bits) else Get(r, bits, other)
  {
    hide Lane, WithLane, Rest, Shr, Store, LaneOf, IpIdx, ShpIdx;
    LaneAfter(WordOf(r, irq), LaneOf(irq), Store(priority, bits), LaneOf(other));
    StoredBack(priority, bits);
    if (irq < 0 <==> other < 0) && LaneOf(irq) == LaneOf(other) { SamePlace(irq, other); }
  }

  /** The words that irq is in, and the number of its byte in them: interrupts in IP from 0 on, exceptions in SHP from
      -8 on. */
  lemma WordIs(r: Registers, irq: int)
    requires Wf(r) && Settable(irq)
    ensures irq >= 0 ==> WordOf(r, irq) == r.ip[irq / 4] && LaneOf(irq) == irq % 4
    ensures irq < 0 ==> WordOf(r, irq) == r.shp[(irq + 8) / 4] && LaneOf(irq) == (irq + 8) % 4
    ensures forall w: word :: WithWord(r, irq, w)
              == if irq >= 0 then r.(ip := r.ip[irq / 4 := w]) else r.(shp := r.shp[(irq + 8) / 4 := w])
  {
    SplitPlace(irq);
    hide IpIdx, ShpIdx, LaneOf;
  }

  /** In a register file of four bytes a word, byte i is the new one and the others are as before. */
  predicate ByteSet(before: seq<word>, after: seq<word>, i: nat, v: int) {
    && |after| == |before|
    && forall w: nat, k: nat :: w < |after| && k < 4 ==>
         after[w] / Unit(k) % 256 == if 4 * w + k == i then v else before[w] / Unit(k) % 256
  }

  lemma LaneSet(before: seq<word>, w: nat, k: nat, v: nat)
    requires w < |before| && k < 4
    ensures WithLane(before[w], k, v) < WORD
    ensures ByteSet(before, before[w := WithLane(before[w], k, v)], 4 * w + k, v % 256)
  {
    hide Lane, WithLane, Unit;
    LaneAfter(before[w], k, v, 0);
    var after := before[w := WithLane(before[w], k, v)];
    forall x: nat, j: nat | x < |after| && j < 4
      ensures after[x] / Unit(j) % 256 == if 4 * x + j == 4 * w + k then v % 256 else before[x] / Unit(j) % 256
    {
      LaneAfter(before[w], k, v, j);
      LaneIs(after[x], j);
      LaneIs(before[x], j);
    }
  }

  /** What is written: one byte, of IP at the number of the interrupt, or of SHP at the number of the exception and
      eight, with the low bits of the priority at its upper end. */
  lemma SetIs(r: Registers, bits: nat, irq: int, priority: word)
    requires Wf(r) && Settable(irq) && 1 <= bits <= 8
    ensures var s, v := Set(r, bits, irq, priority), priority % Pow2(bits) * Pow2(8 - bits);
      && (irq >= 0 ==> ByteSet(r.ip, s.ip, irq, v) && s.shp == r.shp)
      && (irq < 0 ==> ByteSet(r.shp, s.shp, irq + 8, v) && s.ip == r.ip)
  {
    WordIs(r, irq);
    StoredIs(priority, bits);
    hide LaneOf, IpIdx, ShpIdx, WordOf, WithWord, WithLane, Store, Pow2, ByteSet;
    LaneAfter(WordOf(r, irq), LaneOf(irq), Store(priority, bits), 0);
    if irq >= 0 {
      LaneSet(r.ip, irq / 4, irq % 4, Store(priority, bits));
      assert 4 * (irq / 4) + irq % 4 == irq;
    } else {
      LaneSet(r.shp, (irq + 8) / 4, (irq + 8) % 4, Store(priority, bits));
      assert 4 * ((irq + 8) / 4) + (irq + 8) % 4 == irq + 8;
    }
  }

  lemma GetIs(r: Registers, bits: nat, irq: int)
    requires Wf(r) && Settable(irq) && 1 <= bits <= 8
    ensures irq >= 0 ==> Get(r, bits, irq) == r.ip[irq / 4] / Unit(irq % 4) % 256 / Pow2(8 - bits)
    ensures irq < 0 ==> Get(r, bits, irq) == r.shp[(irq + 8) / 4] / Unit((irq + 8) % 4) % 256 / Pow2(8 - bits)
  {
    WordIs(r, irq);
    hide LaneOf, IpIdx, ShpIdx, WordOf, WithWord, Lane, Unit, Pow2, Shr;
    LaneIs(WordOf(r, irq), LaneOf(irq));
    ShrRest(Lane(WordOf(r, irq), LaneOf(irq)), 8 - bits);
  }

  // ---- any run of settings ----

  function SetAll(r: Registers, bits: nat, run: seq<(int, word)>): (s: Registers)
    requires Wf(r) && 1 <= bits <= 8 && forall x <- run :: Settable(x.0)
    ensures Wf(s)
  {
    if run == [] then r
    else
      var n := |run| - 1;
      Set(SetAll(r, bits, run[..n]), bits, run[n].0, run[n].1)
  }

  /** After any sequence of settings an interrupt has the last priority set for it, modulo 2^bits. */
  lemma {:induction false} LastSettingCounts(r: Registers, bits: nat, run: seq<(int, word)>, i: nat)
    requires Wf(r) && 1 <= bits <= 8 && forall x <- run :: Settable(x.0)
    requires i < |run| && forall j :: i < j < |run| ==> run[j].0 != run[i].0
    ensures run[i] in run && Get(SetAll(r, bits, run), bits, run[i].0) == run[i].1 % Pow2(bits)
  {
    hide Get, Set, Rest, Pow2;
    var n := |run| - 1;
    assert run[n] in run && run[i] in run && forall x <- run[..n] :: x in run;
    SetThenGet(SetAll(r, bits, run[..n]), bits, run[n].0, run[n].1, run[i].0);
    if i < n {
      LastSettingCounts(r, bits, run[..n], i);
    } else {
      ShrRest(run[n].1, bits);
    }
  }

  /** ... and the others have what they had. */
  lemma {:induction false} OthersKept(r: Registers, bits: nat, run: seq<(int, word)>, irq: int)
    requires Wf(r) && 1 <= bits <= 8 && forall x <- run :: Settable(x.0)
    requires Settable(irq) && forall x <- run :: x.0 != irq
    ensures Get(SetAll(r, bits, run), bits, irq) == Get(r, bits, irq)
  {
    hide Get, Set, Rest;
    if run != [] {
      var n := |run| - 1;
      assert run[n] in run && forall x <- run[..n] :: x in run;
      OthersKept(r, bits, run[..n], irq);
      SetThenGet(SetAll(r, bits, run[..n]), bits, run[n].0, run[n].1, irq);
    }
  }

  class NvicScb {
    var ip: array<word>
    var shp: array<word>
    const bits: nat

    ghost predicate Valid()
      reads this
    {
      ip.Length == 8 && shp.Length == 2 && ip != shp && 1 <= bits <= 8
    }

    ghost function Contents(): (r: Registers)
      requires Valid()
      reads this, ip, shp
      ensures Wf(r)
    {
      Registers(ip[..], shp[..])
    }

    method SetPriority(irq: int, priority: word)
      requires Valid() && Settable(irq)
      modifies ip, shp
      ensures Valid() && Contents() == Set(old(Contents()), bits, irq, priority)
      ensures forall other :: Settable(other) ==>
                Get(Contents(), bits, other)
                == if other == irq then Rest(priority, bits) else old(Get(Contents(), bits, other))
      ensures irq >= 0 ==>
                && ByteSet(old(ip[..]), ip[..], irq, priority % Pow2(bits) * Pow2(8 - bits))
                && shp[..] == old(shp[..])
      ensures irq < 0 ==>
                && ByteSet(old(shp[..]), shp[..], irq + 8, priority % Pow2(bits) * Pow2(8 - bits))
                && ip[..] == old(ip[..])
    {
      SetIs(Contents(), bits, irq, priority);
      hide Store, Rest, Get, ByteSet, Pow2, WithLane;
      forall other | Settable(other)
        ensures Get(Set(Contents(), bits, irq, priority), bits, other)
                == if other == irq then Rest(priority, bits) else Get(Contents(), bits, other)
      {
        SetThenGet(Contents(), bits, irq, priority, other);
      }
      if irq >= 0 {
        LaneAfter(ip[IpIdx(irq)], LaneOf(irq), Store(priority, bits), 0);
        ip[IpIdx(irq)] := WithLane(ip[IpIdx(irq)], LaneOf(irq), Store(priority, bits));
      } else {
        LaneAfter(shp[ShpIdx(irq)], LaneOf(irq), Store(priority, bits), 0);
        shp[ShpIdx(irq)] := WithLane(shp[ShpIdx(irq)], LaneOf(irq), Store(priority, bits));
      }
    }

    method GetPriority(irq: int) returns (priority: nat)
      requires Valid() && Settable(irq)
      ensures priority == Get(Contents(), bits, irq)
      ensures irq >= 0 ==> priority == ip[irq / 4] / Unit(irq % 4) % 256 / Pow2(8 - bits)
      ensures irq < 0 ==> priority == shp[(irq + 8) / 4] / Unit((irq + 8) % 4) % 256 / Pow2(8 - bits)
    {
      GetIs(Contents(), bits, irq);
      if irq >= 0 {
        priority := Shr(Lane(ip[IpIdx(irq)], LaneOf(irq)), 8 - bits);
      } else {
        priority := Shr(Lane(shp[ShpIdx(irq)], LaneOf(irq)), 8 - bits);
      }
    }
  }

  // ---- preemption and subpriority ----

  function PreemptBits(bits: nat, group: word): (pb: nat)
    requires 1 <= bits <= 8
  {
    MaskThree(group);
    var g := And(group, 7);
    if 7 - g > bits then bits else 7 - g
  }

  /** The subtraction g - 7 wraps in 32 bits, and adding the priority bits wraps back. */
  function SubBits(bits: nat, group: word): (sb: nat)
    requires 1 <= bits <= 8
  {
    var g := And(group, 7);
    if g + bits < 7 then 0 else ((g + WORD - 7) % WORD + bits) % WORD
  }

  /** The two fields share out the priority bits: the group leaves 7 - group % 8 of eight to preemption, of which there
      are no more than the implemented ones. */
  lemma BitsAddUp(bits: nat, group: word)
    requires 1 <= bits <= 8
    ensures PreemptBits(bits, group) == if group % 8 + bits <= 7 then bits else 7 - group % 8
    ensures PreemptBits(bits, group) + SubBits(bits, group) == bits
  {
    MaskThree(group);
  }

  function EncodePriority(bits: nat, group: word, preempt: word, sub: word): (e: nat)
    requires 1 <= bits <= 8
    ensures var pb := if group % 8 + bits <= 7 then bits else 7 - group % 8;
      e == preempt % Pow2(pb) * Pow2(bits - pb) + sub % Pow2(bits - pb)
  {
    BitsAddUp(bits, group);
    var pb, sb := PreemptBits(bits, group), SubBits(bits, group);
    JoinedIs(pb, sb, preempt, sub);
    ShrRest(preempt, pb);
    ShrRest(sub, sb);
    Joined(PreemptBits(bits, group), SubBits(bits, group), preempt, sub)
  }

  /** ((p & ((1 << pb) - 1)) << sb) | (s & ((1 << sb) - 1)) */
  function Joined(pb: nat, sb: nat, p: nat, s: nat): nat {
    Or(And(p, Pow2(pb) - 1) * Pow2(sb), And(s, Pow2(sb) - 1))
  }

  method DecodePriority(bits: nat, priority: nat, group: word) returns (preempt: nat, sub: nat)
    requires 1 <= bits <= 8
    ensures (preempt, sub) == Decoded(priority, PreemptBits(bits, group), SubBits(bits, group))
    ensures var pb := if group % 8 + bits <= 7 then bits else 7 - group % 8;
      preempt == priority / Pow2(bits - pb) % Pow2(pb) && sub == priority % Pow2(bits - pb)
  {
    BitsAddUp(bits, group);
    hide PreemptBits, SubBits, And, Rest;
    var pb, sb := PreemptBits(bits, group), SubBits(bits, group);
    preempt := And(Shr(priority, sb), Pow2(pb) - 1);
    sub := And(priority, Pow2(sb) - 1);
    MaskLow(Shr(priority, sb), pb);
    MaskLow(priority, sb);
    ShrRest(priority, sb);
    ShrRest(Shr(priority, sb), pb);
  }

  /** The lowest sb bits of a priority, and the pb bits above them. */
  function Decoded(priority: nat, pb: nat, sb: nat): (nat, nat) {
    (Rest(Shr(priority, sb), pb), Rest(priority, sb))
  }

  // ---- what encoding means ----

  /** Two fields side by side, as a number. */
  lemma JoinedIs(pb: nat, sb: nat, p: nat, s: nat)
    ensures Joined(pb, sb, p, s) == Rest(p, pb) * Pow2(sb) + Rest(s, sb) < Pow2(pb + sb)
  {
    hide And, Or, Rest, Pow2;
    MaskLow(p, pb);
    MaskLow(s, sb);
    OrDisjoint(Rest(p, pb), Rest(s, sb), sb);
    PowAdd(pb, sb);
    PackFits(Rest(p, pb), Rest(s, sb), Pow2(pb), Pow2(sb));
  }

  lemma PackFits(p: nat, s: nat, k: nat, m: nat)
    requires p < k && s < m
    ensures p * m + s < k * m
  {
    assert (p + 1) * m <= k * m;
  }

  lemma {:induction false} RestOfSmall(v: nat, k: nat)
    requires v < Pow2(k)
    ensures Rest(v, k) == v
  {
    if k > 0 { RestOfSmall(v / 2, k - 1); }
  }

  /** Two fields side by side are stored and fetched unchanged, and taken apart again. */
  lemma FieldsBack(pb: nat, sb: nat, p: nat, s: nat)
    requires pb + sb <= 8
    ensures var e := Joined(pb, sb, p, s);
      && e < 0x100 && Rest(e, pb + sb) == e
      && Decoded(e, pb, sb) == (Rest(p, pb), Rest(s, sb))
  {
    var e := Joined(pb, sb, p, s);
    hide Joined, Rest, Shr, Pow2;
    JoinedIs(pb, sb, p, s);
    FieldsFit(pb + sb, e);
    Parts(Rest(p, pb), Rest(s, sb), sb);
    RestOfSmall(Rest(p, pb), pb);
  }

  lemma FieldsFit(n: nat, e: nat)
    requires n <= 8 && e < Pow2(n)
    ensures e < 0x100 && Rest(e, n) == e
  {
    PowGrows(n, 8);
    assert Pow2(8) == 0x100;
    RestOfSmall(e, n);
  }

  /** Encode, set, get, decode: the two priorities come back, each modulo the size of its field. */
  lemma RoundTrip(r: Registers, bits: nat, irq: int, group: word, preempt: word, sub: word)
    requires Wf(r) && Settable(irq) && 1 <= bits <= 8
    ensures var pb, sb := PreemptBits(bits, group), SubBits(bits, group);
      var e := EncodePriority(bits, group, preempt, sub);
      && pb == (if group % 8 + bits <= 7 then bits else 7 - group % 8) && sb == bits - pb && e < 0x100
      && Decoded(Get(Set(r, bits, irq, e), bits, irq), pb, sb) == (preempt % Pow2(pb), sub % Pow2(sb))
  {
    hide PreemptBits, SubBits, Joined, Rest, Get, Set, Pow2, Decoded;
    BitsAddUp(bits, group);
    ShrRest(preempt, PreemptBits(bits, group));
    ShrRest(sub, SubBits(bits, group));
    FieldsBack(PreemptBits(bits, group), SubBits(bits, group), preempt, sub);
    SetThenGet(r, bits, irq, EncodePriority(bits, group, preempt, sub), irq);
  }

  /** Numbers of the form p * m + s with s < m are ordered by p and then by s. */
  lemma PackOrder(p: nat, s: nat, p': nat, s': nat, m: nat)
    requires s < m && s' < m
    ensures p * m + s < p' * m + s' <==> p < p' || (p == p' && s < s')
  {
    if p < p' {
      assert (p + 1) * m <= p' * m;
    } else if p' < p {
      assert (p' + 1) * m <= p * m;
    }
  }

  lemma EncodedInRange(bits: nat, group: word, pb: nat, p: word, s: word)
    requires 1 <= bits <= 8 && pb == if group % 8 + bits <= 7 then bits else 7 - group % 8
    requires p < Pow2(pb) && s < Pow2(bits - pb)
    ensures EncodePriority(bits, group, p, s) == p * Pow2(bits - pb) + s
  {
    hide Pow2;
    QuotRem(p, 0, Pow2(pb), p);
    QuotRem(s, 0, Pow2(bits - pb), s);
    var e := EncodePriority(bits, group, p, s);
  }

  /** Within a group, priorities in range are encoded in their order: preemption first. In particular no two of them
      are encoded alike. */
  lemma EncodingKeepsOrder(bits: nat, group: word, pb: nat, p: word, s: word, p': word, s': word)
    requires 1 <= bits <= 8 && pb == if group % 8 + bits <= 7 then bits else 7 - group % 8
    requires p < Pow2(pb) && p' < Pow2(pb) && s < Pow2(bits - pb) && s' < Pow2(bits - pb)
    ensures var e, e' := EncodePriority(bits, group, p, s), EncodePriority(bits, group, p', s');
      && (e < e' <==> p < p' || (p == p' && s < s'))
      && (e == e' <==> p == p' && s == s')
  {
    hide Pow2, EncodePriority;
    EncodedInRange(bits, group, pb, p, s);
    EncodedInRange(bits, group, pb, p', s');
    PackOrder(p, s, p', s', Pow2(bits - pb));
    PackOrder(p', s', p, s, Pow2(bits - pb));
  }
}
