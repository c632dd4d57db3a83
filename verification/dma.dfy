/** DMA channel bookkeeping and register arithmetic of the RP2040 DMA
    helper (src/wspr/dma.go): the software claim mask over the twelve
    channels, the per-channel register map, the PIO DREQ numbering, the
    transfer-size code, the single-bit update of a control word and the
    timeout shift. Register reads and writes themselves are not modelled. */
module Dma {
  import opened Base
  import opened Bits

  /** The RP2040 has twelve DMA channels. */
  const CHANNEL_COUNT: nat := 12

  // ---------------------------------------------------------------------
  // Channels and the claim mask

  /** A `DmaChannel` value: the zero value returned when no channel is
      free, or the handle `Channel(i)` makes for channel i. */
  datatype DmaChannel = Invalid | Channel(idx: u8)
  {
    /** `IsValid`: made by `Channel`, so its index is in 0..11. */
    predicate IsValid() {
      Channel? && idx < CHANNEL_COUNT
    }
  }

  /** The arbiter: bit i of `claimedChannels` is set while channel i is
      claimed in software. */
  class DmaArbiter {
    var claimedChannels: u16

    constructor()
      ensures claimedChannels == 0
    {
      claimedChannels := 0;
    }

    /** `Channel(i)`: a handle for channel i; indices above 11 panic. */
    function Channel(i: u8): (ch: DmaChannel)
      requires i < CHANNEL_COUNT
      ensures ch.IsValid() && ch.idx == i
    {
      DmaChannel.Channel(i)
    }

    /** `IsClaimed`: bit idx of the mask is set. */
    predicate IsClaimed(ch: DmaChannel)
      reads this
      requires ch.IsValid()
    {
      Bit(claimedChannels, ch.idx)
    }

    /** `TryClaim`: on a free channel, `claimedChannels |= 1 << idx` and
        answer true; on a claimed one, answer false and change nothing.
        Either way no other channel's bit moves. */
    method TryClaim(ch: DmaChannel) returns (ok: bool)
      requires ch.IsValid()
      modifies this
      ensures ok == !old(IsClaimed(ch))
      ensures claimedChannels == if ok then SetBit(old(claimedChannels), ch.idx) else old(claimedChannels)
      ensures forall j: nat :: Bit(claimedChannels, j) == (j == ch.idx || Bit(old(claimedChannels), j))
    {
      forall j: nat
        ensures Bit(SetBit(claimedChannels, ch.idx), j) == (j == ch.idx || Bit(claimedChannels, j))
      {
        SetBitEffect(claimedChannels, ch.idx, j);
      }
      if IsClaimed(ch) {
        return false;
      }
      Pow2Limits();
      SetBitWithin(claimedChannels, ch.idx, 16);
      claimedChannels := SetBit(claimedChannels, ch.idx);
      return true;
    }

    /** `Unclaim`: `claimedChannels &^= 1 << idx`, whether or not the
        channel was claimed; no other channel's bit moves. */
    method Unclaim(ch: DmaChannel)
      requires ch.IsValid()
      modifies this
      ensures claimedChannels == ClearBit(old(claimedChannels), ch.idx)
      ensures !IsClaimed(ch)
      ensures forall j: nat :: j != ch.idx ==> Bit(claimedChannels, j) == Bit(old(claimedChannels), j)
    {
      forall j: nat
        ensures Bit(ClearBit(claimedChannels, ch.idx), j) == (j != ch.idx && Bit(claimedChannels, j))
      {
        ClearBitEffect(claimedChannels, ch.idx, j);
      }
      claimedChannels := ClearBit(claimedChannels, ch.idx);
    }

    /** `claimChannel`: claim the lowest free channel in 0..11, or answer
        the invalid channel and false, leaving the mask alone, when all
        twelve are claimed. */
    method ClaimChannel() returns (ch: DmaChannel, ok: bool)
      modifies this
      ensures ok ==> && ch.IsValid()
                     && !Bit(old(claimedChannels), ch.idx)
                     && (forall j: nat :: j < ch.idx ==> Bit(old(claimedChannels), j))
                     && claimedChannels == SetBit(old(claimedChannels), ch.idx)
      ensures !ok ==> && ch == Invalid
                      && (forall j: nat :: j < CHANNEL_COUNT ==> Bit(old(claimedChannels), j))
                      && claimedChannels == old(claimedChannels)
    {
      var i: u8 := 0;
      while i < 12
        invariant i <= CHANNEL_COUNT
        invariant claimedChannels == old(claimedChannels)
        invariant forall j: nat :: j < i ==> Bit(claimedChannels, j)
      {
        var c := Channel(i);
        var claimed := TryClaim(c);
        if claimed {
          return c, true;
        }
        i := i + 1;
      }
      return Invalid, false;
    }
  }

  // ---------------------------------------------------------------------
  // Register map

  /** The sixteen per-channel registers, in address order. */
  datatype Register =
    | ReadAddr | WriteAddr | TransCount | CtrlTrig
    | Al1Ctrl | Al1ReadAddr | Al1WriteAddr | Al1TransCountTrig
    | Al2Ctrl | Al2TransCount | Al2ReadAddr | Al2WriteAddrTrig
    | Al3Ctrl | Al3WriteAddr | Al3TransCount | Al3ReadAddrTrig

  /** Position of a register in the channel's block (the `iota`). */
  function Position(r: Register): (k: nat)
    ensures k < 16
  {
    match r
    case ReadAddr => 0
    case WriteAddr => 1
    case TransCount => 2
    case CtrlTrig => 3
    case Al1Ctrl => 4
    case Al1ReadAddr => 5
    case Al1WriteAddr => 6
    case Al1TransCountTrig => 7
    case Al2Ctrl => 8
    case Al2TransCount => 9
    case Al2ReadAddr => 10
    case Al2WriteAddrTrig => 11
    case Al3Ctrl => 12
    case Al3WriteAddr => 13
    case Al3TransCount => 14
    case Al3ReadAddrTrig => 15
  }

  /** The register at a position. */
  function RegisterAt(k: nat): Register
    requires k < 16
  {
    [ReadAddr, WriteAddr, TransCount, CtrlTrig,
     Al1Ctrl, Al1ReadAddr, Al1WriteAddr, Al1TransCountTrig,
     Al2Ctrl, Al2TransCount, Al2ReadAddr, Al2WriteAddrTrig,
     Al3Ctrl, Al3WriteAddr, Al3TransCount, Al3ReadAddrTrig][k]
  }

  /** Positions name registers one to one. */
  lemma PositionRoundTrip(r: Register)
    ensures RegisterAt(Position(r)) == r
  {
  }

  /** The byte offset `4 * iota`: word aligned and below the end marker. */
  function Offset(r: Register): (o: nat)
    ensures o % 4 == 0 && o + 4 <= END_MARKER
  {
    4 * Position(r)
  }

  /** `DMA_END_MARKER`, the size in bytes of one channel's block. */
  const END_MARKER: nat := 64

  /** `DmaRegisterAddress`: base + idx*64 + offset. */
  function RegisterAddress(base: nat, ch: DmaChannel, r: Register): (a: nat)
    requires ch.IsValid()
    ensures base + ch.idx * END_MARKER <= a < base + (ch.idx + 1) * END_MARKER
  {
    base + ch.idx * END_MARKER + Offset(r)
  }

  /** The end marker is four bytes past the last register. */
  lemma EndMarkerFollowsLastRegister()
    ensures END_MARKER == Offset(Al3ReadAddrTrig) + 4
  {
  }

  /** Distinct (channel, register) pairs have distinct addresses. */
  lemma AddressesDistinct(base: nat, c1: DmaChannel, r1: Register, c2: DmaChannel, r2: Register)
    requires c1.IsValid() && c2.IsValid()
    requires RegisterAddress(base, c1, r1) == RegisterAddress(base, c2, r2)
    ensures c1 == c2 && r1 == r2
  {
    var a1, a2 := c1.idx * END_MARKER + Offset(r1), c2.idx * END_MARKER + Offset(r2);
    DivModUnique(a1, c1.idx, Offset(r1), END_MARKER);
    DivModUnique(a2, c2.idx, Offset(r2), END_MARKER);
    PositionRoundTrip(r1);
    PositionRoundTrip(r2);
  }

  // ---------------------------------------------------------------------
  // PIO DREQ numbers (section 2.5.3.1 of the RP2040 datasheet)

  /** `_DREQ_PIO0_TX0`. */
  const DREQ_PIO0_TX0: nat := 0x0

  /** `DmaPIO_TxDREQ`: state machine sm (0..3) of PIO block 0 or 1. */
  function TxDreq(block: nat, sm: nat): (d: nat)
    requires block < 2 && sm < 4
    ensures d < 16 && d % 8 < 4
  {
    DREQ_PIO0_TX0 + block * 8 + sm
  }

  /** `DmaPIO_RxDREQ`: four past the matching TX request. */
  function RxDreq(block: nat, sm: nat): (d: nat)
    requires block < 2 && sm < 4
    ensures d < 16 && d % 8 >= 4
  {
    TxDreq(block, sm) + 4
  }

  /** No two state machines, and no TX and RX request, share a DREQ, so the
      caveat of section 2.5.3.1 (one channel per DREQ) can be kept by
      giving each state machine its own channel. */
  lemma DreqsDistinct(b1: nat, s1: nat, b2: nat, s2: nat)
    requires b1 < 2 && s1 < 4 && b2 < 2 && s2 < 4
    ensures TxDreq(b1, s1) == TxDreq(b2, s2) ==> b1 == b2 && s1 == s2
    ensures RxDreq(b1, s1) == RxDreq(b2, s2) ==> b1 == b2 && s1 == s2
    ensures TxDreq(b1, s1) != RxDreq(b2, s2)
  {
    DivModUnique(TxDreq(b1, s1), b1, s1, 8);
    DivModUnique(TxDreq(b2, s2), b2, s2, 8);
    DivModUnique(RxDreq(b2, s2), b2, s2 + 4, 8);
  }

  /** The table rows the code relies on: PIO1 RX3 is 0xf and PIO0 RX0
      is 0x4. */
  lemma DreqTableCorners()
    ensures TxDreq(0, 0) == 0x0 && RxDreq(0, 0) == 0x4
    ensures TxDreq(1, 0) == 0x8 && RxDreq(1, 3) == 0xf
  {
  }

  // ---------------------------------------------------------------------
  // Transfer size

  /** The element types `dmaPush`/`dmaPull` accept. */
  datatype Width = Uint8 | Uint16 | Uint32

  /** `unsafe.Sizeof` of the element type. */
  function SizeOf(w: Width): nat
  {
    match w
    case Uint8 => 1
    case Uint16 => 2
    case Uint32 => 4
  }

  /** `dmaSize`: `DmaTxSize8`, `DmaTxSize16` or `DmaTxSize32` (0, 1, 2),
      the base-2 logarithm of the element size. */
  function DmaSize(w: Width): (code: u32)
    ensures code <= 2 && Pow2(code) == SizeOf(w)
  {
    match SizeOf(w)
    case 1 => 0
    case 2 => 1
    case _ => 2
  }

  /** Different widths get different size codes. */
  lemma DmaSizeInjective(v: Width, w: Width)
    ensures DmaSize(v) == DmaSize(w) ==> v == w
  {
  }

  // ---------------------------------------------------------------------
  // Control word bits

  /** A channel configuration: the CTRL word the setters edit in place. */
  class ChannelConfig {
    var ctrl: u32

    constructor()
      ensures ctrl == 0
    {
      ctrl := 0;
    }

    /** `setBitPos(&cc.CTRL, pos, bit)`: bit pos becomes `bit` and no other
        bit moves. `uint32(1) << pos` is zero once pos reaches 32, so such
        a position leaves the word as it is. */
    method SetBitPos(pos: u32, bit: bool)
      modifies this
      ensures pos < 32 ==> ctrl == if bit then SetBit(old(ctrl), pos) else ClearBit(old(ctrl), pos)
      ensures pos >= 32 ==> ctrl == old(ctrl)
      ensures pos < 32 ==> forall j: nat :: Bit(ctrl, j) == if j == pos then bit else Bit(old(ctrl), j)
    {
      if pos < 32 {
        forall j: nat
          ensures Bit(SetBit(ctrl, pos), j) == (j == pos || Bit(ctrl, j))
          ensures Bit(ClearBit(ctrl, pos), j) == (j != pos && Bit(ctrl, j))
        {
          SetBitEffect(ctrl, pos, j);
          ClearBitEffect(ctrl, pos, j);
        }
        Pow2Limits();
        SetBitWithin(ctrl, pos, 32);
        if bit {
          ctrl := SetBit(ctrl, pos);
        } else {
          ctrl := ClearBit(ctrl, pos);
        }
      }
    }
  }

  // ---------------------------------------------------------------------
  // Timeout shift

  const INT64_MIN: int := -0x8000_0000_0000_0000
  const INT64_LIMIT: int := 0x8000_0000_0000_0000

  /** 2^62 and 2^63 as literals. */
  lemma Pow2Values()
    ensures Pow2(62) == 0x4000_0000_0000_0000
    ensures Pow2(63) == INT64_LIMIT
  {
    Pow2Limits();
    Pow2Add(32, 16);
    Pow2Add(48, 8);
    Pow2Add(56, 6);
    Pow2Add(62, 1);
  }

  /** `time.Duration(1 << i)` for a `uint8` i below 64: 2^i, except that
      1 << 63 overflows the signed 64-bit duration to its minimum. */
  function ShiftedDuration(i: nat): (d: int)
    requires i < 64
    ensures INT64_MIN <= d < INT64_LIMIT
    ensures i < 63 ==> d == Pow2(i) <= Pow2(62)
    ensures i == 63 ==> d < 0
  {
    Pow2Values();
    if i == 63 then INT64_MIN
    else
      Pow2Monotone(i, 62);
      Pow2(i)
  }

  /** The smallest i >= from with 2^i > t, for 0 < t < 2^62. */
  function ShiftAbove(t: int, from: nat): (i: nat)
    requires 0 < t < Pow2(62) && from <= 62
    requires forall k: nat :: k < from ==> Pow2(k) <= t
    ensures from <= i <= 62 && Pow2(i) > t
    ensures forall k: nat :: k < i ==> Pow2(k) <= t
    decreases 62 - from
  {
    if from == 62 || Pow2(from) > t then from
    else
      assert forall k: nat :: k < from + 1 ==> Pow2(k) <= t;
      ShiftAbove(t, from + 1)
  }

  /** The shift `setTimeout` stores for a duration t: none (0) when t is not
      positive, else the smallest i with 2^i > t. */
  lemma TimeoutShiftIsSmallest(t: int, i: nat)
    requires 0 < t && i <= 62 && Pow2(i) > t
    requires forall k: nat :: k < i ==> Pow2(k) <= t
    ensures t < Pow2(62) && ShiftAbove(t, 0) == i
  {
    Pow2Monotone(i, 62);
  }

  /** The timeout of a channel, kept as a shift count. */
  class Deadliner {
    var timeout: u8

    constructor()
      ensures timeout == 0
    {
      timeout := 0;
    }

    /** `setTimeout`: 0 (no deadline) for a non-positive duration;
        otherwise the smallest i with 2^i greater than the duration. From
        2^62 on no i below 63 qualifies and 1 << 63 is negative, so the
        loop finishes without writing and the old shift stays. */
    method SetTimeout(t: int)
      requires INT64_MIN <= t < INT64_LIMIT
      modifies this
      ensures t <= 0 ==> timeout == 0
      ensures 0 < t < Pow2(62) ==> timeout == ShiftAbove(t, 0)
      ensures t >= Pow2(62) ==> timeout == old(timeout)
    {
      if t <= 0 {
        timeout := 0;
        return;
      }
      var i: u8 := 0;
      while i < 64
        invariant i <= 64
        invariant timeout == old(timeout)
        invariant forall k: nat :: k < i && k < 63 ==> Pow2(k) <= t
      {
        var duration := ShiftedDuration(i);
        if duration > t {
          TimeoutShiftIsSmallest(t, i);
          timeout := i;
          return;
        }
        i := i + 1;
      }
    }
  }
}
