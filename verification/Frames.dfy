/** One relay bit per port in a 16-bit word: `legacy/payload.go` and `ROOMOUT` of the firmware. */
module Bits {
  function Mask(port: int): bv16
    requires 0 <= port < 16
  {
    1 << port
  }

  predicate Hits(word: bv16, mask: bv16) {
    word & mask != 0
  }

  function Patched(word: bv16, mask: bv16, on: bool): bv16 {
    if on then word | mask else word & !mask
  }

  predicate Bit(word: bv16, port: int)
    requires 0 <= port < 16
  {
    Hits(word, Mask(port))
  }

  function WithBit(word: bv16, port: int, on: bool): bv16
    requires 0 <= port < 16
  {
    Patched(word, Mask(port), on)
  }

  lemma MasksDisjoint(p: int, q: int)
    requires 0 <= p < 16 && 0 <= q < 16
    ensures Mask(p) & Mask(q) == if p == q then Mask(p) else 0
    ensures Mask(p) != 0
  {
  }

  /** The two masks have one bit each. */
  predicate OneBitEach(p: bv16, m: bv16) {
    p != 0 && (p & m == 0 || p == m)
  }

  lemma SetMasked(word: bv16, p: bv16, m: bv16)
    ensures p & m == 0 ==> (word | p) & m == word & m
    ensures p == m ==> (word | p) & m == m
  {
  }

  lemma ClearMasked(word: bv16, p: bv16, m: bv16)
    requires p != 0 && (p & m == 0 || p == m)
    ensures word & !p & m != 0 <==> p != m && word & m != 0
  {
  }

  lemma SetHits(word: bv16, p: bv16, m: bv16)
    requires OneBitEach(p, m)
    ensures Hits(Patched(word, p, true), m) <==> p == m || Hits(word, m)
  {
    SetMasked(word, p, m);
  }

  lemma ClearHits(word: bv16, p: bv16, m: bv16)
    requires OneBitEach(p, m)
    ensures Hits(Patched(word, p, false), m) <==> p != m && Hits(word, m)
  {
    ClearMasked(word, p, m);
  }

  lemma MasksAreBits(p: int, q: int)
    requires 0 <= p < 16 && 0 <= q < 16
    ensures OneBitEach(Mask(p), Mask(q)) && (Mask(p) == Mask(q) <==> p == q)
  {
    MasksDisjoint(p, q);
  }

  lemma WithBitAt(word: bv16, port: int, on: bool, q: int)
    requires 0 <= port < 16 && 0 <= q < 16
    ensures Bit(WithBit(word, port, on), q) == if q == port then on else Bit(word, q)
  {
    MasksAreBits(port, q);
    if on {
      SetHits(word, Mask(port), Mask(q));
    } else {
      ClearHits(word, Mask(port), Mask(q));
    }
  }
}

/** `legacy/mapping.go`, `legacy/payload.go` and `legacy/frame.go`. */
module Frames {
  import opened Core
  import opened Bits

  /** A byte, as a number. */
  type Byte = n: int | 0 <= n < 256
  type Frame = seq<Byte>

  datatype SemanticState = Vacant | Occupied | Cleaning | Overstay | Other(name: string)

  const STATUS_NONE := 0
  const STATUS_VACANT := 1
  const STATUS_OCCUPIED := 2
  const STATUS_CLEANING := 3
  const STATUS_OVERSTAY := 4
  const DISPLAY_OFF: Byte := 0
  const DISPLAY_ON: Byte := 3

  const COLON: Byte := 0x3a
  const DISPLAY_ADDRESS: Byte := 0xfe

  /** Room status and display mode of a semantic state; None is the unsupported state. */
  function SemanticToLegacy(state: SemanticState): Option<(int, Byte)> {
    match state
    case Vacant => Some((STATUS_VACANT, DISPLAY_OFF))
    case Occupied => Some((STATUS_OCCUPIED, DISPLAY_ON))
    case Cleaning => Some((STATUS_CLEANING, DISPLAY_ON))
    case Overstay => Some((STATUS_OVERSTAY, DISPLAY_ON))
    case Other(_) => None
  }

  /** What SetPortStatus does to the word; None is its error. */
  function Patch(word: bv16, port: int, status: int): Option<bv16> {
    if port < 0 || port > 15 then None
    else if status > 0x0f then None
    else if STATUS_OCCUPIED <= status <= STATUS_OVERSTAY then Some(WithBit(word, port, true))
    else if status == STATUS_VACANT || status == STATUS_NONE then Some(WithBit(word, port, false))
    else None
  }

  /** One port is set or cleared, the fifteen others keep their bit, and nothing else is accepted. */
  lemma PatchBits(word: bv16, port: int, status: int, q: int)
    requires 0 <= q < 16
    ensures Patch(word, port, status).Some? <==> 0 <= port < 16 && status in {0, 1, 2, 3, 4}
    ensures Patch(word, port, status).Some? ==>
      (Bit(Patch(word, port, status).value, q) <==> if q == port then 2 <= status else Bit(word, q))
  {
    if 0 <= port < 16 {
      WithBitAt(word, port, true, q);
      WithBitAt(word, port, false, q);
    }
  }

  class SlavePayload {
    var bitmask: bv16

    constructor (word: bv16)
      ensures bitmask == word
    {
      bitmask := word;
    }

    /** Sets or clears one relay bit and leaves the fifteen others alone. */
    method SetPortStatus(port: int, status: int) returns (ok: bool)
      modifies this
      ensures ok <==> 0 <= port < 16 && status in {0, 1, 2, 3, 4}
      ensures ok ==> forall q :: 0 <= q < 16 ==>
        (Bit(bitmask, q) <==> if q == port then STATUS_OCCUPIED <= status else Bit(old(bitmask), q))
      ensures !ok ==> bitmask == old(bitmask)
      ensures ok == Patch(old(bitmask), port, status).Some?
      ensures bitmask == Patch(old(bitmask), port, status).GetOr(old(bitmask))
    {
      forall q | 0 <= q < 16
        ensures Patch(bitmask, port, status).Some? ==>
          (Bit(Patch(bitmask, port, status).value, q) <==>
            if q == port then STATUS_OCCUPIED <= status else Bit(bitmask, q))
      {
        PatchBits(bitmask, port, status, q);
      }
      PatchBits(bitmask, port, status, 0);
      if port < 0 || port > 15 { return false; }
      if status > 0x0f { return false; }
      if STATUS_OCCUPIED <= status <= STATUS_OVERSTAY {
        bitmask := WithBit(bitmask, port, true);
        return true;
      }
      if status == STATUS_VACANT || status == STATUS_NONE {
        bitmask := WithBit(bitmask, port, false);
        return true;
      }
      return false;
    }
  }

  function LowByte(word: bv16): Byte {
    (word & 0x00ff) as int
  }

  function HighByte(word: bv16): Byte {
    ((word >> 8) & 0x00ff) as int
  }

  /** Addition of Go bytes. */
  function Plus(x: int, y: int): Byte {
    (x + y) % 256
  }

  /** Sum of the bytes modulo 256. */
  function Sum(frame: Frame): Byte {
    if frame == [] then 0 else Plus(Sum(frame[..|frame| - 1]), frame[|frame| - 1])
  }

  lemma SumAppend(frame: Frame, b: Byte)
    ensures Sum(frame + [b]) == Plus(Sum(frame), b)
  {
    assert (frame + [b])[..|frame|] == frame;
  }

  /** `^sum + 1` on a byte. */
  function Negated(sum: Byte): Byte {
    ((255 - sum) + 1) % 256
  }

  lemma NegatedCancels(sum: Byte, other: Byte)
    ensures Plus(sum, other) == 0 <==> other == Negated(sum)
  {
  }

  /** The one byte that brings the sum of the frame to 0 modulo 256. */
  method Checksum(frame: Frame) returns (c: Byte)
    ensures forall other: Byte :: Sum(frame + [other]) == 0 <==> other == c
  {
    var sum: Byte := 0;
    for i := 0 to |frame|
      invariant sum == Sum(frame[..i])
    {
      SumAppend(frame[..i], frame[i]);
      assert frame[..i + 1] == frame[..i] + [frame[i]];
      sum := Plus(sum, frame[i]);
    }
    assert frame[..|frame|] == frame;
    c := Negated(sum);
    forall other: Byte ensures Sum(frame + [other]) == 0 <==> other == c {
      SumAppend(frame, other);
      NegatedCancels(sum, other);
    }
  }

  function Header(address: Byte, word: bv16): Frame {
    [COLON, address, LowByte(word), HighByte(word)]
  }

  function SlaveFrame(address: Byte, word: bv16): Frame {
    Header(address, word) + [Negated(Sum(Header(address, word)))]
  }

  method BuildSlaveFrame(address: Byte, word: bv16) returns (frame: Frame)
    ensures frame == SlaveFrame(address, word)
    ensures |frame| == 5 && Sum(frame) == 0
  {
    frame := [];
    frame := frame + [COLON, address, LowByte(word), HighByte(word)];
    assert frame == Header(address, word);
    var c := Checksum(frame);
    SumAppend(frame, Negated(Sum(frame)));
    NegatedCancels(Sum(frame), Negated(Sum(frame)));
    frame := frame + [c];
  }

  /** `byte(int(cardIndex)*16 + portIndex)`: an addition that keeps the low byte. */
  function PortRef(cardIndex: Byte, port: int): Byte {
    (cardIndex * 16 + port) % 256
  }

  function DisplayFrame(cardIndex: Byte, port: int, mode: Byte): Frame
  {
    [COLON, DISPLAY_ADDRESS, PortRef(cardIndex, port), mode]
  }

  /** What a relay board at `address` does with a frame it hears: the word it latches, or nothing. */
  function Latch(frame: Frame, address: Byte): Option<bv16> {
    if |frame| == 5 && frame[0] == 0x3a && frame[1] == address && Sum(frame) == 0
    then Some(((frame[3] as bv16) << 8) | (frame[2] as bv16))
    else None
  }

  /** What the display shows at a card and port after a frame it hears: a new mode, or nothing new. */
  function Shown(frame: Frame, card: int, port: int): Option<Byte> {
    if |frame| == 4 && frame[0] == 0x3a && frame[1] == 0xfe && frame[2] / 16 == card && frame[2] % 16 == port
    then Some(frame[3])
    else None
  }

  lemma NumberAndBack(w: bv16)
    ensures (w as int) as bv16 == w
  {
  }

  lemma HalvesRecompose(w: bv16)
    ensures (((w >> 8) & 0x00ff) << 8) | (w & 0x00ff) == w
  {
  }

  lemma BytesRecompose(word: bv16)
    ensures ((HighByte(word) as bv16) << 8) | (LowByte(word) as bv16) == word
  {
    NumberAndBack(word & 0x00ff);
    NumberAndBack((word >> 8) & 0x00ff);
    HalvesRecompose(word);
  }

  lemma SlaveFrameRoundTrip(address: Byte, word: bv16, listener: Byte)
    ensures Latch(SlaveFrame(address, word), listener) == if listener == address then Some(word) else None
  {
    var h := Header(address, word);
    SumAppend(h, Negated(Sum(h)));
    NegatedCancels(Sum(h), Negated(Sum(h)));
    BytesRecompose(word);
  }

  lemma SwapAddends(x: int, d: int, y: int)
    ensures Plus(Plus(x, d), y) == Plus(Plus(x, y), d)
  {
  }

  lemma LastAddend(x: int, was: int, b: int)
    ensures Plus(x, b) == Plus(Plus(x, was), b - was)
  {
  }

  lemma {:induction false} OneByteChangeShiftsSum(frame: Frame, i: nat, b: Byte)
    requires i < |frame|
    ensures Sum(frame[i := b]) == Plus(Sum(frame), b - frame[i])
  {
    var n := |frame| - 1;
    if i == n {
      assert frame[i := b][..n] == frame[..n];
      LastAddend(Sum(frame[..n]), frame[i], b);
    } else {
      OneByteChangeShiftsSum(frame[..n], i, b);
      assert frame[i := b][..n] == frame[..n][i := b];
      SwapAddends(Sum(frame[..n]), b - frame[i], frame[n]);
    }
  }

  lemma ShiftFromZero(was: Byte, b: Byte)
    requires was != b
    ensures Plus(0, b - was) != 0
  {
  }

  lemma OneByteChangeBreaksSum(frame: Frame, i: nat, b: Byte)
    requires i < |frame| && b != frame[i]
    requires Sum(frame) == 0
    ensures Sum(frame[i := b]) != 0
  {
    OneByteChangeShiftsSum(frame, i, b);
    ShiftFromZero(frame[i], b);
  }

  /** No single corrupted byte gets past a board, wherever it sits in whatever frame. */
  lemma OneByteChangeIsCaught(frame: Frame, i: nat, b: Byte, listener: Byte)
    requires i < |frame| && b != frame[i]
    requires Sum(frame) == 0
    ensures Latch(frame[i := b], listener) == None
  {
    OneByteChangeBreaksSum(frame, i, b);
  }

  /** Boards never take a display frame for a slave frame, not even the board at the display's own address. */
  lemma DisplayFrameIsIgnored(cardIndex: Byte, port: int, mode: Byte, listener: Byte)
    ensures Latch(DisplayFrame(cardIndex, port, mode), listener) == None
  {
  }

  /** The display reference names its card and port exactly when the card fits in a nibble. */
  lemma PortRefInverts(cardIndex: Byte, port: int)
    requires 0 <= port < 16
    ensures (PortRef(cardIndex, port) / 16 == cardIndex && PortRef(cardIndex, port) % 16 == port) <==> cardIndex < 16
  {
    var sum := cardIndex * 16 + port;
    if cardIndex < 16 {
      assert sum % 256 == sum;
    } else {
      assert sum % 256 < 256;
    }
  }

  lemma DropMultiple(k: int, x: int)
    requires 0 <= x < 256
    ensures (256 * k + x) % 256 == x
  {
  }

  lemma PortRefIs(cardIndex: Byte, port: int)
    requires 0 <= port < 16
    ensures PortRef(cardIndex, port) == (cardIndex % 16) * 16 + port
  {
    DropMultiple(cardIndex / 16, (cardIndex % 16) * 16 + port);
  }

  lemma NibblesOf(high: int, low: int)
    requires 0 <= low < 16
    ensures (high * 16 + low) / 16 == high && (high * 16 + low) % 16 == low
  {
  }

  /** A display frame sets the mode at its port of the card, counted modulo 16, and nowhere else. */
  lemma DisplayFrameShows(cardIndex: Byte, port: int, mode: Byte, card: int, q: int)
    requires 0 <= port < 16
    ensures Shown(DisplayFrame(cardIndex, port, mode), card, q) ==
      if card == cardIndex % 16 && q == port then Some(mode) else None
  {
    PortRefIs(cardIndex, port);
    NibblesOf(cardIndex % 16, port);
  }

  lemma SlaveFrameShowsNothing(address: Byte, word: bv16, card: int, port: int)
    ensures Shown(SlaveFrame(address, word), card, port) == None
  {
  }

  /** The four states the legacy bus knows: vacant is the display's mode 0, every other one mode 3. */
  lemma LegacyExactlyWhen(state: SemanticState)
    ensures SemanticToLegacy(state).Some? <==> !state.Other?
    ensures SemanticToLegacy(state).Some? ==>
      SemanticToLegacy(state).value.1 == (if state == Vacant then 0 else 3) && 1 <= SemanticToLegacy(state).value.0 <= 4
  {
  }
}
