/**
 * The relay driver (controlSlotRelay): a 16-bit mask mirrors the relay outputs of the I2C
 * expander, split into two 8-bit banks; each command rewrites the one bank byte that holds
 * the slot's bit.
 */
module Relay {
  import opened Types

  /** Output register of the bank holding slots 0-7. */
  const GPIOB: bv8 := 0x02
  /** Output register of the bank holding slots 8-15. */
  const GPIOA: bv8 := 0x03

  /** One write on the bus: a register address followed by a data byte. */
  datatype BusWrite = BusWrite(register: bv8, data: bv8)

  /** Whether relay `r` is on in `mask`. */
  predicate IsOn(mask: bv16, r: bv4) { (mask >> r) & 1 == 1 }

  /** Bit `j` of a bank byte. */
  predicate ByteBit(b: bv8, j: bv3) { (b >> j) & 1 == 1 }

  function SetBit(mask: bv16, r: bv4): bv16 { mask | (1 << r) }

  function ClearBit(mask: bv16, r: bv4): bv16 { mask & !(1 << r) }

  lemma SetBitAt(mask: bv16, r: bv4, j: bv4)
    ensures IsOn(SetBit(mask, r), j) == (j == r || IsOn(mask, j))
  { }

  lemma ClearBitAt(mask: bv16, r: bv4, j: bv4)
    ensures IsOn(ClearBit(mask, r), j) == (j != r && IsOn(mask, j))
  { }

  /** The mask with relay `r` switched to `on`: only bit `r` changes. */
  function WithRelay(mask: bv16, r: bv4, on: bool): (m: bv16)
    ensures forall j: bv4 :: IsOn(m, j) == if j == r then on else IsOn(mask, j)
  {
    if on then
      assert forall j: bv4 :: IsOn(SetBit(mask, r), j) == (j == r || IsOn(mask, j)) by {
        forall j: bv4 { SetBitAt(mask, r, j); }
      }
      SetBit(mask, r)
    else
      assert forall j: bv4 :: IsOn(ClearBit(mask, r), j) == (j != r && IsOn(mask, j)) by {
        forall j: bv4 { ClearBitAt(mask, r, j); }
      }
      ClearBit(mask, r)
  }

  /** First relay of the bank that holds relay `r`. */
  function BankBase(r: bv4): bv4 { if r < 8 then 0 else 8 }

  /** The register of the bank holding relay `r`. */
  function Register(r: bv4): bv8 { if r < 8 then GPIOB else GPIOA }

  lemma BankByteBit(mask: bv16, r: bv4, j: bv3)
    ensures ByteBit(if r < 8 then (mask & 0xFF) as bv8 else (mask >> 8) as bv8, j)
         == IsOn(mask, BankBase(r) + j as bv4)
  { }

  /** The byte sent for relay `r`: bit `j` is the state of the bank's `j`-th relay. */
  function BankByte(mask: bv16, r: bv4): (b: bv8)
    ensures forall j: bv3 :: ByteBit(b, j) == IsOn(mask, BankBase(r) + j as bv4)
  {
    var b := if r < 8 then (mask & 0xFF) as bv8 else (mask >> 8) as bv8;
    forall j: bv3 ensures ByteBit(b, j) == IsOn(mask, BankBase(r) + j as bv4) {
      BankByteBit(mask, r, j);
    }
    b
  }

  /** What one call of the driver did: the new mask, the write it put on the bus (if any) and its result. */
  datatype Outcome = Outcome(mask: bv16, write: Option<BusWrite>, ok: bool)

  predicate ValidSlot(slot: int) { 0 <= slot < MAX_SLOTS }

  /**
   * controlSlotRelay as the firmware writes it: an out-of-range slot is refused; otherwise the
   * mask bit is changed, the bank byte is written, and the result is the acknowledgement. The
   * changed bit is kept even when the write is not acknowledged.
   */
  function CommandAsWritten(mask: bv16, slot: int, on: bool, ack: bool): (o: Outcome)
    ensures o.ok <==> ValidSlot(slot) && ack
    ensures !ValidSlot(slot) ==> o.write == None && o.mask == mask
    ensures ValidSlot(slot) ==> forall j: bv4 :: IsOn(o.mask, j) == if j == slot as bv4 then on else IsOn(mask, j)
    ensures ValidSlot(slot) ==> o.write == Some(BusWrite(Register(slot as bv4), BankByte(o.mask, slot as bv4)))
  {
    if !ValidSlot(slot) then Outcome(mask, None, false)
    else
      var m := WithRelay(mask, slot as bv4, on);
      Outcome(m, Some(BusWrite(Register(slot as bv4), BankByte(m, slot as bv4))), ack)
  }

  /**
   * controlSlotRelay as corrected: the same write, but the mask takes the new bit only when the
   * expander acknowledged it, so the mask mirrors what the relays were last successfully told.
   */
  function Command(mask: bv16, slot: int, on: bool, ack: bool): (o: Outcome)
    ensures o.ok <==> ValidSlot(slot) && ack
    ensures !ValidSlot(slot) ==> o.write == None
    ensures ValidSlot(slot) ==> o.write.Some? && o.write.value.register == Register(slot as bv4)
    ensures ValidSlot(slot) ==> forall j: bv3 ::
      ByteBit(o.write.value.data, j) ==
        var k := BankBase(slot as bv4) + j as bv4; if k == slot as bv4 then on else IsOn(mask, k)
    ensures o.ok ==> forall j: bv4 :: IsOn(o.mask, j) == if j == slot as bv4 then on else IsOn(mask, j)
    ensures !o.ok ==> o.mask == mask
  {
    if !ValidSlot(slot) then Outcome(mask, None, false)
    else
      var m := WithRelay(mask, slot as bv4, on);
      Outcome(if ack then m else mask, Some(BusWrite(Register(slot as bv4), BankByte(m, slot as bv4))), ack)
  }

  /** One request to the driver, with the acknowledgement the expander gave. */
  datatype Request = Request(slot: int, on: bool, ack: bool)

  /** The mask after the corrected driver served `reqs` in order, starting from `mask`. */
  function Run(mask: bv16, reqs: seq<Request>): bv16
    decreases |reqs|
  {
    if reqs == [] then mask
    else
      var last := reqs[|reqs| - 1];
      Command(Run(mask, reqs[..|reqs| - 1]), last.slot, last.on, last.ack).mask
  }

  /** The state relay `j` was last successfully commanded to, or its initial state. */
  function LastAcknowledged(mask: bv16, reqs: seq<Request>, j: bv4): bool
    decreases |reqs|
  {
    if reqs == [] then IsOn(mask, j)
    else
      var last := reqs[|reqs| - 1];
      if ValidSlot(last.slot) && last.ack && last.slot as bv4 == j then last.on
      else LastAcknowledged(mask, reqs[..|reqs| - 1], j)
  }

  /** With the corrected driver every mask bit is the last acknowledged command for that relay. */
  lemma {:induction false} MaskMirrorsAcknowledged(mask: bv16, reqs: seq<Request>, j: bv4)
    ensures IsOn(Run(mask, reqs), j) == LastAcknowledged(mask, reqs, j)
    decreases |reqs|
  {
    if reqs != [] {
      MaskMirrorsAcknowledged(mask, reqs[..|reqs| - 1], j);
    }
  }

  /**
   * As written: relay 0's activation is not acknowledged (the purchase is aborted), then relay 1
   * is switched on for a paid purchase; the byte sent for bank B switches relay 0 on as well.
   */
  lemma AsWrittenEnergisesAbortedRelay()
    ensures var aborted := CommandAsWritten(0, 0, true, false);
            var paid := CommandAsWritten(aborted.mask, 1, true, true);
            !aborted.ok && paid.ok && paid.write == Some(BusWrite(GPIOB, 0x03))
  { }

  /** Corrected: the same two requests leave relay 0 off; only relay 1's bit is sent. */
  lemma CorrectedKeepsAbortedRelayOff()
    ensures var aborted := Command(0, 0, true, false);
            var paid := Command(aborted.mask, 1, true, true);
            !aborted.ok && paid.ok && paid.write == Some(BusWrite(GPIOB, 0x02))
  { }
}
