/** The mode word of a descriptor, which the driver and the engine share.

  The rest of the model keeps the word as the record of its fields. The lemmas here
  show that the masks the driver applies to the 32-bit word are operations on that
  record. Bits 11 to 15 and 20 to 25 are never read back and have no field.
 */
module CpdmaMode {

  datatype Mode = Mode(owner: bool, eoq: bool, tdComplete: bool, passCrc: bool, port: bv32, len: bv32) {
    /** Released by the engine, which saw the end of the queue there. */
    predicate Stalled() { eoq && !owner }

    function ClearEoq(): Mode { this.(eoq := false) }
  }

  const SOP: bv32 := 0x8000_0000
  const EOP: bv32 := 0x4000_0000
  const OWNER: bv32 := 0x2000_0000
  const EOQ: bv32 := 0x1000_0000
  const TD_COMPLETE: bv32 := 0x0800_0000
  const PASS_CRC: bv32 := 0x0400_0000
  const TO_PORT_EN: bv32 := 0x0010_0000
  const PORT_MASK: bv32 := 0x0007_0000
  const VLAN_ENCAP: bv32 := 0x0008_0000

  function Decode(word: bv32): Mode {
    Mode(word & OWNER != 0, word & EOQ != 0, word & TD_COMPLETE != 0, word & PASS_CRC != 0,
         (word >> 16) & 7, word & 0x7ff)
  }

  /** The test for a missed append. */
  lemma StalledWord(word: bv32)
    ensures word & (EOQ | OWNER) == EOQ <==> Decode(word).Stalled()
  {
    assert word & (EOQ | OWNER) == (word & EOQ) | (word & OWNER);
  }

  lemma ClearOther(word: bv32, mask: bv32)
    requires mask & EOQ == 0
    ensures (word & !EOQ) & mask == word & mask
  {}

  lemma ClearPort(word: bv32)
    ensures ((word & !EOQ) >> 16) & 7 == (word >> 16) & 7
  {}

  /** The repair of a missed append. */
  lemma ClearEoqWord(word: bv32)
    ensures Decode(word & !EOQ) == Decode(word).ClearEoq()
  {
    ClearOther(word, OWNER);
    ClearOther(word, TD_COMPLETE);
    ClearOther(word, PASS_CRC);
    ClearOther(word, 0x7ff);
    ClearPort(word);
    assert (word & !EOQ) & EOQ == 0;
  }

  /** The word a submit writes: owned by the engine, with the length in its low bits
      and, on a directed transmit, the target port. */
  function SubmitWord(len: bv32, toPort: bool, directed: bv32): bv32 {
    var mode := OWNER | SOP | EOP;
    (if toPort && (directed == 1 || directed == 2) then mode | (TO_PORT_EN | (directed << 16)) else mode) | len
  }

  /** A submit marks a whole packet, and enables the target port exactly on a directed
      transmit. */
  lemma SubmittedBits(len: bv32, toPort: bool, directed: bv32)
    requires len < 0x800
    ensures var word := SubmitWord(len, toPort, directed);
            && word & SOP != 0 && word & EOP != 0
            && (word & TO_PORT_EN != 0 <==> toPort && (directed == 1 || directed == 2))
  {}

  lemma SubmittedFlags(len: bv32, toPort: bool, directed: bv32)
    requires len < 0x800
    ensures var mode := Decode(SubmitWord(len, toPort, directed));
            mode.owner && !mode.eoq && !mode.tdComplete && !mode.passCrc
  {}

  lemma SubmittedLen(len: bv32, toPort: bool, directed: bv32)
    requires len < 0x800
    ensures Decode(SubmitWord(len, toPort, directed)).len == len
  {}

  lemma SubmittedPort(len: bv32, toPort: bool, directed: bv32)
    requires len < 0x800
    ensures Decode(SubmitWord(len, toPort, directed)).port ==
            if toPort && (directed == 1 || directed == 2) then directed else 0
  {}

  /** Whatever the length, a submitted word is owned by the engine. */
  lemma SubmittedIsOwned(len: bv32, toPort: bool, directed: bv32)
    ensures Decode(SubmitWord(len, toPort, directed)).owner
  {
    var word := SubmitWord(len, toPort, directed);
    assert word & OWNER == OWNER;
  }

  /** The status returned by `__cpdma_chan_process` keeps the EOQ and teardown marks,
      and no status is negative when read as a signed number. */
  lemma StatusWord(word: bv32)
    ensures var status := word & (EOQ | TD_COMPLETE | PORT_MASK | VLAN_ENCAP);
            && Decode(status).eoq == Decode(word).eoq
            && Decode(status).tdComplete == Decode(word).tdComplete
            && status < 0x8000_0000
  {
    var status := word & (EOQ | TD_COMPLETE | PORT_MASK | VLAN_ENCAP);
    assert status & EOQ == word & EOQ;
    assert status & TD_COMPLETE == word & TD_COMPLETE;
  }
}
