/** The two 64-bit words and the records they stand for. */
module Packed {
  import opened Words
  import opened Bits

  const U64_MOD: nat := 0x1_0000_0000_0000_0000
  const STOPPED_MASK: nat := 0x8000_0000_0000_0000
  const WRITING_IN_PROGRESS_MASK: nat := 0x4000_0000_0000_0000
  const SEQUENCE_MASK: nat := 0x3FFF_FFFF_FFFF_FFFF

  type Word = w: nat | w < U64_MOD

  function UnpackSequence(w: Word): SequenceState {
    SequenceState(BitAnd(w, SEQUENCE_MASK), BitAnd(w, STOPPED_MASK) != 0, BitAnd(w, WRITING_IN_PROGRESS_MASK) != 0)
  }

  function PackSequence(s: SequenceState): nat {
    BitOr(BitOr((if s.stopped then 1 else 0) * STOPPED_MASK, (if s.writing then 1 else 0) * WRITING_IN_PROGRESS_MASK),
          BitAnd(s.sequence, SEQUENCE_MASK))
  }

  function UnpackReaders(w: Word): ReadersState {
    ReadersState(w % U16_MOD, w / 0x1_0000 % U16_MOD, w / 0x1_0000_0000 % U16_MOD, w / 0x1_0000_0000_0000 % U16_MOD)
  }

  function PackReaders(r: ReadersState): nat {
    BitOr(BitOr(BitOr(r.target, r.consumers * 0x1_0000), r.active * 0x1_0000_0000), r.consumed * 0x1_0000_0000_0000)
  }

  /** The values the record fields can hold. */
  predicate ReadersFit(r: ReadersState) {
    r.target < U16_MOD && r.consumers < U16_MOD && r.active < U16_MOD && r.consumed < U16_MOD
  }

  predicate SequenceFits(s: SequenceState) { s.sequence < SEQUENCE_MOD }

  // ---------- the readers word ----------

  lemma PackReadersIs(r: ReadersState)
    requires ReadersFit(r)
    ensures PackReaders(r) ==
            r.target + r.consumers * 0x1_0000 + r.active * 0x1_0000_0000 + r.consumed * 0x1_0000_0000_0000 < U64_MOD
  {
    FieldPowers();
    OrFields(16, r.target, r.consumers);
    OrFields(32, r.target + r.consumers * 0x1_0000, r.active);
    OrFields(48, r.target + r.consumers * 0x1_0000 + r.active * 0x1_0000_0000, r.consumed);
  }

  /** Dividing by 2^16 takes the low field off. */
  lemma DivField(low: nat, high: nat)
    requires low < U16_MOD
    ensures (low + high * U16_MOD) / U16_MOD == high && (low + high * U16_MOD) % U16_MOD == low
  {
  }

  lemma Shifts(w: nat)
    ensures w / 0x1_0000_0000 == w / 0x1_0000 / 0x1_0000
    ensures w / 0x1_0000_0000_0000 == w / 0x1_0000_0000 / 0x1_0000
  {
  }

  lemma UnpackFields(w: Word, r: ReadersState)
    requires ReadersFit(r)
    requires w == r.target + (r.consumers + (r.active + r.consumed * U16_MOD) * U16_MOD) * U16_MOD
    ensures UnpackReaders(w) == r
  {
    Shifts(w);
    DivField(r.target, r.consumers + (r.active + r.consumed * U16_MOD) * U16_MOD);
    DivField(r.consumers, r.active + r.consumed * U16_MOD);
    DivField(r.active, r.consumed);
  }

  lemma UnpackPackReaders(r: ReadersState)
    requires ReadersFit(r)
    ensures PackReaders(r) < U64_MOD && UnpackReaders(PackReaders(r)) == r
  {
    PackReadersIs(r);
    UnpackFields(PackReaders(r), r);
  }

  lemma PackUnpackReaders(w: Word)
    ensures ReadersFit(UnpackReaders(w)) && PackReaders(UnpackReaders(w)) == w
  {
    PackReadersIs(UnpackReaders(w));
    Shifts(w);
  }

  // ---------- the sequence word ----------

  lemma SequenceBits() returns (k: nat)
    ensures Pow2(k) == SEQUENCE_MOD
  {
    FieldPowers();
    k := 62;
  }

  /** A word is 62 bits of sequence below two flag bits, and bit operations act on the parts separately. */
  lemma AndParts(low: nat, top: nat, mlow: nat, mtop: nat)
    requires low < SEQUENCE_MOD && mlow < SEQUENCE_MOD
    ensures BitAnd(low + top * SEQUENCE_MOD, mlow + mtop * SEQUENCE_MOD) ==
            BitAnd(low, mlow) + BitAnd(top, mtop) * SEQUENCE_MOD
  {
    var k := SequenceBits();
    AndSum(k, low, top, mlow, mtop);
  }

  lemma OrParts(low: nat, top: nat, mlow: nat, mtop: nat)
    requires low < SEQUENCE_MOD && mlow < SEQUENCE_MOD
    ensures BitOr(low + top * SEQUENCE_MOD, mlow + mtop * SEQUENCE_MOD) ==
            BitOr(low, mlow) + BitOr(top, mtop) * SEQUENCE_MOD
  {
    var k := SequenceBits();
    OrSum(k, low, top, mlow, mtop);
  }

  lemma SequenceMask(low: nat)
    requires low < SEQUENCE_MOD
    ensures BitAnd(low, SEQUENCE_MASK) == low && BitAnd(low, 0) == 0 && BitOr(low, 0) == low && BitOr(0, low) == low
  {
    var k := SequenceBits();
    AndOnes(k, low);
  }

  lemma FlagBits(top: nat)
    requires top < 4
    ensures BitAnd(top, 0) == 0 && BitAnd(top, 1) == top % 2 && BitAnd(top, 2) == (if top >= 2 then 2 else 0)
    ensures BitOr(top, 0) == top && BitOr(top, 1) == (if top % 2 == 1 then top else top + 1)
    ensures BitOr(top, 2) == (if top >= 2 then top else top + 2)
  {
    assert top == 0 || top == 1 || top == 2 || top == 3;
  }

  lemma UnpackParts(w: Word, low: nat, top: nat)
    requires low < SEQUENCE_MOD && top < 4 && w == low + top * SEQUENCE_MOD
    ensures UnpackSequence(w) == SequenceState(low, top >= 2, top % 2 == 1)
  {
    AndParts(low, top, SEQUENCE_MASK, 0);
    AndParts(low, top, 0, 1);
    AndParts(low, top, 0, 2);
    SequenceMask(low);
    FlagBits(top);
  }

  lemma Parts(w: Word) returns (low: nat, top: nat)
    ensures low < SEQUENCE_MOD && top < 4 && w == low + top * SEQUENCE_MOD
  {
    low, top := w % SEQUENCE_MOD, w / SEQUENCE_MOD;
  }

  function Flags(s: SequenceState): nat { (if s.writing then 1 else 0) + (if s.stopped then 2 else 0) }

  lemma PackParts(s: SequenceState)
    requires SequenceFits(s)
    ensures PackSequence(s) == s.sequence + Flags(s) * SEQUENCE_MOD < U64_MOD
  {
    var stopped: nat := if s.stopped then 2 else 0;
    var writing: nat := if s.writing then 1 else 0;
    OrParts(0, stopped, 0, writing);
    FlagBits(stopped);
    SequenceMask(s.sequence);
    OrParts(0, stopped + writing, s.sequence, 0);
    FlagBits(stopped + writing);
  }

  lemma UnpackPackSequence(s: SequenceState)
    requires SequenceFits(s)
    ensures PackSequence(s) < U64_MOD && UnpackSequence(PackSequence(s)) == s
  {
    PackParts(s);
    UnpackParts(PackSequence(s), s.sequence, Flags(s));
  }

  lemma PackUnpackSequence(w: Word)
    ensures SequenceFits(UnpackSequence(w)) && PackSequence(UnpackSequence(w)) == w
  {
    var low, top := Parts(w);
    UnpackParts(w, low, top);
    PackParts(UnpackSequence(w));
  }

  lemma OrFlagParts(low: nat, top: nat, flag: nat)
    requires low < SEQUENCE_MOD
    ensures BitOr(low + top * SEQUENCE_MOD, flag * SEQUENCE_MOD) == low + BitOr(top, flag) * SEQUENCE_MOD
  {
    SequenceMask(low);
    OrParts(low, top, 0, flag);
  }

  /** Or-ing a flag in sets that flag and nothing else. */
  lemma OrFlag(w: Word, flag: nat) returns (w': Word)
    requires flag == 1 || flag == 2
    ensures w' == BitOr(w, flag * SEQUENCE_MOD)
    ensures UnpackSequence(w') ==
            if flag == 2 then UnpackSequence(w).(stopped := true) else UnpackSequence(w).(writing := true)
  {
    var low, top := Parts(w);
    FlagBits(top);
    OrFlagParts(low, top, flag);
    w' := low + BitOr(top, flag) * SEQUENCE_MOD;
    UnpackParts(w, low, top);
    UnpackParts(w', low, BitOr(top, flag));
  }

  /** And-ing with everything but the writing flag lowers that flag and nothing else. */
  lemma AndNotWriting(w: Word)
    ensures BitAnd(w, SEQUENCE_MASK + 2 * SEQUENCE_MOD) < U64_MOD
    ensures UnpackSequence(BitAnd(w, SEQUENCE_MASK + 2 * SEQUENCE_MOD)) == UnpackSequence(w).(writing := false)
  {
    var low, top := Parts(w);
    UnpackParts(w, low, top);
    FlagBits(top);
    SequenceMask(low);
    AndParts(low, top, SEQUENCE_MASK, 2);
    UnpackParts(BitAnd(w, SEQUENCE_MASK + 2 * SEQUENCE_MOD), low, BitAnd(top, 2));
  }

  /** The flag operations on the word touch only their flag. */
  lemma FetchOps(w: Word)
    ensures BitOr(w, STOPPED_MASK) < U64_MOD
    ensures UnpackSequence(BitOr(w, STOPPED_MASK)) == UnpackSequence(w).(stopped := true)
    ensures BitOr(w, WRITING_IN_PROGRESS_MASK) < U64_MOD
    ensures UnpackSequence(BitOr(w, WRITING_IN_PROGRESS_MASK)) == UnpackSequence(w).(writing := true)
    ensures BitAnd(w, U64_MOD - 1 - WRITING_IN_PROGRESS_MASK) < U64_MOD
    ensures UnpackSequence(BitAnd(w, U64_MOD - 1 - WRITING_IN_PROGRESS_MASK)) == UnpackSequence(w).(writing := false)
  {
    var _ := OrFlag(w, 2);
    var _ := OrFlag(w, 1);
    AndNotWriting(w);
  }

  lemma MutateFits(m: Mutator, r: ReadersState)
    requires ReadersFit(r)
    ensures Mutate(m, r).Some? ==> ReadersFit(Mutate(m, r).value)
  {
  }

  /** Decoding, applying a closure and encoding again applies the closure; it leaves the word alone exactly
      when it leaves the record alone. */
  lemma MutatedWord(m: Mutator, w: Word, policy: Option<ReadersState>)
    requires policy == Mutate(m, UnpackReaders(w)) && policy.Some?
    ensures PackReaders(policy.value) < U64_MOD && UnpackReaders(PackReaders(policy.value)) == policy.value
    ensures PackReaders(policy.value) == w <==> policy.value == UnpackReaders(w)
  {
    PackUnpackReaders(w);
    MutateFits(m, UnpackReaders(w));
    UnpackPackReaders(policy.value);
  }

  /** Decoding, publishing and encoding again is publishing. */
  lemma PublishedWord(w: Word)
    ensures PackSequence(Published(UnpackSequence(w))) < U64_MOD
    ensures UnpackSequence(PackSequence(Published(UnpackSequence(w)))) == Published(UnpackSequence(w))
  {
    PackUnpackSequence(w);
    UnpackPackSequence(Published(UnpackSequence(w)));
  }
}
