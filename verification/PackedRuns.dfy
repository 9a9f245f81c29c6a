/** Runs over the two words and runs over the two records are the same runs. */
module PackedRuns {
  import opened Words
  import opened Bits
  import opened Packed
  import opened Machine
  import opened PackedMachine

  // ---------- every packed step is a record step ----------

  lemma AttemptDecodes(m: Mutator, packed: Word)
    ensures DecodePC(PackedAttempt(m, packed)) == Attempt(m, UnpackReaders(packed))
  {
    var policy := Mutate(m, UnpackReaders(packed));
    if policy.Some? {
      MutatedWord(m, packed, policy);
    }
  }

  lemma SwapDecodes(sh: PackedShared, t: nat, th: PackedThread, sh': PackedShared, th': PackedThread)
    requires th.pc.Swap? && PackedMoved(sh, t, th, sh', th')
    ensures Moved(DecodeShared(sh), t, DecodeThread(th), DecodeShared(sh'), DecodeThread(th'))
  {
    AttemptDecodes(th.pc.m, sh.readers);
    var policy := Mutate(th.pc.m, UnpackReaders(th.pc.packed));
    if policy.Some? {
      MutatedWord(th.pc.m, th.pc.packed, policy);
    }
  }

  lemma LoadDecodes(sh: PackedShared, t: nat, th: PackedThread, sh': PackedShared, th': PackedThread)
    requires th.pc.At? && th.pc.pc.U? && PackedMoved(sh, t, th, sh', th')
    ensures Moved(DecodeShared(sh), t, DecodeThread(th), DecodeShared(sh'), DecodeThread(th'))
  {
    AttemptDecodes(th.pc.pc.m, sh.readers);
  }

  lemma CallDecodes(sh: PackedShared, t: nat, th: PackedThread, sh': PackedShared, th': PackedThread)
    requires th.pc == At(Idle) && PackedMoved(sh, t, th, sh', th')
    ensures Moved(DecodeShared(sh), t, DecodeThread(th), DecodeShared(sh'), DecodeThread(th'))
  {
    FetchOps(sh.sequence);
  }

  lemma LookDecodes(sh: PackedShared, t: nat, th: PackedThread, sh': PackedShared, th': PackedThread)
    requires th.pc.At? && th.pc.pc.W? && Loads(th.pc.pc.w) && PackedMoved(sh, t, th, sh', th')
    ensures Moved(DecodeShared(sh), t, DecodeThread(th), DecodeShared(sh'), DecodeThread(th'))
  {
  }

  lemma StoreDecodes(sh: PackedShared, t: nat, th: PackedThread, sh': PackedShared, th': PackedThread)
    requires th.pc.At? && th.pc.pc.W? && Stores(th.pc.pc.w) && PackedMoved(sh, t, th, sh', th')
    ensures Moved(DecodeShared(sh), t, DecodeThread(th), DecodeShared(sh'), DecodeThread(th'))
  {
    FetchOps(sh.sequence);
    NextDecodes(th.wr.prev);
  }

  lemma SeeDecodes(sh: PackedShared, t: nat, th: PackedThread, sh': PackedShared, th': PackedThread)
    requires th.pc.At? && th.pc.pc.R? && PackedMoved(sh, t, th, sh', th')
    ensures Moved(DecodeShared(sh), t, DecodeThread(th), DecodeShared(sh'), DecodeThread(th'))
  {
  }

  /** Masking the incremented sequence wraps it at 62 bits. */
  lemma MaskWraps(sequence: nat)
    requires sequence < SEQUENCE_MOD
    ensures BitAnd(sequence + 1, SEQUENCE_MASK) == (sequence + 1) % SEQUENCE_MOD
  {
    var next := sequence + 1;
    var low, top := next % SEQUENCE_MOD, next / SEQUENCE_MOD;
    AndParts(low, top, SEQUENCE_MASK, 0);
    SequenceMask(low);
    FlagBits(top);
  }

  lemma NextDecodes(prev: Word)
    ensures NextPacked(prev) < U64_MOD && UnpackSequence(NextPacked(prev)) == Published(UnpackSequence(prev))
    ensures NextPacked(prev) == PackSequence(Published(UnpackSequence(prev)))
  {
    PackUnpackSequence(prev);
    MaskWraps(UnpackSequence(prev).sequence);
    PublishedWord(prev);
  }

  lemma StepDecodes(s: PackedState, t: nat, s': PackedState)
    requires PackedStep(s, t, s')
    ensures Step(Decode(s), t, Decode(s'))
  {
    var sh, th, sh', th' := s.sh, s.threads[t], s'.sh, s'.threads[t];
    match th.pc {
      case Swap(_, _) => SwapDecodes(sh, t, th, sh', th');
      case At(Idle) => CallDecodes(sh, t, th, sh', th');
      case At(U(_, _)) => LoadDecodes(sh, t, th, sh', th');
      case At(W(w)) =>
        if Loads(w) {
          LookDecodes(sh, t, th, sh', th');
        } else if Stores(w) {
          StoreDecodes(sh, t, th, sh', th');
        }
      case At(R(_)) => SeeDecodes(sh, t, th, sh', th');
      case At(N(_, _)) =>
    }
    assert Decode(s').threads == Decode(s).threads[t := Decode(s').threads[t]];
  }

  function DecodeRun(run: seq<PackedState>): (d: seq<State>)
    ensures |d| == |run| && forall i :: 0 <= i < |run| ==> d[i] == Decode(run[i])
  {
    seq(|run|, i requires 0 <= i < |run| => Decode(run[i]))
  }

  lemma InitDecodes(s: PackedState)
    requires PackedInit(s)
    ensures Init(Decode(s))
  {
    UnpackFields(0, ReadersState(0, 0, 0, 0));
    UnpackParts(0, 0, 0);
  }

  /** Every run over the words simulates a run over the records, state by state and step by step. */
  lemma PackedRunDecodes(run: seq<PackedState>, tids: seq<nat>)
    requires PackedRun(run, tids)
    ensures Run(DecodeRun(run), tids)
  {
    var d := DecodeRun(run);
    InitDecodes(run[0]);
    forall i | 0 <= i < |tids| ensures StepAt(d, tids, i) {
      assert PackedStepAt(run, tids, i);
      StepDecodes(run[i], tids[i], run[i + 1]);
    }
  }

  // ---------- every record step is a packed step ----------

  function SequenceWord(q: SequenceState): (w: Word)
    requires SequenceFits(q)
    ensures UnpackSequence(w) == q && w == PackSequence(q)
  {
    UnpackPackSequence(q);
    PackSequence(q)
  }

  function ReadersWord(r: ReadersState): (w: Word)
    requires ReadersFit(r)
    ensures UnpackReaders(w) == r && w == PackReaders(r)
  {
    UnpackPackReaders(r);
    PackReaders(r)
  }

  /** The locals that hold words hold 64 bits. */
  predicate ThreadFits(th: Thread) {
    && (th.pc.U? && th.pc.seen.Some? ==> ReadersFit(th.pc.seen.value))
    && ReadersFit(th.wr.look) && SequenceFits(th.wr.prev)
  }

  predicate SharedFits(sh: Shared) { SequenceFits(sh.seqw) && ReadersFit(sh.readers) }

  ghost predicate StateFits(s: State) {
    SharedFits(s.sh) && forall t :: 0 <= t < |s.threads| ==> ThreadFits(s.threads[t])
  }

  function EncodeShared(sh: Shared): PackedShared
    requires SharedFits(sh)
  {
    PackedShared(SequenceWord(sh.seqw), ReadersWord(sh.readers), sh.mem, sh.lock, sh.wcv, sh.rcv, sh.pub, sh.released)
  }

  function EncodePC(pc: PC): PackedPC
    requires pc.U? && pc.seen.Some? ==> ReadersFit(pc.seen.value)
  {
    match pc
    case U(m, Some(seen)) => Swap(m, ReadersWord(seen))
    case _ => At(pc)
  }

  function EncodeThread(th: Thread): PackedThread
    requires ThreadFits(th)
  {
    var wr := th.wr;
    PackedThread(
      EncodePC(th.pc), th.rd,
      PackedWriteCall(wr.job, wr.at, wr.len, wr.curSeq, ReadersWord(wr.look), SequenceWord(wr.prev), wr.mark),
      th.ticket, th.stamp, th.hd)
  }

  ghost function Encode(s: State): (p: PackedState)
    requires StateFits(s)
    ensures |p.threads| == |s.threads|
  {
    PackedState(
      EncodeShared(s.sh), seq(|s.threads|, t requires 0 <= t < |s.threads| => EncodeThread(s.threads[t])))
  }

  lemma DecodeEncode(s: State)
    requires StateFits(s)
    ensures Decode(Encode(s)) == s
  {
    assert Decode(Encode(s)).threads == s.threads;
  }

  lemma WriterFits(sh: Shared, t: nat, th: Thread, sh': Shared, th': Thread)
    requires th.pc.W? && Moved(sh, t, th, sh', th') && SharedFits(sh) && ThreadFits(th)
    ensures SharedFits(sh') && ThreadFits(th')
  {
  }

  lemma OtherFits(sh: Shared, t: nat, th: Thread, sh': Shared, th': Thread)
    requires !th.pc.W? && Moved(sh, t, th, sh', th') && SharedFits(sh) && ThreadFits(th)
    ensures SharedFits(sh') && ThreadFits(th')
  {
    if th.pc.U? {
      MutateFits(th.pc.m, sh.readers);
    }
  }

  lemma AttemptEncodes(m: Mutator, r: ReadersState)
    requires ReadersFit(r)
    ensures EncodePC(Attempt(m, r)) == PackedAttempt(m, ReadersWord(r))
  {
    var policy := Mutate(m, r);
    if policy.Some? {
      MutatedWord(m, ReadersWord(r), policy);
    }
  }

  lemma UpdateEncodes(sh: Shared, t: nat, th: Thread, sh': Shared, th': Thread)
    requires th.pc.U? && Moved(sh, t, th, sh', th')
    requires SharedFits(sh) && ThreadFits(th) && SharedFits(sh') && ThreadFits(th')
    ensures PackedMoved(EncodeShared(sh), t, EncodeThread(th), EncodeShared(sh'), EncodeThread(th'))
  {
    AttemptEncodes(th.pc.m, sh.readers);
  }

  /** A word is determined by what it decodes to. */
  lemma SameSequence(w: Word, q: SequenceState)
    requires SequenceFits(q) && UnpackSequence(w) == q
    ensures w == SequenceWord(q)
  {
    PackUnpackSequence(w);
  }

  lemma FetchesEncode(q: SequenceState)
    requires SequenceFits(q)
    ensures SequenceWord(q.(stopped := true)) == BitOr(SequenceWord(q), STOPPED_MASK)
    ensures SequenceWord(q.(writing := true)) == BitOr(SequenceWord(q), WRITING_IN_PROGRESS_MASK)
    ensures SequenceWord(q.(writing := false)) == BitAnd(SequenceWord(q), U64_MOD - 1 - WRITING_IN_PROGRESS_MASK)
  {
    var w := SequenceWord(q);
    FetchOps(w);
    SameSequence(BitOr(w, STOPPED_MASK), q.(stopped := true));
    SameSequence(BitOr(w, WRITING_IN_PROGRESS_MASK), q.(writing := true));
    SameSequence(BitAnd(w, U64_MOD - 1 - WRITING_IN_PROGRESS_MASK), q.(writing := false));
  }

  lemma LookEncodes(sh: Shared, t: nat, th: Thread, sh': Shared, th': Thread)
    requires th.pc.W? && Loads(th.pc.w) && Moved(sh, t, th, sh', th')
    requires SharedFits(sh) && ThreadFits(th) && SharedFits(sh') && ThreadFits(th')
    ensures PackedMoved(EncodeShared(sh), t, EncodeThread(th), EncodeShared(sh'), EncodeThread(th'))
  {
  }

  lemma StoreEncodes(sh: Shared, t: nat, th: Thread, sh': Shared, th': Thread)
    requires th.pc.W? && Stores(th.pc.w) && Moved(sh, t, th, sh', th')
    requires SharedFits(sh) && ThreadFits(th) && SharedFits(sh') && ThreadFits(th')
    ensures PackedMoved(EncodeShared(sh), t, EncodeThread(th), EncodeShared(sh'), EncodeThread(th'))
  {
    FetchesEncode(sh.seqw);
    NextDecodes(SequenceWord(th.wr.prev));
  }

  lemma CallEncodes(sh: Shared, t: nat, th: Thread, sh': Shared, th': Thread)
    requires th.pc.Idle? && Moved(sh, t, th, sh', th')
    requires SharedFits(sh) && ThreadFits(th) && SharedFits(sh') && ThreadFits(th')
    ensures PackedMoved(EncodeShared(sh), t, EncodeThread(th), EncodeShared(sh'), EncodeThread(th'))
  {
    FetchesEncode(sh.seqw);
  }

  lemma SeeEncodes(sh: Shared, t: nat, th: Thread, sh': Shared, th': Thread)
    requires (th.pc == R(RState) || th.pc == R(RVerify)) && Moved(sh, t, th, sh', th')
    requires SharedFits(sh) && ThreadFits(th) && SharedFits(sh') && ThreadFits(th')
    ensures PackedMoved(EncodeShared(sh), t, EncodeThread(th), EncodeShared(sh'), EncodeThread(th'))
  {
  }

  /** Where neither word is touched. */
  predicate Quiet(pc: PC) {
    match pc
    case W(w) => !Loads(w) && !Stores(w)
    case R(r) => !r.RState? && !r.RVerify?
    case N(_, _) => true
    case _ => false
  }

  lemma QuietMoves(sh: Shared, t: nat, th: Thread, sh': Shared, th': Thread)
    requires Quiet(th.pc) && Moved(sh, t, th, sh', th')
    ensures sh'.seqw == sh.seqw && sh'.readers == sh.readers
    ensures th'.wr.look == th.wr.look && th'.wr.prev == th.wr.prev && !(th'.pc.U? && th'.pc.seen.Some?)
  {
  }

  lemma QuietEncodes(sh: Shared, t: nat, th: Thread, sh': Shared, th': Thread)
    requires Quiet(th.pc) && Moved(sh, t, th, sh', th')
    requires SharedFits(sh) && ThreadFits(th) && SharedFits(sh') && ThreadFits(th')
    ensures PackedMoved(EncodeShared(sh), t, EncodeThread(th), EncodeShared(sh'), EncodeThread(th'))
  {
    QuietMoves(sh, t, th, sh', th');
    assert DecodeShared(EncodeShared(sh)) == sh && DecodeShared(EncodeShared(sh')) == sh';
    assert DecodeThread(EncodeThread(th)) == th && DecodeThread(EncodeThread(th')) == th';
  }

  lemma StepEncodes(s: State, t: nat, s': State)
    requires StateFits(s) && Step(s, t, s')
    ensures StateFits(s') && PackedStep(Encode(s), t, Encode(s'))
  {
    var sh, th, sh', th' := s.sh, s.threads[t], s'.sh, s'.threads[t];
    if th.pc.W? {
      WriterFits(sh, t, th, sh', th');
    } else {
      OtherFits(sh, t, th, sh', th');
    }
    if Quiet(th.pc) {
      QuietEncodes(sh, t, th, sh', th');
    } else {
      match th.pc {
        case Idle => CallEncodes(sh, t, th, sh', th');
        case U(_, _) => UpdateEncodes(sh, t, th, sh', th');
        case R(_) => SeeEncodes(sh, t, th, sh', th');
        case W(w) =>
          if Loads(w) {
            LookEncodes(sh, t, th, sh', th');
          } else {
            StoreEncodes(sh, t, th, sh', th');
          }
      }
    }
    assert Encode(s').threads == Encode(s).threads[t := Encode(s').threads[t]];
  }

  lemma {:induction false} FitsAlways(run: seq<State>, tids: seq<nat>, i: nat)
    requires Run(run, tids) && StateFits(run[0]) && i < |run|
    ensures StateFits(run[i])
  {
    if i > 0 {
      FitsAlways(run, tids, i - 1);
      assert StepAt(run, tids, i - 1);
      StepEncodes(run[i - 1], tids[i - 1], run[i]);
    }
  }

  /** Every run over the records is the decoding of a run over the words, provided the locals that hold
      words start out with 64-bit values. */
  lemma RecordRunEncodes(run: seq<State>, tids: seq<nat>) returns (packed: seq<PackedState>)
    requires Run(run, tids) && StateFits(run[0])
    ensures PackedRun(packed, tids) && DecodeRun(packed) == run
  {
    forall i | 0 <= i < |run| ensures StateFits(run[i]) {
      FitsAlways(run, tids, i);
    }
    packed := seq(|run|, i requires 0 <= i < |run| => Encode(run[i]));
    InitEncodes(run[0]);
    forall i | 0 <= i < |tids| ensures PackedStepAt(packed, tids, i) {
      assert StepAt(run, tids, i);
      StepEncodes(run[i], tids[i], run[i + 1]);
    }
    forall i | 0 <= i < |run| ensures DecodeRun(packed)[i] == run[i] {
      DecodeEncode(run[i]);
    }
  }

  lemma InitEncodes(s: State)
    requires Init(s) && StateFits(s)
    ensures PackedInit(Encode(s))
  {
    PackParts(s.sh.seqw);
    PackReadersIs(s.sh.readers);
  }
}
