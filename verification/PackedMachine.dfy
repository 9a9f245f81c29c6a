/** The protocol as the source runs it, over the two 64-bit words.

    Loads give words, which are decoded; the flags go up and down by fetch-or and fetch-and; a swap succeeds
    only if the word it finds is the word it expects. Steps that touch neither word are those of `Machine`. */
module PackedMachine {
  import opened Words
  import opened Bits
  import opened Packed
  import opened Machine

  /** Shared memory with the words `sequence_and_flags` and `readers_state` as they are stored. */
  datatype PackedShared = PackedShared(
    sequence: Word,
    readers: Word,
    mem: Memory,
    lock: Option<nat>,
    wcv: Condvar,
    rcv: Condvar,
    pub: seq<seq<Byte>>,
    released: nat)

  /** `Swap(m, packed)` is `update_reader_state` about to swap against the word `packed`; every other place
      is named as in `Machine`. */
  datatype PackedPC = At(pc: PC) | Swap(m: Mutator, packed: Word)

  /** Locals of the write path: `look` is its `reader_state`, `prev` its `old_packed`, as loaded. */
  datatype PackedWriteCall = PackedWriteCall(
    job: Job, at: nat, len: nat, curSeq: nat, look: Word, prev: Word, mark: nat)

  datatype PackedThread = PackedThread(
    pc: PackedPC, rd: ReadCall, wr: PackedWriteCall, ticket: nat, stamp: nat, hd: Handle)

  datatype PackedState = PackedState(sh: PackedShared, threads: seq<PackedThread>)

  // ---------- decoding ----------

  function DecodeShared(p: PackedShared): Shared {
    Shared(UnpackSequence(p.sequence), UnpackReaders(p.readers), p.mem, p.lock, p.wcv, p.rcv, p.pub, p.released)
  }

  function DecodePC(pc: PackedPC): PC {
    match pc
    case At(pc) => pc
    case Swap(m, packed) => U(m, Some(UnpackReaders(packed)))
  }

  function DecodeCall(wr: PackedWriteCall): WriteCall {
    WriteCall(wr.job, wr.at, wr.len, wr.curSeq, UnpackReaders(wr.look), UnpackSequence(wr.prev), wr.mark)
  }

  function DecodeThread(th: PackedThread): Thread {
    Thread(DecodePC(th.pc), th.rd, DecodeCall(th.wr), th.ticket, th.stamp, th.hd)
  }

  function Decode(s: PackedState): (d: State)
    ensures |d.threads| == |s.threads|
  {
    State(DecodeShared(s.sh), seq(|s.threads|, t requires 0 <= t < |s.threads| => DecodeThread(s.threads[t])))
  }

  // ---------- the swap loops ----------

  /** One turn of the loop of `update_reader_state` up to its swap. */
  function PackedAttempt(m: Mutator, packed: Word): PackedPC {
    match Mutate(m, UnpackReaders(packed))
    case None => At(Idle)
    case Some(policy) => if packed == PackReaders(policy) then At(AfterUpdate(m, policy)) else Swap(m, packed)
  }

  /** The weak swap of `update_reader_state`. On failure the loop turns with the word it found. */
  ghost predicate SwapMoved(
    sh: PackedShared, th: PackedThread, m: Mutator, packed: Word, sh': PackedShared, th': PackedThread)
  {
    || (sh' == sh && th' == th.(pc := PackedAttempt(m, sh.readers)))
    || (&& sh.readers == packed
        && var policy := Mutate(m, UnpackReaders(packed));
        && policy.Some?
        && sh'.readers == PackReaders(policy.value)
        && sh' == sh.(readers := sh'.readers, released := if m == Release then sh.released + 1 else sh.released)
        && th' == th.(pc := At(AfterUpdate(m, policy.value))))
  }

  /** The word `publish_write` swaps in for `prev`. */
  function NextPacked(prev: Word): nat {
    var state := UnpackSequence(prev);
    var next := BitAnd(state.sequence + 1, SEQUENCE_MASK);
    PackSequence(SequenceState(if next == 0 then 1 else next, state.stopped, false))
  }

  ghost predicate PublishSwapped(sh: PackedShared, th: PackedThread, sh': PackedShared, th': PackedThread) {
    || (sh' == sh && th' == th.(wr := th.wr.(prev := sh.sequence)))
    || (&& sh.sequence == th.wr.prev
        && sh'.sequence == NextPacked(th.wr.prev)
        && sh' == sh.(sequence := sh'.sequence, pub := sh.pub + [Data(sh.mem)], released := 0,
                      mem := sh.mem.(dirty := false, tainted := false))
        && th' == th.(pc := At(N(NewData, false))))
  }

  // ---------- the other accesses to the words ----------

  ghost predicate PackedCalled(sh: PackedShared, th: PackedThread, sh': PackedShared, th': PackedThread) {
    || (&& sh' == sh
        && th' == th.(pc := At(if UnpackSequence(sh.sequence).stopped then Idle else W(Lock)),
                      wr := th.wr.(job := th'.wr.job)))
    || (sh' == sh && th' == th.(pc := At(R(RTicket)), rd := th.rd.(ls := th'.rd.ls, block := th'.rd.block)))
    || (&& sh'.sequence == BitOr(sh.sequence, STOPPED_MASK)
        && sh' == sh.(sequence := sh'.sequence)
        && th' == th.(pc := At(N(StopReaders, false))))
    || (&& sh' == sh && th' == th.(pc := th'.pc)
        && th'.pc.At? && th'.pc.pc.W? && th'.pc.pc.w.TargetLock?)
    || (sh' == sh && th' == th.(pc := At(U(AddReader, None))))
    || (sh' == sh && th' == th.(pc := At(U(RemoveReader, None))))
  }

  /** The loads of `start_write`. */
  ghost predicate LookMoved(sh: PackedShared, w: WriterPC, th: PackedThread, sh': PackedShared, th': PackedThread) {
    var q, r := UnpackSequence(sh.sequence), UnpackReaders(sh.readers);
    && sh' == sh
    && match w
       case Sequence => th' == th.(pc := At(W(Readers)), wr := th.wr.(curSeq := q.sequence))
       case Readers =>
         th' == th.(pc := At(if TargetConsumed(r) > 0 && th.wr.curSeq > 0 then W(Ticket) else W(Raise)),
                    wr := th.wr.(look := sh.readers))
       case BpStop => th' == th.(pc := At(if q.stopped then W(Unlock) else N(Kick, false)))
       case BpReaders => th' == th.(pc := At(AfterLook(r)), wr := th.wr.(look := sh.readers, mark := r.consumed))
       case DrLoad =>
         th' == if r.active > 0 then th.(pc := At(W(DrStop))) else th.(pc := At(W(Granted)), wr := th.wr.(at := 0))
       case DrStop => th' == th.(pc := At(if q.stopped then W(DrLower) else W(DrWait)))
       case _ => false
  }

  /** The fetches of `start_write`, and `publish_write`. */
  ghost predicate StoreMoved(sh: PackedShared, w: WriterPC, th: PackedThread, sh': PackedShared, th': PackedThread) {
    match w
    case Raise =>
      && sh'.sequence == BitOr(sh.sequence, WRITING_IN_PROGRESS_MASK)
      && sh' == sh.(sequence := sh'.sequence)
      && th' == th.(pc := At(W(DrTicket)))
    case DrLower =>
      && sh'.sequence == BitAnd(sh.sequence, U64_MOD - 1 - WRITING_IN_PROGRESS_MASK)
      && sh' == sh.(sequence := sh'.sequence, mem := sh.mem.(tainted := sh.mem.tainted || sh.mem.dirty))
      && th' == th.(pc := At(W(Unlock)))
    case PubLoad => sh' == sh && th' == th.(pc := At(W(PubCas)), wr := th.wr.(prev := sh.sequence))
    case PubCas => PublishSwapped(sh, th, sh', th')
    case _ => false
  }

  /** The two loads of `read`. */
  ghost predicate SeeMoved(sh: PackedShared, r: ReaderPC, th: PackedThread, sh': PackedShared, th': PackedThread) {
    var q := UnpackSequence(sh.sequence);
    && sh' == sh
    && match r
       case RState => th' == th.(pc := At(AfterState(q, th.rd)), rd := th.rd.(seen := q.sequence))
       case RVerify =>
         th' == if q.writing || q.sequence != th.rd.seen then th.(pc := At(U(Unregister, None)))
                else th.(pc := At(R(RGuard)), rd := th.rd.(view := None, acc := []),
                         hd := th.hd.(lastSeen := th.rd.seen, lastIdx := |sh.pub|))
       case _ => false
  }

  // ---------- steps and runs ----------

  predicate Loads(w: WriterPC) {
    w.Sequence? || w.Readers? || w.BpStop? || w.BpReaders? || w.DrLoad? || w.DrStop?
  }

  predicate Stores(w: WriterPC) { w.Raise? || w.DrLower? || w.PubLoad? || w.PubCas? }

  /** A step that touches neither word. */
  ghost predicate Elsewhere(sh: PackedShared, t: nat, th: PackedThread, sh': PackedShared, th': PackedThread) {
    && sh'.sequence == sh.sequence && sh'.readers == sh.readers
    && th'.wr.look == th.wr.look && th'.wr.prev == th.wr.prev && th'.pc.At?
    && Moved(DecodeShared(sh), t, DecodeThread(th), DecodeShared(sh'), DecodeThread(th'))
  }

  ghost predicate PackedMoved(sh: PackedShared, t: nat, th: PackedThread, sh': PackedShared, th': PackedThread) {
    match th.pc
    case Swap(m, packed) => SwapMoved(sh, th, m, packed, sh', th')
    case At(Idle) => PackedCalled(sh, th, sh', th')
    case At(U(m, seen)) => seen == None && sh' == sh && th' == th.(pc := PackedAttempt(m, sh.readers))
    case At(W(w)) =>
      if Loads(w) then LookMoved(sh, w, th, sh', th')
      else if Stores(w) then StoreMoved(sh, w, th, sh', th')
      else Elsewhere(sh, t, th, sh', th')
    case At(R(r)) =>
      if r.RState? || r.RVerify? then SeeMoved(sh, r, th, sh', th') else Elsewhere(sh, t, th, sh', th')
    case At(N(_, _)) => Elsewhere(sh, t, th, sh', th')
  }

  ghost predicate PackedStep(s: PackedState, t: nat, s': PackedState) {
    && t < |s.threads| == |s'.threads|
    && PackedMoved(s.sh, t, s.threads[t], s'.sh, s'.threads[t])
    && s'.threads == s.threads[t := s'.threads[t]]
  }

  /** Zeroed words and memory, every thread idle. */
  ghost predicate PackedInit(s: PackedState) {
    && s.sh == PackedShared(0, 0, Memory(0, s.sh.mem.buffer, false, false, false), None,
                            Condvar(0, 0), Condvar(0, 0), [], 0)
    && |s.threads| < U16_MOD
    && forall t :: 0 <= t < |s.threads| ==> s.threads[t].pc == At(Idle) && s.threads[t].hd == Handle(0, 0, [])
  }

  ghost predicate PackedStepAt(run: seq<PackedState>, tids: seq<nat>, i: nat)
    requires |run| == |tids| + 1 && i < |tids|
  {
    PackedStep(run[i], tids[i], run[i + 1])
  }

  ghost predicate PackedRun(run: seq<PackedState>, tids: seq<nat>) {
    && |run| == |tids| + 1
    && PackedInit(run[0])
    && (forall i :: 0 <= i < |run| ==> |run[i].threads| == |run[0].threads|)
    && (forall i :: 0 <= i < |tids| ==> tids[i] < |run[0].threads|)
    && forall i :: 0 <= i < |tids| ==> PackedStepAt(run, tids, i)
  }
}
