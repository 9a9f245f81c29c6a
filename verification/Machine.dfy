/** The broadcast protocol of `SharedMessage` as an interleaving step machine.

    A state is the shared memory plus one record per thread. A step is one atomic action of one thread:
    a load, a compare-and-swap, a fetch-or, a fetch-and, a store, one copied byte, a mutex acquire or
    release, a futex park or wake. Any thread may move at any time, so a run is any interleaving.

    A thread stands for one outstanding call or guard. A program thread that holds several guards at once,
    or hands a guard to another thread, is several threads here. */
module Machine {
  import opened Words

  type Byte = b: int | 0 <= b < 256

  // ---------- shared memory ----------

  /** A ticket condition variable: the futex word, and how many wake-alls were issued on it. */
  datatype Condvar = Condvar(ticket: nat, wakes: nat)

  /** The payload buffer and `data_size`. The flags are history: `dirty` says the buffer or the size was
      touched since the last publish, `tainted` that an abort lowered the writing flag over a touched
      buffer, `abandoned` that some granted write guard was dropped unpublished. */
  datatype Memory = Memory(size: nat, buffer: seq<Byte>, dirty: bool, tainted: bool, abandoned: bool)

  /** `pub` (every published payload, oldest first) and `released` (guards of the current message released
      so far) are history. */
  datatype Shared = Shared(
    seqw: SequenceState,
    readers: ReadersState,
    mem: Memory,
    lock: Option<nat>,
    wcv: Condvar, // writer_condvar: readers wait here
    rcv: Condvar, // reader_done_condvar: writers wait here
    pub: seq<seq<Byte>>,
    released: nat)

  /** The bytes `data()` delivers. */
  function Data(mem: Memory): seq<Byte> {
    if mem.size <= |mem.buffer| then mem.buffer[..mem.size] else mem.buffer
  }

  // ---------- threads ----------

  /** Where a thread is inside `start_write`, the granted section, `publish_write` or
      `set_target_read_count`: the name says which shared access comes next. */
  datatype WriterPC =
    // take the mutex, look at the counters, wait for consumption
    | Lock | Sequence | Readers | Ticket | BpStop | BpWait | BpSleep | BpTicket | BpReaders
    // raise the flag, drain the active readers
    | Raise | DrTicket | DrLoad | DrStop | DrLower | DrWait | DrSleep
    // the granted section and publish_write
    | Granted | Size | PubLoad | PubCas
    | Unlock
    | TargetLock(count: U16)

  datatype ReaderPC = RTicket | RState | RWait | RSleep | RVerify | RGuard

  /** Why a thread is in `notify_all`. */
  datatype Signal = Kick | NewData | Unregistered | Released | StopReaders | StopWriters

  /** `U(m, seen)` is `update_reader_state` for closure `m`, about to load, or about to swap against the
      value `seen`; `N(sig, added)` is `notify_all`, about to add to the ticket, or about to wake. */
  datatype PC =
    | Idle
    | W(w: WriterPC)
    | U(m: Mutator, seen: Option<ReadersState>)
    | R(r: ReaderPC)
    | N(sig: Signal, added: bool)

  /** Locals of `read` and of the guard it returns. */
  datatype ReadCall = ReadCall(ls: nat, block: bool, seen: nat, view: Option<nat>, acc: seq<Byte>)

  /** What `start_write` was called for: `write_slice` copies fixed data, `write` hands out a guard. */
  datatype Job = Slice(data: seq<Byte>) | Guard

  /** Locals of the write path: `look` is its `reader_state`, `prev` its `old_packed`. As history, `mark`
      is the value of `data_consumed` when the later of the look and the ticket of the wait loop was taken:
      the ticket on the first pass, the look on every later one. */
  datatype WriteCall = WriteCall(
    job: Job, at: nat, len: nat, curSeq: nat, look: ReadersState, prev: SequenceState, mark: nat)

  /** A message as some reader copied it out: its place in the publish history and its bytes. */
  datatype Receipt = Receipt(index: nat, bytes: seq<Byte>)

  /** What outlives a call: the handle's `last_read_sequence`, and as history the index of the message of
      the last guard obtained and the messages copied out completely. */
  datatype Handle = Handle(lastSeen: nat, lastIdx: nat, got: seq<Receipt>)

  datatype Thread = Thread(pc: PC, rd: ReadCall, wr: WriteCall, ticket: nat, stamp: nat, hd: Handle)

  datatype State = State(sh: Shared, threads: seq<Thread>)

  // ---------- update_reader_state ----------

  function AfterUpdate(m: Mutator, r: ReadersState): PC {
    match m
    case Register => R(RVerify)
    case Unregister => N(Unregistered, false)
    case Release => if r.active == 0 then N(Released, false) else Idle
    case Reset => W(PubLoad)
    case SetTarget(_) => W(Unlock)
    case AddReader => Idle
    case RemoveReader => Idle
  }

  /** One turn of the loop up to its compare-and-swap: a panic leaves the call, a closure that changes
      nothing is done, anything else will be tried against the value just seen. */
  function Attempt(m: Mutator, cur: ReadersState): PC {
    match Mutate(m, cur)
    case None => Idle
    case Some(r) => if r == cur then AfterUpdate(m, r) else U(m, Some(cur))
  }

  ghost predicate UpdateMoved(
    sh: Shared, th: Thread, m: Mutator, seen: Option<ReadersState>, sh': Shared, th': Thread)
  {
    || (sh' == sh && th' == th.(pc := Attempt(m, sh.readers))) // the load, or a failed swap
    || (&& seen == Some(sh.readers)
        && var r := Mutate(m, sh.readers);
        && r.Some?
        && sh' == sh.(readers := r.value, released := if m == Release then sh.released + 1 else sh.released)
        && th' == th.(pc := AfterUpdate(m, r.value)))
  }

  // ---------- condvar.rs ----------

  predicate ToReaders(sig: Signal) { sig == Kick || sig == NewData || sig == StopReaders }

  function AfterNotify(sig: Signal): PC {
    match sig
    case Kick => W(BpWait)
    case NewData => W(Unlock)
    case Unregistered => R(RTicket)
    case Released => Idle
    case StopReaders => N(StopWriters, false)
    case StopWriters => Idle
  }

  function Bump(cv: Condvar, added: bool): Condvar {
    if added then cv.(wakes := cv.wakes + 1) else cv.(ticket := cv.ticket + 1)
  }

  ghost predicate NotifyMoved(sh: Shared, th: Thread, sig: Signal, added: bool, sh': Shared, th': Thread) {
    && th' == th.(pc := if added then AfterNotify(sig) else N(sig, true))
    && sh' == if ToReaders(sig) then sh.(wcv := Bump(sh.wcv, added)) else sh.(rcv := Bump(sh.rcv, added))
  }

  /** `wait`: leave on a changed ticket, or park on an unchanged one. Parking notes how many wake-alls were
      issued so far; the thread sleeps until that number grows, and may also wake spuriously. */
  ghost predicate Waited(cv: Condvar, th: Thread, again: PC, asleep: PC, th': Thread) {
    if th.ticket != cv.ticket then th' == th.(pc := again) else th' == th.(pc := asleep, stamp := cv.wakes)
  }

  // ---------- start_write, publish_write, set_target_read_count ----------

  function AfterLook(look: ReadersState): PC {
    if look.consumed < TargetConsumed(look) then W(BpStop) else W(Raise)
  }

  /** The part of the write path before the flag goes up. */
  ghost predicate EnterMoved(sh: Shared, t: nat, th: Thread, sh': Shared, th': Thread)
    requires th.pc.W?
  {
    match th.pc.w
    case Lock => sh.lock == None && sh' == sh.(lock := Some(t)) && th' == th.(pc := W(Sequence))
    case TargetLock(count) =>
      sh.lock == None && sh' == sh.(lock := Some(t)) && th' == th.(pc := U(SetTarget(count), None))
    case Sequence => sh' == sh && th' == th.(pc := W(Readers), wr := th.wr.(curSeq := sh.seqw.sequence))
    case Readers =>
      && sh' == sh
      && th' == th.(pc := if TargetConsumed(sh.readers) > 0 && th.wr.curSeq > 0 then W(Ticket) else W(Raise),
                    wr := th.wr.(look := sh.readers))
    case Ticket => sh' == sh && th' == th.(pc := AfterLook(th.wr.look), ticket := sh.rcv.ticket,
                                            wr := th.wr.(mark := sh.readers.consumed))
    case BpStop => sh' == sh && th' == th.(pc := if sh.seqw.stopped then W(Unlock) else N(Kick, false))
    case BpWait => sh' == sh && Waited(sh.rcv, th, W(BpTicket), W(BpSleep), th')
    case BpSleep => sh' == sh && th' == th.(pc := W(BpTicket))
    case BpTicket => sh' == sh && th' == th.(pc := W(BpReaders), ticket := sh.rcv.ticket)
    case BpReaders => sh' == sh && th' == th.(pc := AfterLook(sh.readers),
                                                wr := th.wr.(look := sh.readers, mark := sh.readers.consumed))
    case Unlock => sh' == sh.(lock := None) && th' == th.(pc := Idle)
    case _ => false
  }

  /** Raising the flag and draining the active readers. */
  ghost predicate DrainMoved(sh: Shared, th: Thread, sh': Shared, th': Thread)
    requires th.pc.W?
  {
    match th.pc.w
    case Raise => sh' == sh.(seqw := sh.seqw.(writing := true)) && th' == th.(pc := W(DrTicket))
    case DrTicket => sh' == sh && th' == th.(pc := W(DrLoad), ticket := sh.rcv.ticket)
    case DrLoad =>
      && sh' == sh
      && th' == if sh.readers.active > 0 then th.(pc := W(DrStop)) else th.(pc := W(Granted), wr := th.wr.(at := 0))
    case DrStop => sh' == sh && th' == th.(pc := if sh.seqw.stopped then W(DrLower) else W(DrWait))
    case DrLower =>
      && sh' == sh.(seqw := sh.seqw.(writing := false),
                    mem := sh.mem.(tainted := sh.mem.tainted || sh.mem.dirty))
      && th' == th.(pc := W(Unlock))
    case DrWait => sh' == sh && Waited(sh.rcv, th, W(DrTicket), W(DrSleep), th')
    case DrSleep => sh' == sh && th' == th.(pc := W(DrTicket))
    case _ => false
  }

  /** Storing `byte` at `at`. */
  ghost predicate Poked(sh: Shared, at: nat, byte: Byte, sh': Shared) {
    at < |sh.mem.buffer| && sh' == sh.(mem := sh.mem.(buffer := sh.mem.buffer[at := byte], dirty := true))
  }

  /** `publish` of a write guard with the given size: one beyond the capacity drops the guard instead. */
  ghost predicate PublishCalled(sh: Shared, th: Thread, size: nat, sh': Shared, th': Thread) {
    var wr := th.wr.(len := size);
    if size <= |sh.mem.buffer| then sh' == sh && th' == th.(pc := W(Size), wr := wr)
    else sh' == sh.(mem := sh.mem.(abandoned := true)) && th' == th.(pc := W(Unlock), wr := wr)
  }

  /** The granted section: `write_slice` copies its data byte by byte and then publishes its length; a
      guard stores any byte anywhere and then publishes any size. A guard may also be dropped, and
      `write_slice` panics on data that does not fit: both release the mutex with the flag still up. */
  ghost predicate GrantedMoved(sh: Shared, th: Thread, sh': Shared, th': Thread) {
    var cap := |sh.mem.buffer|;
    if th.wr.job.Slice? then
      var data := th.wr.job.data;
      if |data| > cap then sh' == sh.(mem := sh.mem.(abandoned := true)) && th' == th.(pc := W(Unlock))
      else if th.wr.at < |data| then
        Poked(sh, th.wr.at, data[th.wr.at], sh') && th' == th.(wr := th.wr.(at := th.wr.at + 1))
      else sh' == sh && th' == th.(pc := W(Size), wr := th.wr.(len := |data|))
    else
      var at := th'.wr.at;
      || (&& at < cap == |sh'.mem.buffer| && Poked(sh, at, sh'.mem.buffer[at], sh')
          && th' == th.(wr := th.wr.(at := at)))
      || PublishCalled(sh, th, th'.wr.len, sh', th')
      || (sh' == sh.(mem := sh.mem.(abandoned := true)) && th' == th.(pc := W(Unlock)))
  }

  ghost predicate PublishMoved(sh: Shared, th: Thread, sh': Shared, th': Thread)
    requires th.pc.W?
  {
    match th.pc.w
    case Granted => GrantedMoved(sh, th, sh', th')
    case Size => sh' == sh.(mem := sh.mem.(size := th.wr.len, dirty := true)) && th' == th.(pc := U(Reset, None))
    case PubLoad => sh' == sh && th' == th.(pc := W(PubCas), wr := th.wr.(prev := sh.seqw))
    case PubCas =>
      || (sh' == sh && th' == th.(wr := th.wr.(prev := sh.seqw))) // a failed swap
      || (&& sh.seqw == th.wr.prev
          && sh' == sh.(seqw := Published(th.wr.prev), pub := sh.pub + [Data(sh.mem)], released := 0,
                        mem := sh.mem.(dirty := false, tainted := false))
          && th' == th.(pc := N(NewData, false)))
    case _ => false
  }

  ghost predicate GrantMoved(sh: Shared, th: Thread, sh': Shared, th': Thread)
    requires th.pc.W?
  {
    DrainMoved(sh, th, sh', th') || PublishMoved(sh, th, sh', th')
  }

  // ---------- read ----------

  function AfterState(q: SequenceState, rd: ReadCall): PC {
    if q.sequence == rd.ls && (q.stopped || !rd.block) then Idle
    else if q.sequence == rd.ls || q.writing then R(RWait)
    else U(Register, None)
  }

  /** A guard loads the size and then bytes one at a time; dropping it files a complete copy. */
  ghost predicate GuardMoved(sh: Shared, th: Thread, sh': Shared, th': Thread) {
    var view, acc := th.rd.view, th.rd.acc;
    && sh' == sh
    && (|| th' == th.(rd := th.rd.(view := Some(sh.mem.size), acc := []))
        || (&& view.Some? && |acc| < view.value && |acc| < |sh.mem.buffer|
            && th' == th.(rd := th.rd.(acc := acc + [sh.mem.buffer[|acc|]])))
        || th' == th.(pc := U(Release, None),
                      hd := if view == Some(|acc|) then th.hd.(got := th.hd.got + [Receipt(th.hd.lastIdx, acc)])
                            else th.hd))
  }

  ghost predicate ReadMoved(sh: Shared, th: Thread, sh': Shared, th': Thread)
    requires th.pc.R?
  {
    match th.pc.r
    case RTicket => sh' == sh && th' == th.(pc := R(RState), ticket := sh.wcv.ticket)
    case RState =>
      sh' == sh && th' == th.(pc := AfterState(sh.seqw, th.rd), rd := th.rd.(seen := sh.seqw.sequence))
    case RWait => sh' == sh && Waited(sh.wcv, th, R(RTicket), R(RSleep), th')
    case RSleep => sh' == sh && th' == th.(pc := R(RTicket))
    case RVerify =>
      && sh' == sh
      && th' == if sh.seqw.writing || sh.seqw.sequence != th.rd.seen then th.(pc := U(Unregister, None))
                else th.(pc := R(RGuard), rd := th.rd.(view := None, acc := []),
                         hd := th.hd.(lastSeen := th.rd.seen, lastIdx := |sh.pub|))
    case RGuard => GuardMoved(sh, th, sh', th')
  }

  // ---------- calls ----------

  ghost predicate WriteCalled(sh: Shared, th: Thread, sh': Shared, th': Thread) {
    && sh' == sh
    && th' == th.(pc := if sh.seqw.stopped then Idle else W(Lock), wr := th.wr.(job := th'.wr.job))
  }

  ghost predicate ReadCalled(sh: Shared, th: Thread, sh': Shared, th': Thread) {
    sh' == sh && th' == th.(pc := R(RTicket), rd := th.rd.(ls := th'.rd.ls, block := th'.rd.block))
  }

  ghost predicate CallMoved(sh: Shared, th: Thread, sh': Shared, th': Thread) {
    || WriteCalled(sh, th, sh', th')
    || ReadCalled(sh, th, sh', th')
    || (sh' == sh.(seqw := sh.seqw.(stopped := true)) && th' == th.(pc := N(StopReaders, false))) // stop
    || (sh' == sh && th' == th.(pc := th'.pc) && th'.pc.W? && th'.pc.w.TargetLock?)
    || (sh' == sh && th' == th.(pc := U(AddReader, None)))
    || (sh' == sh && th' == th.(pc := U(RemoveReader, None)))
  }

  // ---------- steps and runs ----------

  /** One atomic action of thread `t`: its record goes from `th` to `th'`, shared memory from `sh` to `sh'`. */
  ghost predicate Moved(sh: Shared, t: nat, th: Thread, sh': Shared, th': Thread) {
    match th.pc
    case Idle => CallMoved(sh, th, sh', th')
    case W(_) => EnterMoved(sh, t, th, sh', th') || GrantMoved(sh, th, sh', th')
    case U(m, seen) => UpdateMoved(sh, th, m, seen, sh', th')
    case R(_) => ReadMoved(sh, th, sh', th')
    case N(sig, added) => NotifyMoved(sh, th, sig, added, sh', th')
  }

  ghost predicate Step(s: State, t: nat, s': State) {
    && t < |s.threads| == |s'.threads|
    && Moved(s.sh, t, s.threads[t], s'.sh, s'.threads[t])
    && s'.threads == s.threads[t := s'.threads[t]]
  }

  ghost predicate InitThread(th: Thread) {
    th.pc == Idle && th.hd == Handle(0, 0, [])
  }

  /** Zeroed shared memory, every thread idle. At most 65535 threads, so that `active_readers`, a `u16`
      not tied to the number of consumers, can count them. */
  ghost predicate Init(s: State) {
    && s.sh.seqw == SequenceState(0, false, false)
    && s.sh.readers == ReadersState(0, 0, 0, 0)
    && s.sh.mem == Memory(0, s.sh.mem.buffer, false, false, false)
    && s.sh.lock == None
    && s.sh.wcv == s.sh.rcv == Condvar(0, 0)
    && s.sh.pub == [] && s.sh.released == 0
    && |s.threads| < U16_MOD
    && forall t :: 0 <= t < |s.threads| ==> InitThread(s.threads[t])
  }

  /** State `i` of the run leads to the next one by a step of thread `tids[i]`. */
  ghost predicate StepAt(run: seq<State>, tids: seq<nat>, i: nat)
    requires |run| == |tids| + 1 && i < |tids|
  {
    Step(run[i], tids[i], run[i + 1])
  }

  /** A run: states joined by steps of the threads `tids`, from an initial state. Steps keep the number of
      threads, so the third and fourth clause exclude nothing. */
  ghost predicate Run(run: seq<State>, tids: seq<nat>) {
    && |run| == |tids| + 1
    && Init(run[0])
    && (forall i :: 0 <= i < |run| ==> |run[i].threads| == |run[0].threads|)
    && (forall i :: 0 <= i < |tids| ==> tids[i] < |run[0].threads|)
    && forall i :: 0 <= i < |tids| ==> StepAt(run, tids, i)
  }

  /** A run goes on with any step from its last state. */
  lemma LongerRun(run: seq<State>, tids: seq<nat>, t: nat, s: State)
    requires Run(run, tids) && Step(run[|tids|], t, s)
    ensures Run(run + [s], tids + [t])
  {
    var run', tids' := run + [s], tids + [t];
    forall i | 0 <= i < |tids'| ensures StepAt(run', tids', i) {
      if i < |tids| {
        assert StepAt(run, tids, i);
      }
    }
  }
}
