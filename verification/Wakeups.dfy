/** No lost wake-ups: whoever makes a sleeper's condition true still owes the wake-all that ends the sleep. */
module Wakeups {
  import opened Words
  import opened Machine
  import opened Exclusion
  import opened History

  /** Who still owes reader_done_condvar an addition to its ticket, or at least a wake-all. */
  predicate OwesAddR(th: Thread) {
    th.pc.N? && (th.pc.sig == StopReaders || (!ToReaders(th.pc.sig) && !th.pc.added))
  }

  predicate OwesWakeR(th: Thread) {
    th.pc.N? && (th.pc.sig == StopReaders || !ToReaders(th.pc.sig))
  }

  /** The same for writer_condvar. */
  predicate OwesAddW(th: Thread) { th.pc.N? && ToReaders(th.pc.sig) && !th.pc.added }

  predicate OwesWakeW(th: Thread) { th.pc.N? && ToReaders(th.pc.sig) }

  ghost predicate Owed(s: State, p: Thread -> bool) {
    exists o :: 0 <= o < |s.threads| && p(s.threads[o])
  }

  /** Waiting for the active readers to leave, having seen some. */
  predicate Draining(th: Thread) { th.pc.W? && (th.pc.w.DrStop? || th.pc.w.DrWait? || th.pc.w.DrSleep?) }

  /** Waiting for consumption, having looked at the counters. */
  predicate Looking(th: Thread) {
    || (th.pc.W? && (th.pc.w.BpStop? || th.pc.w.BpWait? || th.pc.w.BpSleep?))
    || (th.pc.N? && th.pc.sig == Kick)
  }

  /** A writer in a wait loop that has passed the loop's stop check. */
  predicate Committed(th: Thread) {
    (Draining(th) && !th.pc.w.DrStop?) || (Looking(th) && th.pc != W(BpStop))
  }

  predicate WriterAsleep(th: Thread) { th.pc == W(DrSleep) || th.pc == W(BpSleep) }

  predicate ReaderWaiting(th: Thread) { th.pc == R(RWait) || th.pc == R(RSleep) }

  /** What a writer waits for has happened. */
  predicate WriterCalled(sh: Shared, th: Thread) {
    || (Draining(th) && sh.readers.active == 0)
    || (Committed(th) && sh.seqw.stopped)
    || (Looking(th) && sh.readers.consumed != th.wr.mark && sh.readers.active == 0)
  }

  /** A notified event a reader waits for has happened: a message other than the one it saw when it went to
      wait, or stop while there was nothing new. */
  predicate ReaderCalled(sh: Shared, th: Thread) {
    ReaderWaiting(th) && (th.rd.seen != sh.seqw.sequence || (th.rd.seen == th.rd.ls && sh.seqw.stopped))
  }

  predicate WriterTicket(th: Thread) {
    Draining(th) || Looking(th) || th.pc == W(DrLoad) || th.pc == W(BpReaders)
  }

  predicate WriterWake(sh: Shared, th: Thread, add: bool, wake: bool) {
    && (WriterTicket(th) ==> th.ticket <= sh.rcv.ticket)
    && (WriterCalled(sh, th) ==> th.ticket < sh.rcv.ticket || add)
    && (WriterAsleep(th) ==> th.stamp <= sh.rcv.wakes)
    && (WriterAsleep(th) && th.ticket < sh.rcv.ticket ==> th.stamp < sh.rcv.wakes || wake)
  }

  predicate ReaderWake(sh: Shared, th: Thread, add: bool, wake: bool) {
    && (ReaderWaiting(th) || th.pc == R(RState) ==> th.ticket <= sh.wcv.ticket)
    && (ReaderCalled(sh, th) ==> th.ticket < sh.wcv.ticket || add)
    && (th.pc == R(RSleep) ==> th.stamp <= sh.wcv.wakes)
    && (th.pc == R(RSleep) && th.ticket < sh.wcv.ticket ==> th.stamp < sh.wcv.wakes || wake)
  }

  ghost predicate WakeInv(s: State) {
    && (forall t :: 0 <= t < |s.threads| ==> WriterWake(s.sh, s.threads[t], Owed(s, OwesAddR), Owed(s, OwesWakeR)))
    && (forall t :: 0 <= t < |s.threads| ==> ReaderWake(s.sh, s.threads[t], Owed(s, OwesAddW), Owed(s, OwesWakeW)))
  }

  /** What one action does to what the other threads wait for. */
  ghost predicate WakeEffect(sh: Shared, th: Thread, sh': Shared, th': Thread) {
    && sh.rcv.ticket <= sh'.rcv.ticket && sh.rcv.wakes <= sh'.rcv.wakes
    && (OwesAddR(th) && !OwesAddR(th') ==> sh.rcv.ticket < sh'.rcv.ticket)
    && (OwesWakeR(th) && !OwesWakeR(th') ==> sh.rcv.wakes < sh'.rcv.wakes)
    && (sh.rcv.ticket < sh'.rcv.ticket ==> OwesWakeR(th'))
    && (sh'.readers.active == 0 < sh.readers.active ==> OwesAddR(th'))
    && (sh'.readers.consumed != sh.readers.consumed && sh'.readers.active == 0 ==> OwesAddR(th') || HasGrant(th))
    && sh.wcv.ticket <= sh'.wcv.ticket && sh.wcv.wakes <= sh'.wcv.wakes
    && (OwesAddW(th) && !OwesAddW(th') ==> sh.wcv.ticket < sh'.wcv.ticket)
    && (OwesWakeW(th) && !OwesWakeW(th') ==> sh.wcv.wakes < sh'.wcv.wakes)
    && (sh.wcv.ticket < sh'.wcv.ticket ==> OwesWakeW(th'))
    && (sh'.seqw.sequence != sh.seqw.sequence ==> OwesAddW(th'))
    && (sh'.seqw.stopped && !sh.seqw.stopped ==> OwesAddR(th') && OwesAddW(th'))
  }

  lemma StillWakes(sh: Shared, th: Thread, sh': Shared, th': Thread)
    requires sh'.readers == sh.readers && sh'.seqw == sh.seqw.(writing := sh'.seqw.writing)
             && sh'.wcv == sh.wcv && sh'.rcv == sh.rcv && !th.pc.N?
    ensures WakeEffect(sh, th, sh', th')
  {
  }

  lemma NotWaiting(sh: Shared, th: Thread)
    ensures !th.pc.R? ==> ReaderWake(sh, th, false, false)
    ensures !th.pc.W? && !Looking(th) ==> WriterWake(sh, th, false, false)
  {
  }

  lemma EnterWakes(sh: Shared, t: nat, th: Thread, sh': Shared, th': Thread, add: bool, wake: bool)
    requires th.pc.W? && EnterMoved(sh, t, th, sh', th') && WriterWake(sh, th, add, wake)
    ensures WriterWake(sh', th', add, wake) && !th'.pc.R?
  {
  }

  lemma DrainWakes(sh: Shared, th: Thread, sh': Shared, th': Thread, add: bool, wake: bool)
    requires th.pc.W? && DrainMoved(sh, th, sh', th') && WriterWake(sh, th, add, wake)
    ensures WriterWake(sh', th', add, wake) && th'.pc.W?
    ensures sh'.readers == sh.readers && sh'.wcv == sh.wcv && sh'.rcv == sh.rcv
    ensures sh'.seqw == sh.seqw.(writing := sh'.seqw.writing)
  {
  }

  lemma PublishWakes(sh: Shared, th: Thread, sh': Shared, th': Thread)
    requires th.pc.W? && PublishMoved(sh, th, sh', th')
    ensures WakeEffect(sh, th, sh', th') && WriterWake(sh', th', false, false) && !th'.pc.R?
  {
  }

  lemma UpdateWakes(sh: Shared, t: nat, th: Thread, sh': Shared, th': Thread)
    requires th.pc.U? && Moved(sh, t, th, sh', th')
    requires Registered(th') ==> sh'.readers.active > 0
    ensures WakeEffect(sh, th, sh', th') && WriterWake(sh', th', false, false) && ReaderWake(sh', th', false, false)
  {
  }

  lemma ReadWakes(sh: Shared, t: nat, th: Thread, sh': Shared, th': Thread, add: bool, wake: bool)
    requires th.pc.R? && Moved(sh, t, th, sh', th') && ReaderWake(sh, th, add, wake)
    ensures sh' == sh && ReaderWake(sh', th', add, wake) && !th'.pc.W? && !th'.pc.N?
  {
  }

  lemma SignalWakes(sh: Shared, t: nat, th: Thread, sh': Shared, th': Thread)
    requires (th.pc.Idle? || th.pc.N?) && Moved(sh, t, th, sh', th')
    ensures WakeEffect(sh, th, sh', th') && ReaderWake(sh', th', false, false)
  {
  }

  lemma KickWakes(sh: Shared, t: nat, th: Thread, sh': Shared, th': Thread, add: bool, wake: bool)
    requires (th.pc.Idle? || th.pc.N?) && Moved(sh, t, th, sh', th') && WriterWake(sh, th, add, wake)
    ensures WriterWake(sh', th', add && !OwesAddR(th), wake && !OwesWakeR(th))
  {
  }

  /** A debt in `s` is still owed in `s'`, by the same thread or by one that is not the actor. */
  lemma DebtsMove(s: State, t: nat, s': State, p: Thread -> bool)
    requires t < |s.threads| == |s'.threads| && s'.threads == s.threads[t := s'.threads[t]]
    ensures Owed(s, p) ==> Owed(s', p) || p(s.threads[t])
    ensures p(s'.threads[t]) ==> Owed(s', p)
  {
    if o :| 0 <= o < |s.threads| && p(s.threads[o]) {
      if o != t {
        assert p(s'.threads[o]);
      }
    }
  }

  lemma WriterWaits(
    sh: Shared, th: Thread, sh': Shared, th': Thread, ot: Thread, add: bool, wake: bool, add': bool, wake': bool)
    requires WakeEffect(sh, th, sh', th') && WriterWake(sh, ot, add, wake)
    requires add ==> add' || OwesAddR(th)
    requires wake ==> wake' || OwesWakeR(th)
    requires (OwesAddR(th') ==> add') && (OwesWakeR(th') ==> wake')
    requires !(HoldsLock(ot) && HasGrant(th))
    ensures WriterWake(sh', ot, add', wake')
  {
  }

  lemma ReaderWaits(
    sh: Shared, th: Thread, sh': Shared, th': Thread, ot: Thread, add: bool, wake: bool, add': bool, wake': bool)
    requires WakeEffect(sh, th, sh', th') && ReaderWake(sh, ot, add, wake)
    requires add ==> add' || OwesAddW(th)
    requires wake ==> wake' || OwesWakeW(th)
    requires (OwesAddW(th') ==> add') && (OwesWakeW(th') ==> wake')
    ensures ReaderWake(sh', ot, add', wake')
  {
  }

  /** One action, for the acting thread alone: it keeps its guarantee, counting only on debts of others. */
  lemma SelfWakes(
    sh: Shared, t: nat, th: Thread, sh': Shared, th': Thread, addR: bool, wakeR: bool, addW: bool, wakeW: bool)
    requires Moved(sh, t, th, sh', th')
    requires WriterWake(sh, th, addR, wakeR) && ReaderWake(sh, th, addW, wakeW)
    requires Registered(th') ==> sh'.readers.active > 0
    ensures WakeEffect(sh, th, sh', th')
    ensures WriterWake(sh', th', addR && !OwesAddR(th), wakeR && !OwesWakeR(th))
    ensures ReaderWake(sh', th', addW && !OwesAddW(th), wakeW && !OwesWakeW(th))
  {
    NotWaiting(sh', th');
    if th.pc.U? {
      UpdateWakes(sh, t, th, sh', th');
    } else if th.pc.R? {
      ReadWakes(sh, t, th, sh', th', addW, wakeW);
      StillWakes(sh, th, sh', th');
    } else if !th.pc.W? {
      SignalWakes(sh, t, th, sh', th');
      KickWakes(sh, t, th, sh', th', addR, wakeR);
    } else if EnterMoved(sh, t, th, sh', th') {
      EnterAside(sh, t, th, sh', th');
      StillWakes(sh, th, sh', th');
      EnterWakes(sh, t, th, sh', th', addR, wakeR);
    } else if DrainMoved(sh, th, sh', th') {
      DrainWakes(sh, th, sh', th', addR, wakeR);
      StillWakes(sh, th, sh', th');
    } else {
      PublishWakes(sh, th, sh', th');
    }
  }

  lemma RegisteredCounts(s: State, t: nat)
    requires CountInv(s) && t < |s.threads| && Registered(s.threads[t])
    ensures s.sh.readers.active > 0
  {
    assert t in Counting.Where(s.threads, Registered);
  }

  lemma WritersWake(s: State, t: nat, s': State, u: nat)
    requires LockInv(s) && WakeInv(s) && t < |s.threads| == |s'.threads| && u < |s.threads| && u != t
    requires s'.threads == s.threads[t := s'.threads[t]] && WakeEffect(s.sh, s.threads[t], s'.sh, s'.threads[t])
    ensures WriterWake(s'.sh, s.threads[u], Owed(s', OwesAddR), Owed(s', OwesWakeR))
  {
    DebtsMove(s, t, s', OwesAddR);
    DebtsMove(s, t, s', OwesWakeR);
    var th, th', ot := s.threads[t], s'.threads[t], s.threads[u];
    if HoldsLock(ot) && HasGrant(th) {
      LockUnique(s, t, u);
    }
    WriterWaits(s.sh, th, s'.sh, th', ot, Owed(s, OwesAddR), Owed(s, OwesWakeR),
                Owed(s', OwesAddR), Owed(s', OwesWakeR));
  }

  lemma ReadersWake(s: State, t: nat, s': State, u: nat)
    requires WakeInv(s) && t < |s.threads| == |s'.threads| && u < |s.threads| && u != t
    requires s'.threads == s.threads[t := s'.threads[t]] && WakeEffect(s.sh, s.threads[t], s'.sh, s'.threads[t])
    ensures ReaderWake(s'.sh, s.threads[u], Owed(s', OwesAddW), Owed(s', OwesWakeW))
  {
    DebtsMove(s, t, s', OwesAddW);
    DebtsMove(s, t, s', OwesWakeW);
    var th, th', ot := s.threads[t], s'.threads[t], s.threads[u];
    ReaderWaits(s.sh, th, s'.sh, th', ot, Owed(s, OwesAddW), Owed(s, OwesWakeW),
                Owed(s', OwesAddW), Owed(s', OwesWakeW));
  }

  lemma ActorWakes(s: State, t: nat, s': State)
    requires CountInv(s') && WakeInv(s) && Step(s, t, s')
    ensures WakeEffect(s.sh, s.threads[t], s'.sh, s'.threads[t])
    ensures WriterWake(s'.sh, s'.threads[t], Owed(s', OwesAddR), Owed(s', OwesWakeR))
    ensures ReaderWake(s'.sh, s'.threads[t], Owed(s', OwesAddW), Owed(s', OwesWakeW))
  {
    var th, th' := s.threads[t], s'.threads[t];
    if Registered(th') {
      RegisteredCounts(s', t);
    }
    SelfWakes(s.sh, t, th, s'.sh, th', Owed(s, OwesAddR), Owed(s, OwesWakeR), Owed(s, OwesAddW), Owed(s, OwesWakeW));
    DebtsMove(s, t, s', OwesAddR);
    DebtsMove(s, t, s', OwesWakeR);
    DebtsMove(s, t, s', OwesAddW);
    DebtsMove(s, t, s', OwesWakeW);
  }

  lemma WakeStep(s: State, t: nat, s': State)
    requires Exclusion.Inv(s) && Exclusion.Inv(s') && WakeInv(s) && Step(s, t, s')
    ensures WakeInv(s')
  {
    ActorWakes(s, t, s');
    forall u | 0 <= u < |s'.threads|
      ensures WriterWake(s'.sh, s'.threads[u], Owed(s', OwesAddR), Owed(s', OwesWakeR))
      ensures ReaderWake(s'.sh, s'.threads[u], Owed(s', OwesAddW), Owed(s', OwesWakeW))
    {
      if u != t {
        WritersWake(s, t, s', u);
        ReadersWake(s, t, s', u);
      }
    }
  }

  lemma WakeInit(s: State)
    requires Init(s)
    ensures WakeInv(s)
  {
  }
}
