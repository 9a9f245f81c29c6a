/** The publish history: sequence numbers in closed form, guards of the current message, the consumption
    counter and the backpressure every publish waits for. */
module History {
  import opened Words
  import opened Machine
  import opened Counting
  import opened Exclusion

  /** The sequence number of the `n`-th message: 0 before any, then 1 .. 2^62 - 1 round and round. */
  function SequenceOf(n: nat): nat {
    if n == 0 then 0 else (n - 1) % (SEQUENCE_MOD - 1) + 1
  }

  lemma SequenceNext(n: nat)
    ensures NextSequence(SequenceOf(n)) == SequenceOf(n + 1)
    ensures SequenceOf(n + 1) != SequenceOf(n)
    ensures 0 < SequenceOf(n + 1) < SEQUENCE_MOD
  {
  }

  /** Inside `publish_write` between the reset of the counter and the swap that publishes. */
  predicate InWindow(th: Thread) {
    th.pc.W? && (th.pc.w.PubLoad? || th.pc.w.PubCas?)
  }

  /** Inside `start_write` or `publish_write`, after loading the current sequence. */
  predicate HasSequence(th: Thread) {
    match th.pc
    case W(w) => !w.Lock? && !w.Sequence? && !w.Unlock? && !w.TargetLock?
    case U(m, _) => m.Reset?
    case N(sig, _) => sig.Kick?
    case _ => false
  }

  /** Inside the write path with the counters in hand. */
  predicate Looked(th: Thread) { HasSequence(th) && th.pc != W(Readers) }

  /** Past the backpressure wait, not yet published. */
  predicate Paid(th: Thread) { th.pc == W(Raise) || Flagged(th) }

  predicate Registers(th: Thread) { th.pc.U? && th.pc.m.Register? }

  predicate HistoryLocal(sh: Shared, th: Thread) {
    && (HasGuard(th) ==> th.hd.lastIdx == |sh.pub| && th.rd.seen == sh.seqw.sequence == th.hd.lastSeen)
    && (InWindow(th) ==> sh.readers.consumed == 0)
    && (HasSequence(th) ==> th.wr.curSeq == sh.seqw.sequence)
    && (th.pc == W(Ticket) ==> th.wr.look.consumed <= sh.released)
    && (Paid(th) && |sh.pub| > 0 ==> TargetConsumed(th.wr.look) <= sh.released)
    && (Looked(th) ==> th.wr.look.target == sh.readers.target)
    && (Registers(th) || Registered(th) ==> th.rd.seen != th.rd.ls)
    && ((th.pc == R(RWait) || th.pc == R(RSleep)) && !th.rd.block ==> th.rd.seen != th.rd.ls)
  }

  /** Outside the publish window `data_consumed` is the number of released guards of the current message,
      as a `u16`. */
  ghost predicate ConsumedInv(s: State) {
    || (exists w :: 0 <= w < |s.threads| && InWindow(s.threads[w]))
    || s.sh.readers.consumed == s.sh.released % U16_MOD
  }

  ghost predicate HistoryInv(s: State) {
    && s.sh.seqw.sequence == SequenceOf(|s.sh.pub|)
    && (forall t :: 0 <= t < |s.threads| ==> HistoryLocal(s.sh, s.threads[t]))
    && ConsumedInv(s)
  }

  ghost predicate Publishes(sh: Shared, sh': Shared) {
    && |sh'.pub| == |sh.pub| + 1 && sh'.pub == sh.pub + [Data(sh.mem)]
    && sh'.seqw.sequence == NextSequence(sh.seqw.sequence)
    && sh'.released == 0
  }

  ghost predicate HistoryEffect(sh: Shared, th: Thread, sh': Shared, th': Thread) {
    && HistoryLocal(sh', th')
    && (|| (sh'.pub == sh.pub && sh'.seqw.sequence == sh.seqw.sequence)
        || (HasGrant(th) && InWindow(th) && !InWindow(th') && Publishes(sh, sh')))
    && (InWindow(th) && !InWindow(th') ==> sh'.readers.consumed == sh'.released == 0)
    && (!InWindow(th) && InWindow(th') ==> HasGrant(th))
    && (!InWindow(th) ==>
          || (sh'.readers.consumed == sh.readers.consumed && sh'.released == sh.released)
          || (HasGuard(th) && sh'.readers.consumed == (sh.readers.consumed + 1) % U16_MOD
              && sh'.released == sh.released + 1)
          || (InWindow(th') && sh'.released == sh.released))
    && (sh'.pub == sh.pub ==> sh'.released == sh.released + One(HasGuard(th) && !HasGuard(th')))
    && (sh'.readers.consumed == sh.readers.consumed || HasGrant(th) || HasGuard(th))
    && (sh'.readers.target == sh.readers.target || HoldsLock(th))
  }

  lemma EnterHistory(sh: Shared, t: nat, th: Thread, sh': Shared, th': Thread)
    requires th.pc.W? && EnterMoved(sh, t, th, sh', th') && HistoryLocal(sh, th)
    requires sh.seqw.sequence > 0 <==> |sh.pub| > 0
    requires sh.readers.consumed <= sh.released || !HoldsLock(th)
    ensures HistoryEffect(sh, th, sh', th')
  {
    EnterAside(sh, t, th, sh', th');
  }

  lemma GrantHistory(sh: Shared, th: Thread, sh': Shared, th': Thread)
    requires th.pc.W? && GrantMoved(sh, th, sh', th') && HistoryLocal(sh, th)
    ensures HistoryEffect(sh, th, sh', th')
  {
  }

  lemma UpdateHistory(sh: Shared, t: nat, th: Thread, sh': Shared, th': Thread)
    requires th.pc.U? && Moved(sh, t, th, sh', th') && HistoryLocal(sh, th)
    ensures HistoryEffect(sh, th, sh', th')
  {
  }

  lemma ReadHistory(sh: Shared, t: nat, th: Thread, sh': Shared, th': Thread)
    requires th.pc.R? && Moved(sh, t, th, sh', th') && HistoryLocal(sh, th)
    ensures HistoryEffect(sh, th, sh', th')
  {
  }

  lemma SignalHistory(sh: Shared, t: nat, th: Thread, sh': Shared, th': Thread)
    requires (th.pc.Idle? || th.pc.N?) && Moved(sh, t, th, sh', th') && HistoryLocal(sh, th)
    ensures HistoryEffect(sh, th, sh', th')
  {
  }

  lemma LockUnique(s: State, t: nat, u: nat)
    requires LockInv(s) && t < |s.threads| && u < |s.threads|
    requires HoldsLock(s.threads[t]) && HoldsLock(s.threads[u])
    ensures t == u
  {
    assert LockLocal(s.sh, t, s.threads[t]) && LockLocal(s.sh, u, s.threads[u]);
  }

  lemma HistoryOthers(s: State, t: nat, s': State, u: nat)
    requires Exclusion.Inv(s) && HistoryInv(s) && t < |s.threads| == |s'.threads| && u < |s.threads| && u != t
    requires HistoryEffect(s.sh, s.threads[t], s'.sh, s'.threads[t])
    ensures HistoryLocal(s'.sh, s.threads[u])
  {
    var th, ot := s.threads[t], s.threads[u];
    assert HistoryLocal(s.sh, ot) && LockLocal(s.sh, u, ot) && LockLocal(s.sh, t, th);
    assert !(HasGuard(ot) && HasGrant(th)) && !(HasGuard(th) && HasGrant(ot));
    if HoldsLock(th) && HoldsLock(ot) {
      LockUnique(s, t, u);
    }
  }

  lemma ConsumedKept(s: State, t: nat, s': State)
    requires Exclusion.Inv(s) && HistoryInv(s) && t < |s.threads| == |s'.threads|
    requires s'.threads == s.threads[t := s'.threads[t]]
    requires HistoryEffect(s.sh, s.threads[t], s'.sh, s'.threads[t])
    ensures ConsumedInv(s')
  {
    var th, th' := s.threads[t], s'.threads[t];
    if w :| 0 <= w < |s.threads| && InWindow(s.threads[w]) {
      if w != t {
        assert InWindow(s'.threads[w]);
      } else if InWindow(th') {
        assert InWindow(s'.threads[t]);
      }
    } else if InWindow(th') {
      assert InWindow(s'.threads[t]);
    } else {
      assert !InWindow(th);
    }
  }

  lemma NotInWindow(s: State, t: nat)
    requires Exclusion.Inv(s) && HistoryInv(s) && t < |s.threads|
    requires HoldsLock(s.threads[t]) && !InWindow(s.threads[t])
    ensures s.sh.readers.consumed == s.sh.released % U16_MOD <= s.sh.released
  {
    if w :| 0 <= w < |s.threads| && InWindow(s.threads[w]) {
      LockUnique(s, t, w);
    }
  }

  lemma HistoryStep(s: State, t: nat, s': State)
    requires Exclusion.Inv(s) && HistoryInv(s) && Step(s, t, s')
    ensures HistoryInv(s')
    ensures HistoryEffect(s.sh, s.threads[t], s'.sh, s'.threads[t])
  {
    var th, th' := s.threads[t], s'.threads[t];
    SequenceNext(|s.sh.pub|);
    assert HistoryLocal(s.sh, th);
    if th.pc.U? {
      UpdateHistory(s.sh, t, th, s'.sh, th');
    } else if th.pc.R? {
      ReadHistory(s.sh, t, th, s'.sh, th');
    } else if !th.pc.W? {
      SignalHistory(s.sh, t, th, s'.sh, th');
    } else if EnterMoved(s.sh, t, th, s'.sh, th') {
      if HoldsLock(th) {
        NotInWindow(s, t);
      }
      EnterHistory(s.sh, t, th, s'.sh, th');
    } else {
      GrantHistory(s.sh, th, s'.sh, th');
    }
    forall u | 0 <= u < |s'.threads| ensures HistoryLocal(s'.sh, s'.threads[u]) {
      if u != t {
        HistoryOthers(s, t, s', u);
      }
    }
    ConsumedKept(s, t, s');
  }

  lemma HistoryInit(s: State)
    requires Init(s)
    ensures HistoryInv(s)
  {
  }
}
