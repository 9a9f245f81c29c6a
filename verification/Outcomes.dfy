/** How calls end: when `read` returns without a guard, when a write is given up, and what the counter calls
    add up to. */
module Outcomes {
  import opened Words
  import opened Machine
  import opened Counting
  import opened Exclusion
  import opened Safety
  import opened History
  import opened Order
  import opened Progress
  import opened Publishing
  import Stranded

  // ---------- read ----------

  /** Inside `read` before the step, returned from it after. */
  predicate ReturnsFromRead(th: Thread, th': Thread) { Seeking(th) && !Seeking(th') }

  ghost predicate ReturnEffect(sh: Shared, th: Thread, sh': Shared, th': Thread) {
    ReturnsFromRead(th, th') ==>
      && sh' == sh
      && if HasGuard(th') then
           && th'.pc == R(RGuard) && !sh.seqw.writing && sh.seqw.sequence == th.rd.seen
           && th'.hd == th.hd.(lastSeen := sh.seqw.sequence, lastIdx := |sh.pub|)
         else
           th'.pc == Idle && sh.seqw.sequence == th.rd.ls && (sh.seqw.stopped || !th.rd.block) && th'.hd == th.hd
  }

  lemma ReaderReturns(sh: Shared, t: nat, th: Thread, sh': Shared, th': Thread)
    requires Moved(sh, t, th, sh', th')
    ensures ReturnEffect(sh, th, sh', th')
  {
  }

  /** How `read` returns: with a guard of the current message, clean and other than the last seen one, or
      without one, and then there was nothing new at that moment and stop was set or the call did not
      block. */
  lemma ReadReturns(run: seq<State>, tids: seq<nat>, i: nat)
    requires Run(run, tids) && i < |tids| && ReturnsFromRead(run[i].threads[tids[i]], run[i + 1].threads[tids[i]])
    ensures var sh, th, th' := run[i].sh, run[i].threads[tids[i]], run[i + 1].threads[tids[i]];
            if HasGuard(th') then
              && !sh.seqw.writing && sh.seqw.sequence != th.rd.ls
              && th'.hd.lastSeen == sh.seqw.sequence && th'.hd.lastIdx == |sh.pub|
            else
              th'.pc == Idle && sh.seqw.sequence == th.rd.ls && (sh.seqw.stopped || !th.rd.block)
    ensures run[i + 1].sh == run[i].sh
  {
    SafeAlways(run, tids, i);
    assert StepAt(run, tids, i);
    ReaderReturns(run[i].sh, tids[i], run[i].threads[tids[i]], run[i + 1].sh, run[i + 1].threads[tids[i]]);
    assert HistoryLocal(run[i].sh, run[i].threads[tids[i]]);
  }

  // ---------- write ----------

  /** A write attempt is over, and nothing was published by it. */
  predicate GivesUp(sh: Shared, th: Thread, sh': Shared, th': Thread) {
    InFlight(th) && !InFlight(th') && sh'.pub == sh.pub
  }

  ghost predicate GiveUpEffect(sh: Shared, th: Thread, sh': Shared, th': Thread) {
    && (GivesUp(sh, th, sh', th') ==>
          if HasGrant(th) then th.pc == W(Granted) && (th.wr.job.Slice? ==> |th.wr.job.data| > |sh.mem.buffer|)
          else th.pc == W(BpStop) || th.pc == W(DrLower))
    && (GivesUp(sh, th, sh', th') && th.pc == W(BpStop) ==> sh.seqw.stopped)
    && (GivesUp(sh, th, sh', th') ==> th'.pc == W(Unlock))
  }

  lemma EnterGivesUp(sh: Shared, t: nat, th: Thread, sh': Shared, th': Thread)
    requires th.pc.W? && EnterMoved(sh, t, th, sh', th')
    ensures GiveUpEffect(sh, th, sh', th')
  {
  }

  lemma GrantGivesUp(sh: Shared, th: Thread, sh': Shared, th': Thread)
    requires th.pc.W? && GrantMoved(sh, th, sh', th')
    ensures GiveUpEffect(sh, th, sh', th')
  {
  }

  lemma OtherGivesUp(sh: Shared, t: nat, th: Thread, sh': Shared, th': Thread)
    requires !th.pc.W? && Moved(sh, t, th, sh', th')
    ensures GiveUpEffect(sh, th, sh', th')
  {
  }

  /** How a write attempt that publishes nothing ends: before a grant only because of stop; after it only
      because a slice does not fit or a write guard is dropped or given a size that does not fit. It always
      goes on to release the mutex. */
  lemma WriteGivesUp(run: seq<State>, tids: seq<nat>, i: nat)
    requires Run(run, tids) && i < |tids|
    requires GivesUp(run[i].sh, run[i].threads[tids[i]], run[i + 1].sh, run[i + 1].threads[tids[i]])
    ensures var sh, th := run[i].sh, run[i].threads[tids[i]];
            if HasGrant(th) then th.wr.job.Slice? ==> |th.wr.job.data| > |sh.mem.buffer| else sh.seqw.stopped
    ensures run[i + 1].threads[tids[i]].pc == W(Unlock)
  {
    assert StepAt(run, tids, i);
    var s, t, s' := run[i], tids[i], run[i + 1];
    Stranded.LoweringIsStopped(run, tids, t, i);
    if !s.threads[t].pc.W? {
      OtherGivesUp(s.sh, t, s.threads[t], s'.sh, s'.threads[t]);
    } else if EnterMoved(s.sh, t, s.threads[t], s'.sh, s'.threads[t]) {
      EnterGivesUp(s.sh, t, s.threads[t], s'.sh, s'.threads[t]);
    } else {
      GrantGivesUp(s.sh, s.threads[t], s'.sh, s'.threads[t]);
    }
  }

  // ---------- add_reader, remove_reader, set_target_read_count ----------

  /** Ends a call of `update_reader_state` with closure `m`. */
  predicate Completes(th: Thread, th': Thread, m: Mutator) { th.pc.U? && th.pc.m == m && !th'.pc.U? }

  predicate SetsTarget(th: Thread, th': Thread) { th.pc.U? && th.pc.m.SetTarget? && !th'.pc.U? }

  /** An `add_reader` that finds room, and a `remove_reader` that finds a reader; the others panic. */
  predicate Adds(r: ReadersState, th: Thread, th': Thread) {
    Completes(th, th', AddReader) && r.consumers != U16_MOD - 1
  }

  predicate Removes(r: ReadersState, th: Thread, th': Thread) {
    Completes(th, th', RemoveReader) && r.consumers != 0
  }

  ghost predicate CountEffect(sh: Shared, th: Thread, sh': Shared, th': Thread) {
    && sh'.readers.consumers + One(Removes(sh.readers, th, th'))
       == sh.readers.consumers + One(Adds(sh.readers, th, th'))
    && sh'.readers.consumers < U16_MOD
    && sh'.readers.target == (if SetsTarget(th, th') then th.pc.m.count else sh.readers.target)
  }

  lemma WriterCounts(sh: Shared, t: nat, th: Thread, sh': Shared, th': Thread)
    requires th.pc.W? && Moved(sh, t, th, sh', th') && sh.readers.consumers < U16_MOD
    ensures CountEffect(sh, th, sh', th')
  {
  }

  lemma OtherCounts(sh: Shared, t: nat, th: Thread, sh': Shared, th': Thread)
    requires !th.pc.W? && Moved(sh, t, th, sh', th') && sh.readers.consumers < U16_MOD
    ensures CountEffect(sh, th, sh', th')
  {
  }

  /** The `add_reader` and `remove_reader` calls completed before state `i`, and the last target set. */
  ghost function Added(run: seq<State>, tids: seq<nat>, i: nat): nat
    requires Run(run, tids) && i < |run|
  {
    if i == 0 then 0
    else Added(run, tids, i - 1)
         + One(Adds(run[i - 1].sh.readers, run[i - 1].threads[tids[i - 1]], run[i].threads[tids[i - 1]]))
  }

  ghost function Removed(run: seq<State>, tids: seq<nat>, i: nat): nat
    requires Run(run, tids) && i < |run|
  {
    if i == 0 then 0
    else Removed(run, tids, i - 1)
         + One(Removes(run[i - 1].sh.readers, run[i - 1].threads[tids[i - 1]], run[i].threads[tids[i - 1]]))
  }

  ghost function LastTarget(run: seq<State>, tids: seq<nat>, i: nat): nat
    requires Run(run, tids) && i < |run|
  {
    if i == 0 then 0
    else if SetsTarget(run[i - 1].threads[tids[i - 1]], run[i].threads[tids[i - 1]]) then
      run[i - 1].threads[tids[i - 1]].pc.m.count
    else LastTarget(run, tids, i - 1)
  }

  lemma CountsAt(run: seq<State>, tids: seq<nat>, i: nat)
    requires Run(run, tids) && i < |tids| && run[i].sh.readers.consumers < U16_MOD
    ensures CountEffect(run[i].sh, run[i].threads[tids[i]], run[i + 1].sh, run[i + 1].threads[tids[i]])
  {
    assert StepAt(run, tids, i);
    var s, t, s' := run[i], tids[i], run[i + 1];
    if s.threads[t].pc.W? {
      WriterCounts(s.sh, t, s.threads[t], s'.sh, s'.threads[t]);
    } else {
      OtherCounts(s.sh, t, s.threads[t], s'.sh, s'.threads[t]);
    }
  }

  /** `consumers` is the number of readers added and not removed, and the target is the last one set. */
  lemma {:induction false} CountsAreCalls(run: seq<State>, tids: seq<nat>, i: nat)
    requires Run(run, tids) && i < |run|
    ensures run[i].sh.readers.consumers + Removed(run, tids, i) == Added(run, tids, i)
    ensures run[i].sh.readers.consumers < U16_MOD
    ensures run[i].sh.readers.target == LastTarget(run, tids, i)
  {
    if i > 0 {
      CountsAreCalls(run, tids, i - 1);
      CountsAt(run, tids, i - 1);
    }
  }
}
