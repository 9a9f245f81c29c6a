/** Every publish over an existing message has waited for the consumption its policy asks for. */
module Backpressure {
  import opened Words
  import opened Machine
  import opened Counting
  import opened Exclusion
  import opened History
  import opened Wakeups
  import opened Safety

  /** How many guards were released since the last publish before state `i`. */
  ghost function Releases(run: seq<State>, tids: seq<nat>, i: nat): nat
    requires Run(run, tids) && i < |run|
  {
    if i == 0 || run[i].sh.pub != run[i - 1].sh.pub then 0
    else Releases(run, tids, i - 1)
         + One(HasGuard(run[i - 1].threads[tids[i - 1]]) && !HasGuard(run[i].threads[tids[i - 1]]))
  }

  lemma ReleasedAt(run: seq<State>, tids: seq<nat>, i: nat)
    requires Run(run, tids) && i < |tids|
    ensures run[i + 1].sh.released ==
            if run[i + 1].sh.pub != run[i].sh.pub then 0
            else run[i].sh.released + One(HasGuard(run[i].threads[tids[i]]) && !HasGuard(run[i + 1].threads[tids[i]]))
  {
    SafeAlways(run, tids, i);
    assert StepAt(run, tids, i);
    HistoryStep(run[i], tids[i], run[i + 1]);
  }

  lemma {:induction false} ReleasedCounts(run: seq<State>, tids: seq<nat>, i: nat)
    requires Run(run, tids) && i < |run|
    ensures run[i].sh.released == Releases(run, tids, i)
  {
    if i > 0 {
      ReleasedCounts(run, tids, i - 1);
      ReleasedAt(run, tids, i - 1);
    }
  }

  /** About to load the counters inside `start_write`. */
  predicate Looks(th: Thread) { th.pc == W(Readers) || th.pc == W(BpReaders) }

  ghost predicate LookEffect(sh: Shared, th: Thread, sh': Shared, th': Thread) {
    Looked(th') ==>
      && sh'.pub == sh.pub
      && if Looks(th) then th'.wr.look == sh.readers else Looked(th) && th'.wr.look == th.wr.look
  }

  lemma WriterLooks(sh: Shared, t: nat, th: Thread, sh': Shared, th': Thread)
    requires th.pc.W? && Moved(sh, t, th, sh', th')
    ensures LookEffect(sh, th, sh', th')
  {
  }

  lemma OtherLooks(sh: Shared, t: nat, th: Thread, sh': Shared, th': Thread)
    requires !th.pc.W? && Moved(sh, t, th, sh', th')
    ensures LookEffect(sh, th, sh', th')
  {
  }

  /** One step, seen by a writer `t` that has looked. */
  lemma LookAt(run: seq<State>, tids: seq<nat>, i: nat, t: nat)
    requires Run(run, tids) && i < |tids| && t < |run[0].threads| && Looked(run[i + 1].threads[t])
    ensures run[i + 1].sh.pub == run[i].sh.pub
    ensures if tids[i] == t && Looks(run[i].threads[t]) then run[i + 1].threads[t].wr.look == run[i].sh.readers
            else Looked(run[i].threads[t]) && run[i + 1].threads[t].wr.look == run[i].threads[t].wr.look
  {
    var s, s', a := run[i], run[i + 1], tids[i];
    SafeAlways(run, tids, i);
    assert StepAt(run, tids, i);
    if a == t {
      if s.threads[t].pc.W? {
        WriterLooks(s.sh, t, s.threads[t], s'.sh, s'.threads[t]);
      } else {
        OtherLooks(s.sh, t, s.threads[t], s'.sh, s'.threads[t]);
      }
    } else {
      HistoryStep(s, a, s');
      if s'.sh.pub != s.sh.pub {
        LockUnique(s, a, t);
      }
    }
  }

  /** State `j` is thread `t`'s last look before state `i`: it loaded the counters there, and until `i` it
      kept that look and nothing was published. */
  ghost predicate LastLook(run: seq<State>, tids: seq<nat>, t: nat, j: nat, i: nat)
    requires Run(run, tids) && j < i < |run| && t < |run[0].threads|
  {
    && tids[j] == t && Looks(run[j].threads[t])
    && run[j].sh.pub == run[i].sh.pub
    && forall k :: j < k <= i ==> Looked(run[k].threads[t]) && run[k].threads[t].wr.look == run[j].sh.readers
  }

  lemma {:induction false} LookOrigin(run: seq<State>, tids: seq<nat>, t: nat, i: nat) returns (j: nat)
    requires Run(run, tids) && i < |run| && t < |run[0].threads| && Looked(run[i].threads[t])
    ensures j < i && LastLook(run, tids, t, j, i)
  {
    LookAt(run, tids, i - 1, t);
    if tids[i - 1] == t && Looks(run[i - 1].threads[t]) {
      j := i - 1;
    } else {
      j := LookOrigin(run, tids, t, i - 1);
    }
  }

  /** Backpressure under any policy: a publish that replaces a message comes after at least
      min(target, consumers) releases of that message, the minimum taken at the writer's last look; the
      target has not changed since. */
  lemma PublishWaited(run: seq<State>, tids: seq<nat>, i: nat) returns (j: nat)
    requires Run(run, tids) && i < |tids| && run[i].sh.pub != [] && run[i + 1].sh.pub != run[i].sh.pub
    ensures j < i && LastLook(run, tids, tids[i], j, i)
    ensures TargetConsumed(run[j].sh.readers) <= Releases(run, tids, i)
    ensures run[j].sh.readers.target == run[i].sh.readers.target
  {
    SafeAlways(run, tids, i);
    assert StepAt(run, tids, i);
    HistoryStep(run[i], tids[i], run[i + 1]);
    assert HistoryLocal(run[i].sh, run[i].threads[tids[i]]);
    j := LookOrigin(run, tids, tids[i], i);
    ReleasedCounts(run, tids, i);
  }

  // ---------- when the wait forgets its writer ----------

  /** About to take the later of the look and the ticket of the wait loop. */
  predicate Commits(th: Thread) { th.pc == W(Ticket) || th.pc == W(BpReaders) }

  /** A writer waits only on a look that asked for more than it saw. */
  ghost predicate MarkEffect(sh: Shared, th: Thread, th': Thread) {
    Looking(th') ==>
      && th'.wr.look.consumed < TargetConsumed(th'.wr.look)
      && if Commits(th) then th'.wr.mark == sh.readers.consumed else Looking(th) && th'.wr == th.wr
  }

  predicate Unmet(th: Thread) { Looking(th) ==> th.wr.look.consumed < TargetConsumed(th.wr.look) }

  lemma WriterMarks(sh: Shared, t: nat, th: Thread, sh': Shared, th': Thread)
    requires th.pc.W? && Moved(sh, t, th, sh', th') && Unmet(th)
    ensures MarkEffect(sh, th, th')
  {
  }

  lemma OtherMarks(sh: Shared, t: nat, th: Thread, sh': Shared, th': Thread)
    requires !th.pc.W? && Moved(sh, t, th, sh', th') && Unmet(th)
    ensures MarkEffect(sh, th, th')
  {
  }

  lemma MarkAt(run: seq<State>, tids: seq<nat>, i: nat, t: nat)
    requires Run(run, tids) && i < |tids| && tids[i] == t && Unmet(run[i].threads[t])
    ensures MarkEffect(run[i].sh, run[i].threads[t], run[i + 1].threads[t])
  {
    assert StepAt(run, tids, i);
    if run[i].threads[t].pc.W? {
      WriterMarks(run[i].sh, t, run[i].threads[t], run[i + 1].sh, run[i + 1].threads[t]);
    } else {
      OtherMarks(run[i].sh, t, run[i].threads[t], run[i + 1].sh, run[i + 1].threads[t]);
    }
  }

  /** In state `k` thread `t` took the later of the look and the ticket it is waiting on in state `i`. */
  ghost predicate Committing(run: seq<State>, tids: seq<nat>, t: nat, k: nat, i: nat)
    requires Run(run, tids) && k < i < |run| && t < |run[0].threads|
  {
    && tids[k] == t && Commits(run[k].threads[t])
    && forall m :: k < m <= i ==> Looking(run[m].threads[t]) && run[m].threads[t].wr == run[i].threads[t].wr
  }

  lemma {:induction false} UnmetAlways(run: seq<State>, tids: seq<nat>, t: nat, i: nat)
    requires Run(run, tids) && i < |run| && t < |run[0].threads|
    ensures Unmet(run[i].threads[t])
  {
    if i > 0 {
      UnmetAlways(run, tids, t, i - 1);
      assert StepAt(run, tids, i - 1);
      if tids[i - 1] == t {
        MarkAt(run, tids, i - 1, t);
      }
    }
  }

  lemma MarkStep(run: seq<State>, tids: seq<nat>, t: nat, i: nat)
    requires Run(run, tids) && i < |tids| && t < |run[0].threads| && Looking(run[i + 1].threads[t])
    ensures run[i + 1].threads[t].wr.look.consumed < TargetConsumed(run[i + 1].threads[t].wr.look)
    ensures if tids[i] == t && Commits(run[i].threads[t]) then
              run[i + 1].threads[t].wr.mark == run[i].sh.readers.consumed
            else Looking(run[i].threads[t]) && run[i + 1].threads[t].wr == run[i].threads[t].wr
  {
    UnmetAlways(run, tids, t, i);
    assert StepAt(run, tids, i);
    if tids[i] == t {
      MarkAt(run, tids, i, t);
    }
  }

  lemma {:induction false} MarkOrigin(run: seq<State>, tids: seq<nat>, t: nat, i: nat) returns (k: nat)
    requires Run(run, tids) && i < |run| && t < |run[0].threads| && Looking(run[i].threads[t])
    ensures k < i && Committing(run, tids, t, k, i)
    ensures run[i].threads[t].wr.mark == run[k].sh.readers.consumed
  {
    MarkStep(run, tids, t, i - 1);
    if tids[i - 1] == t && Commits(run[i - 1].threads[t]) {
      k := i - 1;
    } else {
      k := MarkOrigin(run, tids, t, i - 1);
    }
  }

  /** Will notify the writers in any case, or when the last of its kind leaves. */
  predicate Attends(th: Thread) { OwesWakeR(th) || Registered(th) }

  /** The last reader to leave goes on to notify the writers. */
  lemma LastReaderNotifies(run: seq<State>, tids: seq<nat>, i: nat)
    requires Run(run, tids) && i < |tids| && run[i + 1].sh.readers.active == 0 < run[i].sh.readers.active
    ensures OwesAddR(run[i + 1].threads[tids[i]])
  {
    SafeAlways(run, tids, i);
    SafeAlways(run, tids, i + 1);
    assert StepAt(run, tids, i);
    ActorWakes(run[i], tids[i], run[i + 1]);
  }

  /** Asleep in the backpressure wait, not woken since. */
  ghost predicate AsleepForConsumption(s: State, t: nat) {
    t < |s.threads| && s.threads[t].pc == W(BpSleep) && s.threads[t].stamp == s.sh.rcv.wakes
  }

  lemma Unattended(run: seq<State>, tids: seq<nat>, i: nat, t: nat)
    requires Run(run, tids) && i < |run| && AsleepForConsumption(run[i], t)
    requires forall o :: 0 <= o < |run[i].threads| ==> !Attends(run[i].threads[o])
    ensures run[i].sh.readers.consumed == run[i].threads[t].wr.mark && !run[i].sh.seqw.stopped
    ensures run[i].threads[t].wr.look.target == run[i].sh.readers.target
  {
    var s := run[i];
    SafeAlways(run, tids, i);
    assert Where(s.threads, Registered) == {};
    assert WriterWake(s.sh, s.threads[t], Owed(s, OwesAddR), Owed(s, OwesWakeR));
    assert HistoryLocal(s.sh, s.threads[t]);
  }

  /** Exactly when the backpressure wait forgets its writer. Take a writer asleep there with nobody left who
      would wake it: nobody owes a notification and no reader is registered. What it waits for has happened
      if and only if it had happened already when the writer took the later of its look and its ticket, in
      state `k`. As the look, in state `j`, still asked for more, either a release fell between the look
      and the ticket, or a reader was removed since the look. */
  lemma ForgottenExactly(run: seq<State>, tids: seq<nat>, i: nat, t: nat) returns (j: nat, k: nat)
    requires Run(run, tids) && i < |run| && AsleepForConsumption(run[i], t)
    requires forall o :: 0 <= o < |run[i].threads| ==> !Attends(run[i].threads[o])
    ensures j < i && LastLook(run, tids, t, j, i) && k < i && Committing(run, tids, t, k, i)
    ensures var r := run[i].sh.readers;
            TargetConsumed(r) <= r.consumed <==> TargetConsumed(r) <= run[k].sh.readers.consumed
    ensures TargetConsumed(run[i].sh.readers) <= run[i].sh.readers.consumed ==>
              || run[k].sh.readers.consumed != run[j].sh.readers.consumed
              || run[i].sh.readers.consumers < run[j].sh.readers.consumers
    ensures !run[i].sh.seqw.stopped
  {
    Unattended(run, tids, i, t);
    UnmetAlways(run, tids, t, i);
    j := LookOrigin(run, tids, t, i);
    k := MarkOrigin(run, tids, t, i);
  }

  /** The guarantee that is left: a writer asleep for consumption that came only after the later of its look
      and its ticket has somebody who owes it a wake-all, or a registered reader, the last of which will. */
  lemma WriterIsAttended(run: seq<State>, tids: seq<nat>, i: nat, t: nat) returns (o: nat)
    requires Run(run, tids) && i < |run| && AsleepForConsumption(run[i], t)
    requires run[i].threads[t].wr.mark < TargetConsumed(run[i].sh.readers) <= run[i].sh.readers.consumed
    ensures o < |run[i].threads| && Attends(run[i].threads[o])
  {
    if forall u :: 0 <= u < |run[i].threads| ==> !Attends(run[i].threads[u]) {
      Unattended(run, tids, i, t);
      assert false;
    }
    o :| 0 <= o < |run[i].threads| && Attends(run[i].threads[o]);
  }
}
