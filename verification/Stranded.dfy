/** When a reader that waits for a write in progress is left asleep over an unread message. */
module Stranded {
  import opened Words
  import opened Machine
  import opened Exclusion
  import opened History
  import opened Wakeups
  import opened Safety
  import opened Traces
  import opened Progress
  import Theorems

  // ---------- the load a reader waits on ----------

  /** What a waiting reader goes by is the state it loaded: another message with the flag up, or nothing new,
      no stop, and a call that blocks. */
  ghost predicate SeeEffect(sh: Shared, th: Thread, th': Thread) {
    ReaderWaiting(th') ==>
      && th'.ticket == th.ticket
      && if th.pc == R(RState) then
           && th'.rd.seen == sh.seqw.sequence
           && if th'.rd.seen != th'.rd.ls then sh.seqw.writing else th'.rd.block && !sh.seqw.stopped
         else ReaderWaiting(th) && th'.rd == th.rd
  }

  lemma ReaderSees(sh: Shared, t: nat, th: Thread, sh': Shared, th': Thread)
    requires Moved(sh, t, th, sh', th') && th.pc.R?
    ensures SeeEffect(sh, th, th') && sh' == sh
  {
  }

  lemma OtherSees(sh: Shared, t: nat, th: Thread, sh': Shared, th': Thread)
    requires Moved(sh, t, th, sh', th') && !th.pc.R?
    ensures !ReaderWaiting(th')
  {
  }

  lemma SeeAt(run: seq<State>, tids: seq<nat>, i: nat, t: nat)
    requires Run(run, tids) && i < |tids| && tids[i] == t
    ensures SeeEffect(run[i].sh, run[i].threads[t], run[i + 1].threads[t])
    ensures run[i].threads[t].pc == R(RState) ==> run[i + 1].sh == run[i].sh
  {
    assert StepAt(run, tids, i);
    if run[i].threads[t].pc.R? {
      ReaderSees(run[i].sh, t, run[i].threads[t], run[i + 1].sh, run[i + 1].threads[t]);
    } else {
      OtherSees(run[i].sh, t, run[i].threads[t], run[i + 1].sh, run[i + 1].threads[t]);
    }
  }

  /** In state `k` thread `t` loaded the state it is waiting on in state `i`. */
  ghost predicate LastSeen(run: seq<State>, tids: seq<nat>, t: nat, k: nat, i: nat)
    requires Run(run, tids) && k < i < |run| && t < |run[0].threads|
  {
    && tids[k] == t && run[k].threads[t].pc == R(RState) && run[k + 1].sh == run[k].sh
    && run[i].threads[t].rd.seen == run[k].sh.seqw.sequence
    && (if run[i].threads[t].rd.seen != run[i].threads[t].rd.ls then run[k].sh.seqw.writing
        else run[i].threads[t].rd.block && !run[k].sh.seqw.stopped)
    && WaitsSince(run, t, k, i)
  }

  /** From the load in state `k` on it waited, with the same locals and ticket. */
  ghost predicate WaitsSince(run: seq<State>, t: nat, k: nat, i: nat)
    requires k < i < |run| && forall m :: 0 <= m < |run| ==> t < |run[m].threads|
  {
    forall m :: k < m <= i ==>
      && ReaderWaiting(run[m].threads[t]) && run[m].threads[t].rd == run[i].threads[t].rd
      && run[m].threads[t].ticket == run[i].threads[t].ticket
  }

  lemma {:induction false} SeeOrigin(run: seq<State>, tids: seq<nat>, t: nat, i: nat) returns (k: nat)
    requires Run(run, tids) && i < |run| && t < |run[0].threads| && ReaderWaiting(run[i].threads[t])
    ensures k < i && LastSeen(run, tids, t, k, i)
  {
    assert StepAt(run, tids, i - 1);
    if tids[i - 1] == t {
      SeeAt(run, tids, i - 1, t);
    }
    if tids[i - 1] == t && run[i - 1].threads[t].pc == R(RState) {
      k := i - 1;
    } else {
      k := SeeOrigin(run, tids, t, i - 1);
    }
  }

  // ---------- news ----------

  /** The history is still that of state `k`, or the news has reached the ticket, or is about to. */
  ghost predicate Told(run: seq<State>, t: nat, k: nat, m: nat)
    requires k < |run| && m < |run| && t < |run[m].threads|
  {
    || run[m].sh.pub == run[k].sh.pub
    || run[m].threads[t].ticket < run[m].sh.wcv.ticket
    || Owed(run[m], OwesAddW)
  }

  lemma ToldAt(run: seq<State>, tids: seq<nat>, t: nat, k: nat, m: nat)
    requires Run(run, tids) && k <= m < |tids| && t < |run[0].threads| && Told(run, t, k, m)
    requires run[m + 1].threads[t].ticket == run[m].threads[t].ticket <= run[m].sh.wcv.ticket
    ensures Told(run, t, k, m + 1)
  {
    SafeAlways(run, tids, m);
    SafeAlways(run, tids, m + 1);
    assert StepAt(run, tids, m);
    ActorWakes(run[m], tids[m], run[m + 1]);
    DebtsMove(run[m], tids[m], run[m + 1], OwesAddW);
    Theorems.SequenceClosedForm(run, tids, m);
  }

  lemma {:induction false} ToldSince(run: seq<State>, tids: seq<nat>, t: nat, k: nat, i: nat, m: nat)
    requires Run(run, tids) && k < m <= i < |run| && t < |run[0].threads|
    requires run[k + 1].sh == run[k].sh && WaitsSince(run, t, k, i)
    ensures Told(run, t, k, m)
    decreases m
  {
    if m > k + 1 {
      ToldSince(run, tids, t, k, i, m - 1);
      SafeAlways(run, tids, m - 1);
      assert ReaderWake(run[m - 1].sh, run[m - 1].threads[t], Owed(run[m - 1], OwesAddW), Owed(run[m - 1], OwesWakeW));
      ToldAt(run, tids, t, k, m - 1);
    }
  }

  /** Asleep on the readers' condition variable, not woken since. */
  ghost predicate ReaderAsleep(s: State, t: nat) {
    t < |s.threads| && s.threads[t].pc == R(RSleep) && s.threads[t].stamp == s.sh.wcv.wakes
  }

  /** A sleeping reader that nobody is about to wake has missed no publish since its load. */
  lemma NothingNew(run: seq<State>, tids: seq<nat>, t: nat, k: nat, i: nat)
    requires Run(run, tids) && k < i < |run| && ReaderAsleep(run[i], t) && !Owed(run[i], OwesWakeW)
    requires LastSeen(run, tids, t, k, i)
    ensures run[i].sh.pub == run[k].sh.pub
  {
    ToldSince(run, tids, t, k, i, i);
    SafeAlways(run, tids, i);
    assert ReaderWake(run[i].sh, run[i].threads[t], Owed(run[i], OwesAddW), Owed(run[i], OwesWakeW));
  }

  // ---------- the flag ----------

  /** An aborted write lowered the flag between states `k` and `i`, and nobody has raised it since. */
  ghost predicate Lowered(run: seq<State>, tids: seq<nat>, k: nat, i: nat)
    requires Run(run, tids) && k <= i < |run|
  {
    exists m :: k <= m < i && LowersAt(run, tids, m) && forall n :: m < n <= i ==> !run[n].sh.seqw.writing
  }

  ghost predicate LowersAt(run: seq<State>, tids: seq<nat>, m: nat)
    requires Run(run, tids) && m < |tids|
  {
    run[m].sh.seqw.writing && run[m].threads[tids[m]].pc == W(DrLower)
  }

  ghost predicate WritingEffect(sh: Shared, th: Thread, sh': Shared, th': Thread) {
    && (sh.seqw.writing && !sh'.seqw.writing ==> th.pc == W(DrLower) || |sh'.pub| == |sh.pub| + 1)
    && (th.pc == W(DrLower) ==> !sh'.seqw.writing)
    && (sh'.seqw.writing && !sh.seqw.writing ==> Flagged(th'))
    && (Flagged(th) && !Flagged(th') ==> !sh'.seqw.writing || Drops(th, th'))
    && (th'.pc == W(DrLower) ==> sh'.seqw.stopped)
    && sh.pub <= sh'.pub
    && (sh.seqw.stopped ==> sh'.seqw.stopped)
  }

  lemma EnterFlag(sh: Shared, t: nat, th: Thread, sh': Shared, th': Thread)
    requires th.pc.W? && EnterMoved(sh, t, th, sh', th')
    ensures WritingEffect(sh, th, sh', th')
  {
  }

  lemma GrantFlag(sh: Shared, th: Thread, sh': Shared, th': Thread)
    requires th.pc.W? && GrantMoved(sh, th, sh', th')
    ensures WritingEffect(sh, th, sh', th')
  {
  }

  lemma OtherFlag(sh: Shared, t: nat, th: Thread, sh': Shared, th': Thread)
    requires !th.pc.W? && Moved(sh, t, th, sh', th')
    ensures WritingEffect(sh, th, sh', th')
  {
  }

  lemma FlagAt(run: seq<State>, tids: seq<nat>, i: nat)
    requires Run(run, tids) && i < |tids|
    ensures WritingEffect(run[i].sh, run[i].threads[tids[i]], run[i + 1].sh, run[i + 1].threads[tids[i]])
  {
    assert StepAt(run, tids, i);
    var s, t, s' := run[i], tids[i], run[i + 1];
    if !s.threads[t].pc.W? {
      OtherFlag(s.sh, t, s.threads[t], s'.sh, s'.threads[t]);
    } else if EnterMoved(s.sh, t, s.threads[t], s'.sh, s'.threads[t]) {
      EnterFlag(s.sh, t, s.threads[t], s'.sh, s'.threads[t]);
    } else {
      GrantFlag(s.sh, s.threads[t], s'.sh, s'.threads[t]);
    }
  }

  lemma {:induction false} HistoryGrows(run: seq<State>, tids: seq<nat>, k: nat, i: nat)
    requires Run(run, tids) && k <= i < |run|
    ensures run[k].sh.pub <= run[i].sh.pub
    decreases i
  {
    if k < i {
      HistoryGrows(run, tids, k, i - 1);
      FlagAt(run, tids, i - 1);
    }
  }

  /** With the flag up in state `k` and nothing published since, only an abort can have lowered it. */
  lemma {:induction false} LoweredExactly(run: seq<State>, tids: seq<nat>, k: nat, i: nat)
    requires Run(run, tids) && k <= i < |run| && run[k].sh.seqw.writing && run[i].sh.pub == run[k].sh.pub
    ensures !run[i].sh.seqw.writing <==> Lowered(run, tids, k, i)
    decreases i
  {
    if k < i && !run[i].sh.seqw.writing {
      HistoryGrows(run, tids, k, i - 1);
      FlagAt(run, tids, i - 1);
      if run[i - 1].sh.seqw.writing {
        assert LowersAt(run, tids, i - 1);
      } else {
        LoweredExactly(run, tids, k, i - 1);
      }
    }
  }

  lemma {:induction false} LoweringIsStopped(run: seq<State>, tids: seq<nat>, t: nat, i: nat)
    requires Run(run, tids) && i < |run| && t < |run[0].threads|
    ensures run[i].threads[t].pc == W(DrLower) ==> run[i].sh.seqw.stopped
  {
    if i > 0 {
      LoweringIsStopped(run, tids, t, i - 1);
      FlagAt(run, tids, i - 1);
      assert StepAt(run, tids, i - 1);
    }
  }

  ghost predicate Unclaimed(s: State) {
    s.sh.seqw.writing && forall w :: 0 <= w < |s.threads| ==> !Flagged(s.threads[w])
  }

  /** A write guard was dropped before state `i`, and since then the flag it left up has had nobody behind it. */
  ghost predicate Orphaned(run: seq<State>, tids: seq<nat>, i: nat)
    requires Run(run, tids) && i < |run|
  {
    exists m :: 0 <= m < i && DropsAt(run, tids, m) && forall n :: m < n <= i ==> Unclaimed(run[n])
  }

  /** The flag is up with no writer behind it exactly when a dropped write guard left it so. */
  lemma {:induction false} OrphanedExactly(run: seq<State>, tids: seq<nat>, i: nat)
    requires Run(run, tids) && i < |run|
    ensures Unclaimed(run[i]) <==> Orphaned(run, tids, i)
  {
    if Unclaimed(run[i]) {
      FlagAt(run, tids, i - 1);
      assert StepAt(run, tids, i - 1);
      if Unclaimed(run[i - 1]) {
        OrphanedExactly(run, tids, i - 1);
      } else {
        OnlyActor(run[i - 1], tids[i - 1], run[i]);
        assert DropsAt(run, tids, i - 1);
      }
    }
  }

  lemma OnlyActor(s: State, t: nat, s': State)
    requires t < |s.threads| == |s'.threads| && s'.threads == s.threads[t := s'.threads[t]]
    requires Unclaimed(s') && !Unclaimed(s)
    ensures !s.sh.seqw.writing || Flagged(s.threads[t])
  {
    if w :| 0 <= w < |s.threads| && Flagged(s.threads[w]) {
      assert w != t ==> Flagged(s'.threads[w]);
    }
  }

  // ---------- the theorems ----------

  /** Exactly when a reader is stranded. Take a reader asleep over an unread message, with nobody left who owes
      it a wake-all. Since its load, in state `k`, nothing was published, and the writing flag it waits for
      is down if and only if an aborted write lowered it and nobody raised it again; that takes a stop. */
  lemma StrandedExactly(run: seq<State>, tids: seq<nat>, i: nat, t: nat) returns (k: nat)
    requires Run(run, tids) && i < |run| && ReaderAsleep(run[i], t) && !Owed(run[i], OwesWakeW)
    requires run[i].threads[t].rd.ls != run[i].sh.seqw.sequence
    ensures k < i && LastSeen(run, tids, t, k, i) && run[k].sh.seqw.writing
    ensures run[i].sh.pub == run[k].sh.pub
    ensures !run[i].sh.seqw.writing <==> Lowered(run, tids, k, i)
    ensures !run[i].sh.seqw.writing ==> run[i].sh.seqw.stopped
  {
    k := SeeOrigin(run, tids, t, i);
    UnreadUnowed(run, tids, i, t, k);
    if Lowered(run, tids, k, i) {
      var m :| k <= m < i && LowersAt(run, tids, m);
      LoweringIsStopped(run, tids, tids[m], m);
      StopBounds(run, tids, m, i);
    }
  }

  lemma UnreadUnowed(run: seq<State>, tids: seq<nat>, i: nat, t: nat, k: nat)
    requires Run(run, tids) && k < i < |run| && ReaderAsleep(run[i], t) && !Owed(run[i], OwesWakeW)
    requires run[i].threads[t].rd.ls != run[i].sh.seqw.sequence && LastSeen(run, tids, t, k, i)
    ensures run[k].sh.seqw.writing && run[i].sh.pub == run[k].sh.pub
    ensures !run[i].sh.seqw.writing <==> Lowered(run, tids, k, i)
  {
    NothingNew(run, tids, t, k, i);
    Theorems.SequenceClosedForm(run, tids, i);
    Theorems.SequenceClosedForm(run, tids, k);
    LoweredExactly(run, tids, k, i);
  }

  /** What a reader asleep over an unread message has to wait for: somebody who owes it a wake-all, or a writer
      behind the flag. If there is neither, then either an aborted write lowered the flag since its load, or
      a dropped write guard left the flag up. */
  lemma UnreadIsAttended(run: seq<State>, tids: seq<nat>, i: nat, t: nat) returns (k: nat)
    requires Run(run, tids) && i < |run| && ReaderAsleep(run[i], t)
    requires run[i].threads[t].rd.ls != run[i].sh.seqw.sequence
    ensures k < i && LastSeen(run, tids, t, k, i)
    ensures || (exists o :: 0 <= o < |run[i].threads| && (OwesWakeW(run[i].threads[o]) || Flagged(run[i].threads[o])))
            || Lowered(run, tids, k, i)
            || Orphaned(run, tids, i)
  {
    k := SeeOrigin(run, tids, t, i);
    if !Owed(run[i], OwesWakeW) {
      UnreadUnowed(run, tids, i, t, k);
      OrphanedExactly(run, tids, i);
    }
  }
}
