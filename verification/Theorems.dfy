/** The protocol's promises, each for every state of every run. */
module Theorems {
  import opened Words
  import opened Machine
  import opened Counting
  import opened Exclusion
  import opened History
  import opened Content
  import opened Wakeups
  import opened Safety
  import opened Order
  import opened Traces

  /** Read/write exclusion, including stop-aborts, dropped write guards and failed verifications: no
      verified read guard while any thread has a granted write guard, and never two granted write guards. */
  lemma GuardsExclude(run: seq<State>, tids: seq<nat>, i: nat, a: nat, b: nat)
    requires Run(run, tids) && i < |run| && a < |run[0].threads| && b < |run[0].threads|
    ensures !(HasGuard(run[i].threads[a]) && HasGrant(run[i].threads[b]))
    ensures HasGrant(run[i].threads[a]) && HasGrant(run[i].threads[b]) ==> a == b
  {
    SafeAlways(run, tids, i);
    if HasGrant(run[i].threads[a]) && HasGrant(run[i].threads[b]) {
      LockUnique(run[i], a, b);
    }
  }

  /** Counter conservation: `active_readers` is the number of registered threads and never wraps;
      `data_consumed` is, outside the publish window, the number of guards of the current message released,
      as a `u16`. */
  lemma CountersConserved(run: seq<State>, tids: seq<nat>, i: nat)
    requires Run(run, tids) && i < |run|
    ensures run[i].sh.readers.active == |Where(run[i].threads, Registered)| < U16_MOD
    ensures (forall w :: 0 <= w < |run[i].threads| ==> !InWindow(run[i].threads[w])) ==>
              run[i].sh.readers.consumed == run[i].sh.released % U16_MOD
  {
    SafeAlways(run, tids, i);
    WhereBound(run[i].threads, Registered);
  }

  /** After `n` publishes by any interleaving of writers the sequence is `SequenceOf(n)`: no publish is
      lost, it is 0 only before the first, and a publish always changes it. */
  lemma SequenceClosedForm(run: seq<State>, tids: seq<nat>, i: nat)
    requires Run(run, tids) && i < |run|
    ensures run[i].sh.seqw.sequence == SequenceOf(|run[i].sh.pub|)
    ensures run[i].sh.seqw.sequence == 0 <==> run[i].sh.pub == []
    ensures i < |tids| && run[i + 1].sh.pub != run[i].sh.pub ==>
              && |run[i + 1].sh.pub| == |run[i].sh.pub| + 1
              && run[i + 1].sh.seqw.sequence != run[i].sh.seqw.sequence
  {
    SafeAlways(run, tids, i);
    if i < |tids| {
      assert StepAt(run, tids, i);
      HistoryStep(run[i], tids[i], run[i + 1]);
      SequenceNext(|run[i].sh.pub|);
    }
  }

  lemma HeldAt(run: seq<State>, tids: seq<nat>, i: nat, t: nat)
    requires Run(run, tids) && i < |tids| && t < |run[0].threads|
    requires HasGuard(run[i].threads[t]) && HasGuard(run[i + 1].threads[t])
    ensures run[i + 1].sh.pub == run[i].sh.pub && Data(run[i + 1].sh.mem) == Data(run[i].sh.mem)
    ensures Exposed(run, tids, i + 1) <==> Exposed(run, tids, i)
  {
    SafeAlways(run, tids, i);
    SafeAlways(run, tids, i + 1);
    FlagsRecord(run, tids, i);
    FlagsRecord(run, tids, i + 1);
    assert StepAt(run, tids, i);
    HistoryStep(run[i], tids[i], run[i + 1]);
    ContentMoved(run[i], tids[i], run[i + 1]);
    assert GuardContent(run[i].sh.mem, run[i].threads[t]);
  }

  /** Snapshot consistency: while a guard is held, from state `i` to state `j`, nothing is published and
      `data()` does not change. It is the payload published under the guard's sequence number, unless an
      aborted write had lowered the flag over a buffer that a dropped write guard left touched. That is
      decided when the guard is obtained, and it is exactly when the buffer was touched at all since the
      publish. */
  lemma {:induction false} SnapshotHolds(run: seq<State>, tids: seq<nat>, i: nat, j: nat, t: nat)
    requires Run(run, tids) && i <= j < |run| && t < |run[0].threads|
    requires forall k :: i <= k <= j ==> HasGuard(run[k].threads[t])
    ensures run[j].sh.pub == run[i].sh.pub && Data(run[j].sh.mem) == Data(run[i].sh.mem)
    ensures run[j].threads[t].hd.lastIdx == |run[j].sh.pub|
    ensures run[j].threads[t].rd.seen == SequenceOf(|run[j].sh.pub|)
    ensures !Exposed(run, tids, i) ==> Data(run[j].sh.mem) == Payload(run[j].sh.pub, |run[j].sh.pub|)
    ensures Exposed(run, tids, i) <==> Exposed(run, tids, j)
    ensures Exposed(run, tids, j) <==> Touched(run, tids, j)
    ensures Exposed(run, tids, i) ==> Dropped(run, tids, i)
    decreases j
  {
    GuardIsCurrent(run, tids, j, t);
    if i < j {
      SnapshotHolds(run, tids, i, j - 1, t);
      HeldAt(run, tids, j - 1, t);
    }
  }

  lemma GuardIsCurrent(run: seq<State>, tids: seq<nat>, i: nat, t: nat)
    requires Run(run, tids) && i < |run| && t < |run[0].threads| && HasGuard(run[i].threads[t])
    ensures run[i].threads[t].hd.lastIdx == |run[i].sh.pub|
    ensures run[i].threads[t].rd.seen == SequenceOf(|run[i].sh.pub|)
    ensures !Exposed(run, tids, i) ==> Data(run[i].sh.mem) == Payload(run[i].sh.pub, |run[i].sh.pub|)
    ensures Exposed(run, tids, i) <==> Touched(run, tids, i)
    ensures Exposed(run, tids, i) ==> Dropped(run, tids, i)
  {
    SafeAlways(run, tids, i);
    FlagsRecord(run, tids, i);
    assert HistoryLocal(run[i].sh, run[i].threads[t]) && GuardContent(run[i].sh.mem, run[i].threads[t]);
  }

  /** `write_slice` publishes exactly its data, although it copies it byte by byte. */
  lemma SlicePublished(run: seq<State>, tids: seq<nat>, i: nat)
    requires Run(run, tids) && i < |tids| && run[i + 1].sh.pub != run[i].sh.pub
    ensures var job := run[i].threads[tids[i]].wr.job;
            job.Slice? ==> run[i + 1].sh.pub == run[i].sh.pub + [job.data]
  {
    SafeAlways(run, tids, i);
    assert StepAt(run, tids, i);
    HistoryStep(run[i], tids[i], run[i + 1]);
    assert GrantContent(run[i].sh.mem, run[i].threads[tids[i]]);
  }

  /** A disciplined reader, such as a handle's background reader thread, receives a subsequence of the
      publish history in publish order and no message twice, under any policy. */
  lemma ReceivedInOrder(run: seq<State>, tids: seq<nat>, t: nat, i: nat)
    requires Run(run, tids) && i < |run| && t < |run[0].threads| && DisciplinedRun(run, tids, t)
    ensures var got := run[i].threads[t].hd.got;
            && (forall a, b :: 0 <= a < b < |got| ==> got[a].index < got[b].index)
            && (forall a :: 0 <= a < |got| ==> 1 <= got[a].index <= |run[i].sh.pub|)
            && (!Dropped(run, tids, i) ==>
                  forall a :: 0 <= a < |got| ==> got[a].bytes == run[i].sh.pub[got[a].index - 1])
  {
    OrderAlways(run, tids, t, i);
    ReceiptsAt(run, tids, t, i);
  }

  lemma ReceiptsAt(run: seq<State>, tids: seq<nat>, t: nat, i: nat)
    requires Run(run, tids) && i < |run| && t < |run[0].threads|
    ensures !Dropped(run, tids, i) ==> ReceiptsOk(run[i].sh.pub, run[i].threads[t].hd.got)
  {
    SafeAlways(run, tids, i);
    FlagsRecord(run, tids, i);
  }

  /** `read` returns a guard only for a message other than the last seen one, and a non-blocking `read`
      never waits for new data: if it waits at all, there is a message other than the last seen one. */
  lemma ReadReturnsNews(run: seq<State>, tids: seq<nat>, i: nat, t: nat)
    requires Run(run, tids) && i < |run| && t < |run[0].threads|
    ensures var th := run[i].threads[t];
            && (HasGuard(th) ==> th.rd.ls != run[i].sh.seqw.sequence)
            && (ReaderWaiting(th) && !th.rd.block ==> th.rd.seen != th.rd.ls)
  {
    SafeAlways(run, tids, i);
    assert HistoryLocal(run[i].sh, run[i].threads[t]);
  }

  // ---------- wake-ups ----------

  /** No lost wake-up for writers: a writer asleep in either wait loop with stop set, or asleep in the drain
      with no reader active, or asleep for consumption with no reader active and the counter moved on since
      the later of its look and its ticket, is still owed a wake-all. */
  lemma WriterIsWoken(run: seq<State>, tids: seq<nat>, i: nat, t: nat) returns (o: nat)
    requires Run(run, tids) && i < |run| && t < |run[0].threads|
    requires WriterAsleep(run[i].threads[t]) && run[i].threads[t].stamp == run[i].sh.rcv.wakes
    requires WriterCalled(run[i].sh, run[i].threads[t])
    ensures o < |run[i].threads| && OwesWakeR(run[i].threads[o])
  {
    SafeAlways(run, tids, i);
    var s := run[i];
    assert WriterWake(s.sh, s.threads[t], Owed(s, OwesAddR), Owed(s, OwesWakeR));
    assert Owed(s, OwesAddR) ==> Owed(s, OwesWakeR);
    o :| 0 <= o < |s.threads| && OwesWakeR(s.threads[o]);
  }

  /** No lost wake-up for readers: a reader asleep although there is a message other than the one it saw when it
      went to wait, or although stop was set while it had nothing new, is still owed a wake-all by a
      publisher, a stopper or a kicking writer. `Stranded` has the reader that waits for a write to end. */
  lemma ReaderIsWoken(run: seq<State>, tids: seq<nat>, i: nat, t: nat) returns (o: nat)
    requires Run(run, tids) && i < |run| && t < |run[0].threads|
    requires run[i].threads[t].pc == R(RSleep) && run[i].threads[t].stamp == run[i].sh.wcv.wakes
    requires ReaderCalled(run[i].sh, run[i].threads[t])
    ensures o < |run[i].threads| && OwesWakeW(run[i].threads[o])
  {
    SafeAlways(run, tids, i);
    var s := run[i];
    assert ReaderWake(s.sh, s.threads[t], Owed(s, OwesAddW), Owed(s, OwesWakeW));
    assert Owed(s, OwesAddW) ==> Owed(s, OwesWakeW);
    o :| 0 <= o < |s.threads| && OwesWakeW(s.threads[o]);
  }

  /** About to do something on its own: in the middle of an update, a notification or a verification. */
  predicate Busy(th: Thread) { th.pc.U? || th.pc.N? || th.pc == R(RVerify) }

  /** The drain never waits for nobody: while a writer sleeps in it some thread is busy or holds a read guard. */
  lemma DrainWaitsForSomeone(run: seq<State>, tids: seq<nat>, i: nat, t: nat) returns (o: nat)
    requires Run(run, tids) && i < |run| && t < |run[0].threads|
    requires run[i].threads[t].pc == W(DrSleep) && run[i].threads[t].stamp == run[i].sh.rcv.wakes
    ensures o < |run[i].threads| && (Busy(run[i].threads[o]) || run[i].threads[o].pc == R(RGuard))
  {
    if run[i].sh.readers.active == 0 {
      o := WriterIsWoken(run, tids, i, t);
    } else {
      CountersConserved(run, tids, i);
      o :| o in Where(run[i].threads, Registered);
    }
  }
}
