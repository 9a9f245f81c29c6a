/** What a write call comes to: a write guard publishes exactly when the size given fits, stopped or not, and
    the slices a thread writes are published in the order it writes them. */
module Publishing {
  import opened Words
  import opened Machine
  import opened Exclusion
  import opened History
  import opened Content
  import opened Safety
  import opened Progress

  // ---------- publish ----------

  /** Inside `publish_write`. */
  predicate Finishing(th: Thread) { HasGrant(th) && th.pc != W(Granted) }

  ghost predicate FinishEffect(sh: Shared, th: Thread, sh': Shared, th': Thread) {
    || (Finishing(th') && sh'.pub == sh.pub && sh'.mem.buffer == sh.mem.buffer && th'.wr.len == th.wr.len)
    || (InWindow(th) && th'.pc == N(NewData, false) && sh'.pub == sh.pub + [Data(sh.mem)])
  }

  lemma ActorFinishes(sh: Shared, t: nat, th: Thread, sh': Shared, th': Thread)
    requires Finishing(th) && Moved(sh, t, th, sh', th')
    ensures FinishEffect(sh, th, sh', th')
  {
  }

  /** One step of anyone, seen by a thread inside `publish_write`: it stays there, with the buffer and the
      history untouched, or it publishes the size it was given. */
  lemma FinishAt(run: seq<State>, tids: seq<nat>, i: nat, t: nat)
    requires Run(run, tids) && i < |tids| && t < |run[0].threads| && Finishing(run[i].threads[t])
    ensures var sh, th, sh', th' := run[i].sh, run[i].threads[t], run[i + 1].sh, run[i + 1].threads[t];
            || (Finishing(th') && sh'.pub == sh.pub && sh'.mem.buffer == sh.mem.buffer && th'.wr.len == th.wr.len)
            || (&& tids[i] == t && !HasGrant(th') && th.wr.len <= |sh.mem.buffer|
                && sh'.pub == sh.pub + [sh.mem.buffer[..th.wr.len]])
  {
    var s, a, s' := run[i], tids[i], run[i + 1];
    SafeAlways(run, tids, i);
    assert StepAt(run, tids, i);
    if a == t {
      ActorFinishes(s.sh, t, s.threads[t], s'.sh, s'.threads[t]);
      assert GrantContent(s.sh.mem, s.threads[t]);
    } else {
      HistoryStep(s, a, s');
      ContentMoved(s, a, s');
      if HasGrant(s.threads[a]) {
        LockUnique(s, a, t);
      }
    }
  }

  /** In state `i` thread `t` calls `publish` on its write guard with the given size, and state `j` is the
      first in which it has no granted guard any more. */
  ghost predicate PublishSpan(run: seq<State>, tids: seq<nat>, i: nat, j: nat, t: nat, size: nat)
    requires Run(run, tids)
  {
    && i < j < |run| && t < |run[0].threads| && tids[i] == t
    && run[i].threads[t].pc == W(Granted)
    && PublishCalled(run[i].sh, run[i].threads[t], size, run[i + 1].sh, run[i + 1].threads[t])
    && (forall k :: i < k < j ==> HasGrant(run[k].threads[t]))
    && !HasGrant(run[j].threads[t])
  }

  lemma {:induction false} StillFinishing(run: seq<State>, tids: seq<nat>, i: nat, j: nat, k: nat, t: nat, size: nat)
    requires Run(run, tids) && PublishSpan(run, tids, i, j, t, size) && i < k < j
    ensures Finishing(run[k].threads[t]) && run[k].threads[t].wr.len == size
    ensures run[k].sh.pub == run[i].sh.pub && run[k].sh.mem.buffer == run[i].sh.mem.buffer
    decreases k
  {
    if k > i + 1 {
      StillFinishing(run, tids, i, j, k - 1, t, size);
      FinishAt(run, tids, k - 1, t);
    }
  }

  /** `publish` appends exactly the first `size` bytes of the buffer as they were at the call, and does so if
      and only if `size` fits the capacity. Whether stop is set, before the call or meanwhile, does not
      matter. */
  lemma PublishExactly(run: seq<State>, tids: seq<nat>, i: nat, j: nat, t: nat, size: nat)
    requires Run(run, tids) && PublishSpan(run, tids, i, j, t, size)
    ensures size <= |run[i].sh.mem.buffer| ==> run[j].sh.pub == run[i].sh.pub + [run[i].sh.mem.buffer[..size]]
    ensures run[j].sh.pub != run[i].sh.pub <==> size <= |run[i].sh.mem.buffer|
  {
    if size <= |run[i].sh.mem.buffer| {
      StillFinishing(run, tids, i, j, j - 1, t, size);
      FinishAt(run, tids, j - 1, t);
      assert |run[j].sh.pub| == |run[i].sh.pub| + 1;
    }
  }

  // ---------- write_slice ----------

  /** Calls `write_slice` or `write`; a call that finds stop set returns at once. */
  predicate Calls(th: Thread, th': Thread) { th.pc == Idle && (th'.pc == Idle || th'.pc == W(Lock)) }

  predicate Fits(job: Job, capacity: nat) { job.Slice? && |job.data| <= capacity }

  function JobData(job: Job): seq<Byte> { if job.Slice? then job.data else [] }

  /** What thread `t` was asked to write by state `i`, in order. */
  ghost function Asked(run: seq<State>, tids: seq<nat>, t: nat, i: nat): seq<seq<Byte>>
    requires Run(run, tids) && i < |run| && t < |run[0].threads|
  {
    if i == 0 then []
    else Asked(run, tids, t, i - 1)
         + if tids[i - 1] == t && Calls(run[i - 1].threads[t], run[i].threads[t])
           then [JobData(run[i].threads[t].wr.job)] else []
  }

  /** What thread `t` has published by state `i`, in order. */
  ghost function Output(run: seq<State>, tids: seq<nat>, t: nat, i: nat): seq<seq<Byte>>
    requires Run(run, tids) && i < |run| && t < |run[0].threads|
  {
    if i == 0 then []
    else Output(run, tids, t, i - 1)
         + if tids[i - 1] == t && |run[i - 1].sh.pub| < |run[i].sh.pub|
           then [run[i].sh.pub[|run[i - 1].sh.pub|]] else []
  }

  ghost predicate CallFits(run: seq<State>, tids: seq<nat>, t: nat, i: nat)
    requires Run(run, tids) && i < |tids| && t < |run[0].threads|
  {
    tids[i] == t && Calls(run[i].threads[t], run[i + 1].threads[t]) ==>
      Fits(run[i + 1].threads[t].wr.job, |run[0].sh.mem.buffer|)
  }

  /** Thread `t` writes only slices, and only such as fit: a background writer, whose handle refuses others. */
  ghost predicate SliceWriter(run: seq<State>, tids: seq<nat>, t: nat)
    requires Run(run, tids) && t < |run[0].threads|
  {
    forall i :: 0 <= i < |tids| ==> CallFits(run, tids, t, i)
  }

  ghost predicate Phase(sh: Shared, th: Thread, asked: seq<seq<Byte>>, output: seq<seq<Byte>>) {
    && (InFlight(th) ==>
          && Fits(th.wr.job, |sh.mem.buffer|)
          && asked == output + [th.wr.job.data]
          && (th.pc == W(DrLower) ==> sh.seqw.stopped))
    && (!InFlight(th) ==> output <= asked && (asked == output || sh.seqw.stopped))
  }

  ghost predicate SliceEffect(sh: Shared, th: Thread, sh': Shared, th': Thread) {
    && (Calls(th, th') ==> sh' == sh && (th'.pc == Idle <==> sh.seqw.stopped) && !InFlight(th))
    && (InFlight(th') && !Calls(th, th') ==>
          && InFlight(th) && th'.wr.job == th.wr.job && sh'.pub == sh.pub
          && (th'.pc == W(DrLower) ==> sh'.seqw.stopped))
    && (!InFlight(th') && InFlight(th) ==>
          || (InWindow(th) && sh'.pub == sh.pub + [Data(sh.mem)])
          || (sh'.pub == sh.pub && sh'.seqw.stopped))
    && (!InFlight(th) ==> sh'.pub == sh.pub)
    && (sh.seqw.stopped ==> sh'.seqw.stopped)
    && |sh'.mem.buffer| == |sh.mem.buffer|
  }

  lemma EnterSlices(sh: Shared, t: nat, th: Thread, sh': Shared, th': Thread)
    requires th.pc.W? && EnterMoved(sh, t, th, sh', th')
    ensures SliceEffect(sh, th, sh', th')
  {
  }

  lemma GrantSlices(sh: Shared, th: Thread, sh': Shared, th': Thread)
    requires th.pc.W? && GrantMoved(sh, th, sh', th')
    requires Fits(th.wr.job, |sh.mem.buffer|) && (th.pc == W(DrLower) ==> sh.seqw.stopped)
    ensures SliceEffect(sh, th, sh', th')
  {
  }

  lemma OtherSlices(sh: Shared, t: nat, th: Thread, sh': Shared, th': Thread)
    requires !th.pc.W? && Moved(sh, t, th, sh', th')
    ensures SliceEffect(sh, th, sh', th')
  {
  }

  lemma PhaseMoves(sh: Shared, th: Thread, sh': Shared, th': Thread, asked: seq<seq<Byte>>, output: seq<seq<Byte>>)
    requires Phase(sh, th, asked, output) && SliceEffect(sh, th, sh', th')
    requires InWindow(th) ==> Data(sh.mem) == th.wr.job.data
    requires Calls(th, th') ==> Fits(th'.wr.job, |sh.mem.buffer|)
    ensures |sh.pub| <= |sh'.pub|
    ensures Phase(sh', th',
                  asked + (if Calls(th, th') then [JobData(th'.wr.job)] else []),
                  output + (if |sh.pub| < |sh'.pub| then [sh'.pub[|sh.pub|]] else []))
  {
    assert asked + [] == asked && output + [] == output;
  }

  lemma WriterKeeps(sh: Shared, t: nat, th: Thread, sh': Shared, th': Thread)
    requires th.pc.W? && Moved(sh, t, th, sh', th')
    ensures |sh'.mem.buffer| == |sh.mem.buffer| && (sh.seqw.stopped ==> sh'.seqw.stopped)
  {
  }

  /** A step of another thread. */
  lemma PhaseStays(s: State, t: nat, s': State, th: Thread, asked: seq<seq<Byte>>, output: seq<seq<Byte>>)
    requires Step(s, t, s') && Phase(s.sh, th, asked, output)
    ensures Phase(s'.sh, th, asked, output) && |s'.sh.mem.buffer| == |s.sh.mem.buffer|
  {
    if s.threads[t].pc.W? {
      WriterKeeps(s.sh, t, s.threads[t], s'.sh, s'.threads[t]);
    } else {
      OtherSlices(s.sh, t, s.threads[t], s'.sh, s'.threads[t]);
    }
  }

  lemma ActorSlices(s: State, t: nat, s': State)
    requires Safe(s) && Step(s, t, s')
    requires InFlight(s.threads[t]) ==> Fits(s.threads[t].wr.job, |s.sh.mem.buffer|)
    requires s.threads[t].pc == W(DrLower) ==> s.sh.seqw.stopped
    ensures SliceEffect(s.sh, s.threads[t], s'.sh, s'.threads[t])
    ensures InWindow(s.threads[t]) ==> Data(s.sh.mem) == s.threads[t].wr.job.data
  {
    var sh, th, sh', th' := s.sh, s.threads[t], s'.sh, s'.threads[t];
    assert GrantContent(sh.mem, th);
    if !th.pc.W? {
      OtherSlices(sh, t, th, sh', th');
    } else if EnterMoved(sh, t, th, sh', th') {
      EnterSlices(sh, t, th, sh', th');
    } else {
      GrantSlices(sh, th, sh', th');
    }
  }

  ghost predicate PhaseInv(run: seq<State>, tids: seq<nat>, t: nat, i: nat)
    requires Run(run, tids) && i < |run| && t < |run[0].threads|
  {
    && Phase(run[i].sh, run[i].threads[t], Asked(run, tids, t, i), Output(run, tids, t, i))
    && |run[i].sh.mem.buffer| == |run[0].sh.mem.buffer|
  }

  lemma PhaseAt(run: seq<State>, tids: seq<nat>, t: nat, i: nat)
    requires Run(run, tids) && i < |tids| && t < |run[0].threads| && CallFits(run, tids, t, i)
    requires PhaseInv(run, tids, t, i)
    ensures PhaseInv(run, tids, t, i + 1)
  {
    var s, s' := run[i], run[i + 1];
    var asked, output := Asked(run, tids, t, i), Output(run, tids, t, i);
    assert StepAt(run, tids, i);
    PhaseStays(s, tids[i], s', s.threads[t], asked, output);
    if tids[i] == t {
      SafeAlways(run, tids, i);
      ActorSlices(s, t, s');
      PhaseMoves(s.sh, s.threads[t], s'.sh, s'.threads[t], asked, output);
    }
  }

  lemma {:induction false} PhaseAlways(run: seq<State>, tids: seq<nat>, t: nat, i: nat)
    requires Run(run, tids) && i < |run| && t < |run[0].threads| && SliceWriter(run, tids, t)
    ensures PhaseInv(run, tids, t, i)
  {
    if i > 0 {
      PhaseAlways(run, tids, t, i - 1);
      assert CallFits(run, tids, t, i - 1);
      PhaseAt(run, tids, t, i - 1);
    }
  }

  /** A thread that writes slices publishes a prefix of what it was asked to write, in order and each once.
      Until stop nothing is missing but the slice in flight, so a `write_slice` of fitting data that
      returns has published it, or stop is set. */
  lemma SlicesInOrder(run: seq<State>, tids: seq<nat>, t: nat, i: nat)
    requires Run(run, tids) && i < |run| && t < |run[0].threads| && SliceWriter(run, tids, t)
    ensures Output(run, tids, t, i) <= Asked(run, tids, t, i)
    ensures !run[i].sh.seqw.stopped ==>
              Asked(run, tids, t, i) ==
              Output(run, tids, t, i) + if InFlight(run[i].threads[t]) then [JobData(run[i].threads[t].wr.job)] else []
  {
    PhaseAlways(run, tids, t, i);
  }

  // ---------- the threads of one handle ----------

  ghost predicate CallsLate(run: seq<State>, tids: seq<nat>, t: nat, i: nat)
    requires Run(run, tids) && i < |tids| && t < |run[0].threads|
  {
    tids[i] == t && Calls(run[i].threads[t], run[i + 1].threads[t]) ==> run[i].sh.seqw.stopped
  }

  /** Every write call of thread `t` comes after stop. */
  ghost predicate LateWriter(run: seq<State>, tids: seq<nat>, t: nat)
    requires Run(run, tids) && t < |run[0].threads|
  {
    forall i :: 0 <= i < |tids| ==> CallsLate(run, tids, t, i)
  }

  lemma LateAt(run: seq<State>, tids: seq<nat>, t: nat, i: nat)
    requires Run(run, tids) && i < |tids| && t < |run[0].threads|
    requires !InFlight(run[i].threads[t]) && CallsLate(run, tids, t, i)
    ensures !InFlight(run[i + 1].threads[t]) && (tids[i] == t ==> run[i + 1].sh.pub == run[i].sh.pub)
  {
    assert StepAt(run, tids, i);
    if tids[i] == t {
      SafeAlways(run, tids, i);
      ActorSlices(run[i], t, run[i + 1]);
    }
  }

  /** A thread that calls only after stop publishes nothing. */
  lemma {:induction false} LateIsSilent(run: seq<State>, tids: seq<nat>, t: nat, i: nat)
    requires Run(run, tids) && i < |run| && t < |run[0].threads| && LateWriter(run, tids, t)
    ensures !InFlight(run[i].threads[t]) && Output(run, tids, t, i) == []
  {
    if i > 0 {
      LateIsSilent(run, tids, t, i - 1);
      assert CallsLate(run, tids, t, i - 1);
      LateAt(run, tids, t, i - 1);
    }
  }

  /** The background threads of one handle, oldest first, with what each queue accepted: a thread writes what
      its queue accepted, in order, and every thread but the first belongs to a queue opened after stop. */
  ghost predicate Background(run: seq<State>, tids: seq<nat>, workers: seq<nat>, accepted: seq<seq<seq<Byte>>>, i: nat)
    requires Run(run, tids) && i < |run|
  {
    && |workers| == |accepted| && (forall c :: 0 <= c < |workers| ==> workers[c] < |run[0].threads|)
    && (forall c :: 0 <= c < |workers| ==>
          SliceWriter(run, tids, workers[c]) && Asked(run, tids, workers[c], i) <= accepted[c])
    && forall c :: 1 <= c < |workers| ==> LateWriter(run, tids, workers[c])
  }

  /** What the handle's threads have published, queue after queue. */
  ghost function Outputs(run: seq<State>, tids: seq<nat>, workers: seq<nat>, i: nat): seq<seq<Byte>>
    requires Run(run, tids) && i < |run| && forall c :: 0 <= c < |workers| ==> workers[c] < |run[0].threads|
  {
    if workers == [] then []
    else Outputs(run, tids, workers[..|workers| - 1], i) + Output(run, tids, workers[|workers| - 1], i)
  }

  function Flattened(accepted: seq<seq<seq<Byte>>>): seq<seq<Byte>> {
    if accepted == [] then [] else Flattened(accepted[..|accepted| - 1]) + accepted[|accepted| - 1]
  }

  /** The payloads an asynchronous handle has published in the shared history are a prefix of the ones its
      queues accepted, also across queues closed by stop and opened after it. */
  lemma {:induction false} HandleInOrder(
    run: seq<State>, tids: seq<nat>, workers: seq<nat>, accepted: seq<seq<seq<Byte>>>, i: nat)
    requires Run(run, tids) && i < |run| && Background(run, tids, workers, accepted, i)
    ensures Outputs(run, tids, workers, i) <= Flattened(accepted)
    decreases |workers|
  {
    if workers != [] {
      var n := |workers| - 1;
      HandleInOrder(run, tids, workers[..n], accepted[..n], i);
      if n == 0 {
        SlicesInOrder(run, tids, workers[0], i);
      } else {
        LateIsSilent(run, tids, workers[n], i);
      }
    }
  }
}
