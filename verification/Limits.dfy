/** Where the code stops short, shown by reachable states: the backpressure wait can miss a release, or wait on
    for a reader it has no need of; `publish` does not heed stop; an aborted write or a dropped write guard can
    leave a reader asleep over an unread message; and both together can end in a torn snapshot. */
module Limits {
  import opened Words
  import opened Machine
  import opened Exclusion
  import opened History
  import opened Content
  import opened Wakeups
  import opened Backpressure
  import opened Stranded
  import opened Solo

  ghost predicate Reached(s: State) {
    exists run, tids :: Run(run, tids) && run[|tids|] == s
  }

  lemma Begin(s: State)
    requires Init(s)
    ensures Reached(s)
  {
    assert Run([s], []);
  }

  lemma Extend(s: State, t: nat, s': State)
    requires Reached(s) && Step(s, t, s')
    ensures Reached(s')
  {
    var run, tids :| Run(run, tids) && run[|tids|] == s;
    LongerRun(run, tids, t, s');
    assert (run + [s'])[|tids + [t]|] == s';
  }

  /** What thread `t` sees of a state. */
  function Own(s: State, t: nat): Local
    requires t < |s.threads|
  {
    Local(s.sh, s.threads[t])
  }

  lemma {:induction false} FollowPath(s: State, t: nat, path: seq<Local>)
    requires Reached(s) && t < |s.threads| && Path(t, path) && path[0] == Own(s, t)
    ensures Reached(State(path[|path| - 1].sh, s.threads[t := path[|path| - 1].th]))
    decreases |path|
  {
    var n := |path| - 1;
    if n == 0 {
      assert s.threads[t := s.threads[t]] == s.threads;
    } else {
      FollowPath(s, t, path[..n]);
      var before := State(path[n - 1].sh, s.threads[t := path[n - 1].th]);
      var after := State(path[n].sh, s.threads[t := path[n].th]);
      assert after.threads == before.threads[t := after.threads[t]];
      Extend(before, t, after);
    }
  }

  /** What a thread reaches alone is reached. */
  lemma Follow(s: State, t: nat, b: Local) returns (s': State)
    requires Reached(s) && t < |s.threads| && Alone(t, Own(s, t), b)
    ensures Reached(s') && s' == State(b.sh, s.threads[t := b.th])
  {
    var path: seq<Local> :| Path(t, path) && path[0] == Own(s, t) && path[|path| - 1] == b;
    FollowPath(s, t, path);
    s' := State(b.sh, s.threads[t := b.th]);
  }

  /** Only thread `t` has moved. */
  predicate Only(s: State, t: nat, s': State) {
    t < |s.threads| == |s'.threads| && s'.threads == s.threads[t := s'.threads[t]]
  }

  // ---------- where the scenes start ----------

  predicate Fresh(th: Thread) { th.pc == Idle && th.hd.lastSeen == 0 }

  lemma Zeroed(n: nat) returns (s: State)
    requires n < U16_MOD
    ensures Reached(s) && Init(s) && |s.threads| == n && s.sh.mem.buffer == [0]
  {
    var none := ReadersState(0, 0, 0, 0);
    var wr := WriteCall(Guard, 0, 0, 0, none, SequenceState(0, false, false), 0);
    var th := Thread(Idle, ReadCall(0, false, 0, None, []), wr, 0, 0, Handle(0, 0, []));
    var sh := Shared(SequenceState(0, false, false), none, Memory(0, [0], false, false, false), None,
                     Condvar(0, 0), Condvar(0, 0), [], 0);
    s := State(sh, seq(n, _ => th));
    Begin(s);
  }

  /** The first message, one byte, published by thread 0. */
  lemma FirstMessage(s: State) returns (s': State)
    requires Reached(s) && s.threads != [] && s.threads[0].pc == Idle
    requires s.sh.seqw == SequenceState(0, false, false) && s.sh.lock == None && s.sh.readers.active == 0
    requires |s.sh.mem.buffer| == 1 && s.sh.pub == []
    ensures Reached(s') && Only(s, 0, s')
    ensures s'.threads[0].pc == Idle && s'.threads[0].hd == s.threads[0].hd
    ensures s'.sh.seqw == SequenceState(1, false, false) && s'.sh.lock == None
    ensures s'.sh.readers == s.sh.readers.(consumed := 0)
    ensures s'.sh.mem.buffer == [7] && s'.sh.mem.size == 1 && s'.sh.pub == [[7]]
  {
    var b := StartWriteAlone(0, Own(s, 0), Slice([7]));
    var c := SliceAlone(0, b);
    Then(0, Own(s, 0), b, c);
    s' := Follow(s, 0, c);
    assert [7] + b.sh.mem.buffer[1..] == [7];
  }

  /** A message over which no reader counts for anything, and `n` threads. */
  lemma OneMessage(n: nat) returns (s: State)
    requires 0 < n < U16_MOD
    ensures Reached(s) && |s.threads| == n && forall t :: 0 <= t < n ==> Fresh(s.threads[t])
    ensures s.sh.seqw == SequenceState(1, false, false) && s.sh.lock == None
    ensures s.sh.readers == ReadersState(0, 0, 0, 0)
    ensures s.sh.mem.buffer == [7] && s.sh.mem.size == 1 && s.sh.pub == [[7]]
  {
    var s1 := Zeroed(n);
    s := FirstMessage(s1);
  }

  /** Target and consumers both one, and a message to be consumed. */
  lemma OneReader(n: nat) returns (s: State)
    requires 2 <= n < U16_MOD
    ensures Reached(s) && |s.threads| == n && forall t :: 0 <= t < n ==> Fresh(s.threads[t])
    ensures s.sh.seqw == SequenceState(1, false, false) && s.sh.lock == None
    ensures s.sh.readers == ReadersState(1, 1, 0, 0)
  {
    var s0 := Zeroed(n);
    var b := SetTargetAlone(0, Own(s0, 0), 1);
    var s1 := Follow(s0, 0, b);
    var c := AddReaderAlone(1, Own(s1, 1));
    var s2 := Follow(s1, 1, c);
    s := FirstMessage(s2);
  }

  /** A blocking `read(0)` by thread `t`. */
  lemma Reads(s: State, t: nat) returns (s': State)
    requires Reached(s) && t < |s.threads| && Fresh(s.threads[t]) && s.sh.readers.active < U16_MOD - 1
    ensures Reached(s') && Only(s, t, s')
    ensures ReadDone(Own(s, t), 0, true, Own(s', t))
  {
    var b := ReadAlone(t, Own(s, t), 0, true);
    s' := Follow(s, t, b);
  }

  /** A guard dropped by thread `t`. */
  lemma Drops(s: State, t: nat) returns (s': State)
    requires Reached(s) && t < |s.threads| && s.threads[t].pc == R(RGuard) && s.threads[t].rd.view == None
    requires 0 < s.sh.readers.active < U16_MOD && s.sh.readers.consumed < U16_MOD
    ensures Reached(s') && s' == State(s'.sh, s.threads[t := s.threads[t].(pc := Idle)])
    ensures var r := s.sh.readers;
            s'.sh == s.sh.(readers := r.(active := r.active - 1, consumed := (r.consumed + 1) % U16_MOD),
                           released := s.sh.released + 1,
                           rcv := if r.active == 1 then Rung(s.sh.rcv) else s.sh.rcv)
  {
    var b := First(t, Own(s, t), s.sh, s.threads[t].(pc := U(Release, None)));
    var c := DropAlone(t, b);
    Then(t, Own(s, t), b, c);
    s' := Follow(s, t, c);
  }

  /** A write started by thread 0 with a write guard in view. */
  lemma Starts(s: State) returns (s': State)
    requires Reached(s) && s.threads != [] && s.threads[0].pc == Idle
    requires s.sh.lock == None && !s.sh.seqw.stopped
    ensures Reached(s') && Only(s, 0, s')
    ensures s'.threads[0].wr.job == Guard && s'.threads[0].hd == s.threads[0].hd
    ensures EnterDone(Local(s.sh.(lock := Some(0)), s'.threads[0]), Own(s', 0))
  {
    var b := StartWriteAlone(0, Own(s, 0), Guard);
    s' := Follow(s, 0, b);
  }

  // ---------- forgotten writers ----------

  /** A write call of thread 0 that has looked at the counters and not taken its ticket yet. */
  lemma EarlyLook(s: State) returns (s': State)
    requires Reached(s) && s.threads != [] && s.threads[0].pc == Idle && s.sh.lock == None && !s.sh.seqw.stopped
    requires s.sh.seqw.sequence > 0 && TargetConsumed(s.sh.readers) > 0
    ensures Reached(s') && Only(s, 0, s') && s'.sh == s.sh.(lock := Some(0))
    ensures s'.threads[0].pc == W(Ticket) && s'.threads[0].wr.look == s.sh.readers
  {
    var a, th, sh := Own(s, 0), s.threads[0], s.sh.(lock := Some(0));
    var b := First(0, a, s.sh, th.(pc := W(Lock)));
    b := Next(0, a, b, sh, th.(pc := W(Sequence)));
    var wr := th.wr.(curSeq := s.sh.seqw.sequence);
    b := Next(0, a, b, sh, th.(pc := W(Readers), wr := wr));
    b := Next(0, a, b, sh, th.(pc := W(Ticket), wr := wr.(look := s.sh.readers)));
    s' := Follow(s, 0, b);
  }

  /** It goes on to sleep on what it saw, whatever has happened since. */
  lemma LateSleep(s: State) returns (s': State)
    requires Reached(s) && s.threads != [] && s.threads[0].pc == W(Ticket) && !s.sh.seqw.stopped
    requires s.threads[0].wr.look.consumed < TargetConsumed(s.threads[0].wr.look)
    ensures Reached(s') && Only(s, 0, s') && s'.sh == s.sh.(wcv := Rung(s.sh.wcv))
    ensures AsleepForConsumption(s', 0) && s'.threads[0].wr == s.threads[0].wr.(mark := s.sh.readers.consumed)
  {
    var a := Own(s, 0);
    var th := a.th.(ticket := s.sh.rcv.ticket, wr := a.th.wr.(mark := s.sh.readers.consumed));
    var b := First(0, a, s.sh, th.(pc := W(BpStop)));
    b := Next(0, a, b, s.sh, th.(pc := N(Kick, false)));
    var c := NotifyAlone(0, b);
    Then(0, a, b, c);
    c := Next(0, a, c, c.sh, c.th.(pc := W(BpSleep), stamp := c.sh.rcv.wakes));
    s' := Follow(s, 0, c);
  }

  /** Waking up can fail on the first pass of the backpressure wait: a reachable state in which a writer
      sleeps although the one reader it waits for has released its guard, nobody is active, every other
      thread is idle, and nobody owes the writer a wake-up. The release fell between its look and its ticket. */
  lemma FirstPassWakeupIsLost() returns (s: State)
    ensures Reached(s) && |s.threads| == 2 && AsleepForConsumption(s, 0)
    ensures s.threads[0].wr.mark != s.threads[0].wr.look.consumed
    ensures s.threads[1].pc == Idle && !Owed(s, OwesWakeR)
    ensures TargetConsumed(s.sh.readers) <= s.sh.readers.consumed && s.sh.readers.active == 0 && !s.sh.seqw.stopped
  {
    var s1 := OneReader(2);
    var s2 := Reads(s1, 1);
    var s3 := EarlyLook(s2);
    var s4 := Drops(s3, 1);
    s := LateSleep(s4);
    assert s.threads == [s.threads[0], s.threads[1]];
  }

  /** A release that leaves another reader active wakes nobody: a reachable state in which a writer sleeps
      although the one release it waits for came after its look and its ticket, and nobody owes it a
      wake-up. The other guard, still held, is what will wake it. */
  lemma RemainingReaderDelays() returns (s: State)
    ensures Reached(s) && |s.threads| == 3 && AsleepForConsumption(s, 0)
    ensures s.threads[0].wr.mark == s.threads[0].wr.look.consumed != s.sh.readers.consumed
    ensures s.threads[1].pc == Idle && HasGuard(s.threads[2]) && !Owed(s, OwesWakeR)
    ensures TargetConsumed(s.sh.readers) <= s.sh.readers.consumed && s.sh.readers.active == 1 && !s.sh.seqw.stopped
  {
    var s1 := OneReader(3);
    var s2 := Reads(s1, 1);
    var s3 := Reads(s2, 2);
    var s4 := Starts(s3);
    s := Drops(s4, 1);
    assert s.threads == [s.threads[0], s.threads[1], s.threads[2]];
  }

  /** Removing a reader wakes nobody either: a reachable state in which a writer sleeps for the consumption of
      a reader that is gone, the other thread is idle, and nobody owes the writer a wake-up. */
  lemma RemovalIsMissed() returns (s: State)
    ensures Reached(s) && |s.threads| == 2 && AsleepForConsumption(s, 0)
    ensures s.threads[0].wr.mark == s.threads[0].wr.look.consumed
    ensures s.threads[1].pc == Idle && !Owed(s, OwesWakeR)
    ensures TargetConsumed(s.sh.readers) <= s.sh.readers.consumed && s.sh.readers.active == 0 && !s.sh.seqw.stopped
  {
    var s1 := OneReader(2);
    var s2 := Starts(s1);
    var b := RemoveReaderAlone(1, Own(s2, 1));
    s := Follow(s2, 1, b);
    assert s.threads == [s.threads[0], s.threads[1]];
  }

  // ---------- publish after stop ----------

  /** A message is published although stop was set before `publish` was called: `s` is a reachable stopped
      state in which thread 0 holds a write guard and nothing was published, and its `publish(1)` leads from
      there to its message published, by its own steps alone. */
  lemma PublishedAfterStop() returns (s: State, b: Local)
    ensures Reached(s) && s.sh.seqw.stopped && s.sh.pub == [] && s.threads != [] && s.threads[0].pc == W(Granted)
    ensures Alone(0, Own(s, 0), b)
    ensures b.sh.pub == [[0]] && b.sh.seqw == SequenceState(1, true, false)
  {
    var s0 := Zeroed(2);
    var s1 := Starts(s0);
    var c := StopAlone(1, Own(s1, 1));
    s := Follow(s1, 1, c);
    b := GuardPublishAlone(0, Own(s, 0), 1);
    assert [0][..1] == [0];
  }

  // ---------- stranded readers, torn snapshots ----------

  /** A write guard taken and dropped over one stored byte. */
  lemma WriteAndDrop(s: State, x: Byte) returns (s': State)
    requires Reached(s) && s.threads != [] && s.threads[0].pc == Idle && !s.sh.seqw.stopped && s.sh.lock == None
    requires s.sh.readers == ReadersState(0, 0, 0, 0) && |s.sh.mem.buffer| == 1
    ensures Reached(s') && Only(s, 0, s')
    ensures s'.threads[0].pc == Idle && s'.threads[0].hd == s.threads[0].hd
    ensures s'.sh.readers == s.sh.readers && s'.sh.lock == None && s'.sh.pub == s.sh.pub
    ensures s'.sh.seqw == s.sh.seqw.(writing := true)
    ensures s'.sh.mem.buffer == [x] && s'.sh.mem.size == s.sh.mem.size
  {
    var s1 := Starts(s);
    var b := StoreAlone(0, Own(s1, 0), [x], 0);
    var c := GuardDropAlone(0, b);
    Then(0, Own(s1, 0), b, c);
    s' := Follow(s1, 0, c);
    assert b.sh.mem.buffer == [x];
  }

  /** A blocking `read(0)` that has found the message and not registered yet. */
  lemma LooksClean(s: State, t: nat) returns (s': State)
    requires Reached(s) && t < |s.threads| && Fresh(s.threads[t]) && s.sh.seqw == SequenceState(1, false, false)
    ensures Reached(s') && Only(s, t, s') && s'.sh == s.sh
    ensures s'.threads[t].pc == U(Register, None) && s'.threads[t].rd.seen == 1
  {
    var th := s.threads[t];
    var b := First(t, Own(s, t), s.sh, th.(pc := R(RTicket), rd := th.rd.(ls := 0, block := true)));
    var c := LookAlone(t, b);
    Then(t, Own(s, t), b, c);
    s' := Follow(s, t, c);
  }

  /** It registers, whatever has happened since. */
  lemma Registers(s: State, t: nat) returns (s': State)
    requires Reached(s) && t < |s.threads| && s.threads[t].pc == U(Register, None)
    requires s.sh.readers.active < U16_MOD - 1
    ensures Reached(s') && Only(s, t, s') && s'.threads[t] == s.threads[t].(pc := R(RVerify))
    ensures s'.sh == s.sh.(readers := s.sh.readers.(active := s.sh.readers.active + 1))
  {
    var b := UpdateAlone(t, Own(s, t));
    s' := Follow(s, t, b);
  }

  /** A message, thread 1 registered for it and about to verify, and a write guard dropped in between. */
  lemma RegisteredLate() returns (s: State)
    ensures Reached(s) && |s.threads| == 3 && s.threads[0].pc == s.threads[2].pc == Idle
    ensures s.threads[1].pc == R(RVerify) && s.threads[1].rd.seen == 1
    ensures s.sh.seqw == SequenceState(1, false, true) && s.sh.readers == ReadersState(0, 0, 1, 0)
    ensures s.sh.lock == None && s.sh.mem.buffer == [9] && s.sh.mem.size == 1 && s.sh.pub == [[7]]
  {
    var s1 := OneMessage(3);
    var s2 := LooksClean(s1, 1);
    var s3 := WriteAndDrop(s2, 9);
    s := Registers(s3, 1);
  }

  /** A stop by thread 2. */
  lemma Stops(s: State) returns (s': State)
    requires Reached(s) && |s.threads| >= 3 && s.threads[2].pc == Idle
    ensures Reached(s') && s'.threads == s.threads
    ensures s'.sh == s.sh.(seqw := s.sh.seqw.(stopped := true), wcv := Rung(s.sh.wcv), rcv := Rung(s.sh.rcv))
  {
    var b := StopAlone(2, Own(s, 2));
    s' := Follow(s, 2, b);
    assert s'.threads == s.threads;
  }

  /** The abort of the drain thread 0 sleeps in, with stop set. */
  lemma Aborts(s: State) returns (s': State)
    requires Reached(s) && s.threads != [] && s.threads[0].pc == W(DrSleep)
    requires s.sh.readers.active > 0 && s.sh.seqw.stopped
    ensures Reached(s') && Only(s, 0, s') && s'.threads[0].pc == Idle
    ensures s'.sh.wcv == s.sh.wcv && s'.sh.readers == s.sh.readers
    ensures s'.sh.seqw == s.sh.seqw.(writing := false) && s'.sh.pub == s.sh.pub
    ensures s'.sh.mem.buffer == s.sh.mem.buffer && s'.sh.mem.size == s.sh.mem.size
  {
    var b := DrainAlone(0, Own(s, 0));
    s' := Follow(s, 0, b);
  }

  /** Snapshots can tear after a dropped write guard: a reachable state in which a verified read guard
      delivers bytes that were never published, because an aborted write lowered the flag over them. */
  lemma SnapshotTears() returns (s: State)
    ensures Reached(s) && |s.threads| == 3 && HasGuard(s.threads[1])
    ensures Payload(s.sh.pub, |s.sh.pub|) == [7] && Data(s.sh.mem) == [9]
  {
    var s1 := RegisteredLate();
    var s2 := Starts(s1);
    var s3 := Stops(s2);
    var s4 := Aborts(s3);
    var th := s4.threads[1];
    var b := First(1, Own(s4, 1), s4.sh, th.(pc := R(RGuard), rd := th.rd.(view := None, acc := []),
                                             hd := th.hd.(lastSeen := th.rd.seen, lastIdx := |s4.sh.pub|)));
    s := Follow(s4, 1, b);
    assert s.sh.mem.buffer[..1] == [9];
  }

  /** A message, thread 1 holding its guard, thread 0 asleep in the drain for the next one, a stop, and then
      thread 3 asleep until that write ends. */
  lemma ReaderBehindDrain() returns (s: State)
    ensures Reached(s) && |s.threads| == 4 && s.threads[0].pc == W(DrSleep) && s.threads[2].pc == Idle
    ensures s.threads[1].pc == R(RGuard) && s.threads[1].rd.view == None
    ensures ReaderAsleep(s, 3) && s.threads[3].rd.ls == 0
    ensures s.sh.seqw == SequenceState(1, true, true) && s.sh.readers == ReadersState(0, 0, 1, 0)
  {
    var s1 := OneMessage(4);
    var s2 := Reads(s1, 1);
    var s3 := Starts(s2);
    var s4 := Stops(s3);
    s := Reads(s4, 3);
  }

  /** An aborted write strands a reader: a reachable state in which a reader sleeps over an unread message,
      the flag it waits for is down, every other thread is idle and nobody owes it a wake-up. Stop is set,
      so no writer will ever come to notify. */
  lemma AbortStrandsReader() returns (s: State)
    ensures Reached(s) && |s.threads| == 4 && ReaderAsleep(s, 3) && !Owed(s, OwesWakeW)
    ensures s.threads[3].rd.ls != s.sh.seqw.sequence && s.sh.seqw == SequenceState(1, true, false)
    ensures forall t :: 0 <= t < 3 ==> s.threads[t].pc == Idle
  {
    var s1 := ReaderBehindDrain();
    var s2 := Aborts(s1);
    s := Drops(s2, 1);
    assert s.threads == [s.threads[0], s.threads[1], s.threads[2], s.threads[3]];
  }

  /** So does a dropped write guard: a reachable state, not stopped, in which a reader sleeps over an unread
      message, the flag is up with no writer behind it, and nobody owes it a wake-up. */
  lemma DropStrandsReader() returns (s: State)
    ensures Reached(s) && |s.threads| == 2 && ReaderAsleep(s, 1) && !Owed(s, OwesWakeW)
    ensures s.threads[1].rd.ls != s.sh.seqw.sequence && s.threads[0].pc == Idle
    ensures Unclaimed(s) && !s.sh.seqw.stopped
  {
    var s1 := OneMessage(2);
    var s2 := WriteAndDrop(s1, 9);
    s := Reads(s2, 1);
    assert s.threads == [s.threads[0], s.threads[1]];
  }
}
