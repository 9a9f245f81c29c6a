/** What each call does when its thread is left to run: the outcomes the interleavings of the machine allow,
    reached from any state by steps of one thread. */
module Solo {
  import opened Words
  import opened Machine

  /** Shared memory and the one thread that moves. */
  datatype Local = Local(sh: Shared, th: Thread)

  ghost predicate Path(t: nat, path: seq<Local>) {
    path != []
    && forall k :: 0 < k < |path| ==> Moved(path[k - 1].sh, t, path[k - 1].th, path[k].sh, path[k].th)
  }

  /** Steps of thread `t` alone lead from `a` to `b`. */
  ghost predicate Alone(t: nat, a: Local, b: Local) {
    exists path :: Path(t, path) && path[0] == a && path[|path| - 1] == b
  }

  lemma Here(t: nat, a: Local)
    ensures Alone(t, a, a)
  {
    assert Path(t, [a]);
  }

  lemma Next(t: nat, a: Local, b: Local, sh: Shared, th: Thread) returns (c: Local)
    requires Alone(t, a, b) && Moved(b.sh, t, b.th, sh, th)
    ensures c == Local(sh, th) && Alone(t, a, c)
  {
    c := Local(sh, th);
    var path :| Path(t, path) && path[0] == a && path[|path| - 1] == b;
    assert Path(t, path + [c]);
  }

  lemma First(t: nat, a: Local, sh: Shared, th: Thread) returns (b: Local)
    requires Moved(a.sh, t, a.th, sh, th)
    ensures b == Local(sh, th) && Alone(t, a, b)
  {
    Here(t, a);
    b := Next(t, a, a, sh, th);
  }

  lemma Then(t: nat, a: Local, b: Local, c: Local)
    requires Alone(t, a, b) && Alone(t, b, c)
    ensures Alone(t, a, c)
  {
    var p: seq<Local> :| Path(t, p) && p[0] == a && p[|p| - 1] == b;
    var q: seq<Local> :| Path(t, q) && q[0] == b && q[|q| - 1] == c;
    var r: seq<Local> := p + q[1..];
    forall k | 0 < k < |r| ensures Moved(r[k - 1].sh, t, r[k - 1].th, r[k].sh, r[k].th) {
      if k >= |p| {
        assert r[k] == q[k - |p| + 1] && r[k - 1] == q[k - |p|];
      }
    }
    assert Path(t, r);
  }

  // ---------- updates and notifications ----------

  /** A condition variable after one notification. */
  function Rung(cv: Condvar): Condvar { Condvar(cv.ticket + 1, cv.wakes + 1) }

  /** A condition variable that a thread sleeps on, nobody having woken it. */
  predicate SleepsOn(th: Thread, cv: Condvar) { th.ticket == cv.ticket && th.stamp == cv.wakes }

  lemma NotifyAlone(t: nat, a: Local) returns (b: Local)
    requires a.th.pc.N? && !a.th.pc.added
    ensures Alone(t, a, b)
    ensures b.sh == if ToReaders(a.th.pc.sig) then a.sh.(wcv := Rung(a.sh.wcv)) else a.sh.(rcv := Rung(a.sh.rcv))
    ensures b.th == a.th.(pc := AfterNotify(a.th.pc.sig))
  {
    var sig := a.th.pc.sig;
    var sh1 := if ToReaders(sig) then a.sh.(wcv := Bump(a.sh.wcv, false)) else a.sh.(rcv := Bump(a.sh.rcv, false));
    var sh2 := if ToReaders(sig) then sh1.(wcv := Bump(sh1.wcv, true)) else sh1.(rcv := Bump(sh1.rcv, true));
    var c := First(t, a, sh1, a.th.(pc := N(sig, true)));
    b := Next(t, a, c, sh2, a.th.(pc := AfterNotify(sig)));
  }

  lemma UpdateAlone(t: nat, a: Local) returns (b: Local)
    requires a.th.pc.U? && a.th.pc.seen == None
    requires var r := Mutate(a.th.pc.m, a.sh.readers); r.Some? && (a.th.pc.m == Release ==> r.value != a.sh.readers)
    ensures Alone(t, a, b)
    ensures var m, r := a.th.pc.m, Mutate(a.th.pc.m, a.sh.readers).value;
            && b.sh == a.sh.(readers := r, released := if m == Release then a.sh.released + 1 else a.sh.released)
            && b.th == a.th.(pc := AfterUpdate(m, r))
  {
    var m := a.th.pc.m;
    var r := Mutate(m, a.sh.readers).value;
    b := First(t, a, a.sh, a.th.(pc := Attempt(m, a.sh.readers)));
    if r != a.sh.readers {
      b := Next(t, a, b, a.sh.(readers := r, released := if m == Release then a.sh.released + 1 else a.sh.released),
                a.th.(pc := AfterUpdate(m, r)));
    }
  }

  // ---------- read ----------

  /** What one look of `read` comes to. */
  ghost predicate Looked(a: Local, b: Local) {
    var q := a.sh.seqw;
    && b.sh == a.sh && b.th.hd == a.th.hd && b.th.rd == a.th.rd.(seen := q.sequence)
    && if q.sequence == a.th.rd.ls && (q.stopped || !a.th.rd.block) then b.th.pc == Idle
       else if q.sequence != a.th.rd.ls && !q.writing then b.th.pc == U(Register, None)
       else b.th.pc == R(RSleep) && SleepsOn(b.th, a.sh.wcv)
  }

  lemma LookAlone(t: nat, a: Local) returns (b: Local)
    requires a.th.pc == R(RTicket)
    ensures Alone(t, a, b) && Looked(a, b)
  {
    var q, th := a.sh.seqw, a.th.(ticket := a.sh.wcv.ticket);
    b := First(t, a, a.sh, th.(pc := R(RState)));
    var th2 := th.(rd := th.rd.(seen := q.sequence));
    if q.sequence == a.th.rd.ls && (q.stopped || !a.th.rd.block) {
      b := Next(t, a, b, a.sh, th2.(pc := Idle));
    } else if q.sequence != a.th.rd.ls && !q.writing {
      b := Next(t, a, b, a.sh, th2.(pc := U(Register, None)));
    } else {
      b := Next(t, a, b, a.sh, th2.(pc := R(RWait)));
      b := Next(t, a, b, a.sh, th2.(pc := R(RSleep), stamp := a.sh.wcv.wakes));
    }
  }

  lemma RegisterAlone(t: nat, a: Local) returns (b: Local)
    requires a.th.pc == U(Register, None) && a.sh.readers.active < U16_MOD - 1
    requires !a.sh.seqw.writing && a.th.rd.seen == a.sh.seqw.sequence
    ensures Alone(t, a, b)
    ensures b.sh == a.sh.(readers := a.sh.readers.(active := a.sh.readers.active + 1))
    ensures b.th.pc == R(RGuard) && b.th.rd == a.th.rd.(view := None, acc := [])
    ensures b.th.hd == a.th.hd.(lastSeen := a.sh.seqw.sequence, lastIdx := |a.sh.pub|)
  {
    var c := UpdateAlone(t, a);
    b := Next(t, a, c, c.sh, c.th.(pc := R(RGuard), rd := c.th.rd.(view := None, acc := []),
                                   hd := c.th.hd.(lastSeen := c.th.rd.seen, lastIdx := |c.sh.pub|)));
  }

  /** What `read(ls, block)` comes to: nothing, if there is nothing new and stop is set or the call does not
      block; a guard of the current message, if it is another one and no write is in progress; else sleep. */
  ghost predicate ReadDone(a: Local, ls: nat, block: bool, b: Local) {
    var q := a.sh.seqw;
    && b.th.rd.ls == ls && b.th.rd.block == block
    && if q.sequence == ls && (q.stopped || !block) then
         b.sh == a.sh && b.th.pc == Idle && b.th.hd == a.th.hd
       else if q.sequence != ls && !q.writing then
         && b.sh == a.sh.(readers := a.sh.readers.(active := a.sh.readers.active + 1))
         && b.th.pc == R(RGuard) && b.th.rd.view == None
         && b.th.hd == a.th.hd.(lastSeen := q.sequence, lastIdx := |a.sh.pub|)
       else
         b.sh == a.sh && b.th.pc == R(RSleep) && SleepsOn(b.th, a.sh.wcv) && b.th.hd == a.th.hd
  }

  /** A reader woken from its sleep starts over with the same arguments. */
  lemma ReadOnAlone(t: nat, a: Local) returns (b: Local)
    requires a.th.pc == R(RTicket) || a.th.pc == R(RSleep)
    requires a.sh.readers.active < U16_MOD - 1
    ensures Alone(t, a, b) && ReadDone(a, a.th.rd.ls, a.th.rd.block, b)
  {
    Here(t, a);
    var c := a;
    if a.th.pc == R(RSleep) {
      c := First(t, a, a.sh, a.th.(pc := R(RTicket)));
    }
    var d := LookAlone(t, c);
    Then(t, a, c, d);
    b := d;
    if d.th.pc.U? {
      b := RegisterAlone(t, d);
      Then(t, a, d, b);
    }
  }

  /** `read`, left to run. */
  lemma ReadAlone(t: nat, a: Local, ls: nat, block: bool) returns (b: Local)
    requires a.th.pc == Idle && a.sh.readers.active < U16_MOD - 1
    ensures Alone(t, a, b) && ReadDone(a, ls, block, b)
  {
    var c := First(t, a, a.sh, a.th.(pc := R(RTicket), rd := a.th.rd.(ls := ls, block := block)));
    b := ReadOnAlone(t, c);
    Then(t, a, c, b);
  }

  // ---------- the read guard ----------

  /** Copying on from the bytes already copied. */
  lemma {:induction false} CopyOutAlone(t: nat, a: Local) returns (b: Local)
    requires a.th.pc == R(RGuard) && a.th.rd.view == Some(a.sh.mem.size) && a.sh.mem.size <= |a.sh.mem.buffer|
    requires |a.th.rd.acc| <= a.sh.mem.size && a.th.rd.acc == a.sh.mem.buffer[..|a.th.rd.acc|]
    ensures Alone(t, a, b) && b == Local(a.sh, a.th.(rd := a.th.rd.(acc := a.sh.mem.buffer[..a.sh.mem.size])))
    decreases a.sh.mem.size - |a.th.rd.acc|
  {
    var k := |a.th.rd.acc|;
    if k == a.sh.mem.size {
      Here(t, a);
      b := a;
    } else {
      var c := First(t, a, a.sh, a.th.(rd := a.th.rd.(acc := a.th.rd.acc + [a.sh.mem.buffer[k]])));
      b := CopyOutAlone(t, c);
      Then(t, a, c, b);
    }
  }

  /** A guard dropped: one reader less, one consumption more, and a notification if it was the last reader. */
  lemma DropAlone(t: nat, a: Local) returns (b: Local)
    requires a.th.pc == U(Release, None) && 0 < a.sh.readers.active < U16_MOD && a.sh.readers.consumed < U16_MOD
    ensures Alone(t, a, b) && b.th == a.th.(pc := Idle)
    ensures var r := a.sh.readers;
            b.sh == a.sh.(readers := r.(active := r.active - 1, consumed := (r.consumed + 1) % U16_MOD),
                          released := a.sh.released + 1, rcv := if r.active == 1 then Rung(a.sh.rcv) else a.sh.rcv)
  {
    b := UpdateAlone(t, a);
    if b.sh.readers.active == 0 {
      var c := b;
      b := NotifyAlone(t, c);
      Then(t, a, c, b);
    }
  }

  /** A guard whose data is copied out before it is dropped: the receipt is the current data, whole. */
  lemma ReadOutAlone(t: nat, a: Local) returns (b: Local)
    requires a.th.pc == R(RGuard) && a.sh.mem.size <= |a.sh.mem.buffer|
    requires 0 < a.sh.readers.active < U16_MOD && a.sh.readers.consumed < U16_MOD
    ensures Alone(t, a, b) && b.th.pc == Idle
    ensures b.th.hd == a.th.hd.(got := a.th.hd.got + [Receipt(a.th.hd.lastIdx, Data(a.sh.mem))])
    ensures var r := a.sh.readers;
            b.sh == a.sh.(readers := r.(active := r.active - 1, consumed := (r.consumed + 1) % U16_MOD),
                          released := a.sh.released + 1, rcv := if r.active == 1 then Rung(a.sh.rcv) else a.sh.rcv)
  {
    var c := First(t, a, a.sh, a.th.(rd := a.th.rd.(view := Some(a.sh.mem.size), acc := [])));
    var d := CopyOutAlone(t, c);
    Then(t, a, c, d);
    var e := Next(t, a, d, d.sh, d.th.(pc := U(Release, None),
                                       hd := d.th.hd.(got := d.th.hd.got + [Receipt(d.th.hd.lastIdx, d.th.rd.acc)])));
    b := DropAlone(t, e);
    Then(t, a, e, b);
  }

  // ---------- start_write ----------

  /** What the drain comes to once the flag is up: a grant if no reader is active, else sleep, or with stop
      set the flag lowered and the mutex released. */
  ghost predicate DrainDone(a: Local, b: Local) {
    && b.th.hd == a.th.hd && b.th.wr.job == a.th.wr.job
    && if a.sh.readers.active == 0 then
         b.sh == a.sh && b.th.pc == W(Granted) && b.th.wr.at == 0
       else if a.sh.seqw.stopped then
         && b.sh == a.sh.(seqw := a.sh.seqw.(writing := false), lock := None,
                          mem := a.sh.mem.(tainted := a.sh.mem.tainted || a.sh.mem.dirty))
         && b.th.pc == Idle
       else
         b.sh == a.sh && b.th.pc == W(DrSleep) && SleepsOn(b.th, a.sh.rcv)
  }

  lemma DrainAlone(t: nat, a: Local) returns (b: Local)
    requires a.th.pc == W(DrTicket) || a.th.pc == W(DrSleep)
    ensures Alone(t, a, b) && DrainDone(a, b)
  {
    Here(t, a);
    b := a;
    if a.th.pc == W(DrSleep) {
      b := Next(t, a, b, a.sh, a.th.(pc := W(DrTicket)));
    }
    var th := a.th.(ticket := a.sh.rcv.ticket);
    b := Next(t, a, b, a.sh, th.(pc := W(DrLoad)));
    if a.sh.readers.active == 0 {
      b := Next(t, a, b, a.sh, th.(pc := W(Granted), wr := th.wr.(at := 0)));
    } else {
      b := Next(t, a, b, a.sh, th.(pc := W(DrStop)));
      b := DrainOn(t, a, b);
    }
  }

  lemma DrainOn(t: nat, a: Local, c: Local) returns (b: Local)
    requires Alone(t, a, c) && c.sh == a.sh && c.th == a.th.(pc := W(DrStop), ticket := a.sh.rcv.ticket)
    requires a.sh.readers.active > 0
    ensures Alone(t, a, b) && DrainDone(a, b)
  {
    var th := c.th;
    if a.sh.seqw.stopped {
      b := Next(t, a, c, a.sh, th.(pc := W(DrLower)));
      var sh1 := a.sh.(seqw := a.sh.seqw.(writing := false),
                       mem := a.sh.mem.(tainted := a.sh.mem.tainted || a.sh.mem.dirty));
      b := Next(t, a, b, sh1, th.(pc := W(Unlock)));
      b := Next(t, a, b, sh1.(lock := None), th.(pc := Idle));
    } else {
      b := Next(t, a, c, a.sh, th.(pc := W(DrWait)));
      b := Next(t, a, b, a.sh, th.(pc := W(DrSleep), stamp := a.sh.rcv.wakes));
    }
  }

  /** With the flag raised. */
  function Raised(a: Local): Local { Local(a.sh.(seqw := a.sh.seqw.(writing := true)), a.th) }

  lemma RaiseAlone(t: nat, a: Local) returns (b: Local)
    requires a.th.pc == W(Raise)
    ensures Alone(t, a, b) && DrainDone(Raised(a), b)
  {
    var c := First(t, a, Raised(a).sh, a.th.(pc := W(DrTicket)));
    b := DrainAlone(t, c);
    Then(t, a, c, b);
  }

  /** The consumption asked for by the counters as they are. */
  predicate Met(sh: Shared) { sh.seqw.sequence == 0 || TargetConsumed(sh.readers) <= sh.readers.consumed }

  /** What a writer that holds the mutex comes to: the drain if the consumption is there, else sleep after a
      kick to the readers, or with stop set the mutex released. */
  ghost predicate EnterDone(a: Local, b: Local) {
    && b.th.hd == a.th.hd && b.th.wr.job == a.th.wr.job
    && if Met(a.sh) then DrainDone(Raised(a), b)
       else if a.sh.seqw.stopped then b.sh == a.sh.(lock := None) && b.th.pc == Idle
       else
         && b.sh == a.sh.(wcv := Rung(a.sh.wcv)) && b.th.pc == W(BpSleep) && SleepsOn(b.th, a.sh.rcv)
         && b.th.wr.look == a.sh.readers && b.th.wr.mark == a.sh.readers.consumed
  }

  /** The wait for consumption that is not there. */
  lemma WaitAlone(t: nat, a: Local) returns (b: Local)
    requires a.th.pc == W(BpStop) && a.th.ticket == a.sh.rcv.ticket && !Met(a.sh)
    requires a.th.wr.look == a.sh.readers && a.th.wr.mark == a.sh.readers.consumed
    ensures Alone(t, a, b) && EnterDone(a, b)
  {
    if a.sh.seqw.stopped {
      b := First(t, a, a.sh, a.th.(pc := W(Unlock)));
      b := Next(t, a, b, a.sh.(lock := None), a.th.(pc := Idle));
    } else {
      var c := First(t, a, a.sh, a.th.(pc := N(Kick, false)));
      b := NotifyAlone(t, c);
      Then(t, a, c, b);
      b := Next(t, a, b, b.sh, b.th.(pc := W(BpSleep), stamp := b.sh.rcv.wakes));
    }
  }

  /** From the first look on. */
  lemma EnterAlone(t: nat, a: Local) returns (b: Local)
    requires a.th.pc == W(Sequence)
    ensures Alone(t, a, b) && EnterDone(a, b)
  {
    var th := a.th.(wr := a.th.wr.(curSeq := a.sh.seqw.sequence));
    var c := First(t, a, a.sh, th.(pc := W(Readers)));
    var th2 := th.(wr := th.wr.(look := a.sh.readers));
    if TargetConsumed(a.sh.readers) == 0 || a.sh.seqw.sequence == 0 {
      c := Next(t, a, c, a.sh, th2.(pc := W(Raise)));
      b := RaiseAlone(t, c);
      Then(t, a, c, b);
    } else {
      c := Next(t, a, c, a.sh, th2.(pc := W(Ticket)));
      b := TicketAlone(t, c);
      Then(t, a, c, b);
    }
  }

  lemma TicketAlone(t: nat, a: Local) returns (b: Local)
    requires a.th.pc == W(Ticket) && a.th.wr.look == a.sh.readers && a.sh.seqw.sequence > 0
    ensures Alone(t, a, b) && EnterDone(a, b)
  {
    var th := a.th.(ticket := a.sh.rcv.ticket, wr := a.th.wr.(mark := a.sh.readers.consumed));
    var c := First(t, a, a.sh, th.(pc := if Met(a.sh) then W(Raise) else W(BpStop)));
    if Met(a.sh) {
      b := RaiseAlone(t, c);
    } else {
      b := WaitAlone(t, c);
    }
    Then(t, a, c, b);
  }

  /** A writer woken from its wait for consumption looks again, whatever woke it. */
  lemma EnterOnAlone(t: nat, a: Local) returns (b: Local)
    requires a.th.pc == W(BpSleep) && a.sh.seqw.sequence > 0
    ensures Alone(t, a, b) && EnterDone(a, b)
  {
    var th := a.th.(ticket := a.sh.rcv.ticket, wr := a.th.wr.(look := a.sh.readers, mark := a.sh.readers.consumed));
    var c := First(t, a, a.sh, a.th.(pc := W(BpTicket)));
    c := Next(t, a, c, a.sh, a.th.(pc := W(BpReaders), ticket := a.sh.rcv.ticket));
    c := Next(t, a, c, a.sh, th.(pc := if Met(a.sh) then W(Raise) else W(BpStop)));
    if Met(a.sh) {
      b := RaiseAlone(t, c);
    } else {
      b := WaitAlone(t, c);
    }
    Then(t, a, c, b);
  }

  /** `start_write`, left to run: with stop set it returns at once; else it takes the free mutex and goes on. */
  lemma StartWriteAlone(t: nat, a: Local, job: Job) returns (b: Local)
    requires a.th.pc == Idle && a.sh.lock == None
    ensures Alone(t, a, b) && b.th.wr.job == job && b.th.hd == a.th.hd
    ensures if a.sh.seqw.stopped then b.sh == a.sh && b.th.pc == Idle
            else EnterDone(Local(a.sh.(lock := Some(t)), b.th), b)
  {
    var th := a.th.(wr := a.th.wr.(job := job));
    b := First(t, a, a.sh, th.(pc := if a.sh.seqw.stopped then Idle else W(Lock)));
    if !a.sh.seqw.stopped {
      var c := Next(t, a, b, a.sh.(lock := Some(t)), th.(pc := W(Sequence)));
      b := EnterAlone(t, c);
      Then(t, a, c, b);
    }
  }

  // ---------- publish_write ----------

  /** Shared memory after `data` was published over `sh`: the next sequence number, the flag down, nothing
      consumed, readers notified, the mutex free. */
  ghost predicate PublishedOver(sh: Shared, sh': Shared) {
    && sh'.seqw.sequence == (if sh.seqw.sequence == SEQUENCE_MOD - 1 then 1 else sh.seqw.sequence + 1)
    && sh'.seqw.stopped == sh.seqw.stopped && !sh'.seqw.writing
    && sh'.readers == sh.readers.(consumed := 0) && sh'.released == 0
    && sh'.wcv == Rung(sh.wcv) && sh'.rcv == sh.rcv && sh'.lock == None
  }

  /** The first `size` bytes published, from storing the size on. */
  lemma PublishAlone(t: nat, a: Local) returns (b: Local)
    requires a.th.pc == W(Size) && a.th.wr.len <= |a.sh.mem.buffer| && a.sh.seqw.sequence < SEQUENCE_MOD
    ensures Alone(t, a, b) && b.th.pc == Idle && b.th.hd == a.th.hd && PublishedOver(a.sh, b.sh)
    ensures b.sh.pub == a.sh.pub + [a.sh.mem.buffer[..a.th.wr.len]]
    ensures b.sh.mem == Memory(a.th.wr.len, a.sh.mem.buffer, false, false, a.sh.mem.abandoned)
  {
    var c := First(t, a, a.sh.(mem := a.sh.mem.(size := a.th.wr.len, dirty := true)), a.th.(pc := U(Reset, None)));
    var d := UpdateAlone(t, c);
    Then(t, a, c, d);
    var e := SwapAlone(t, d);
    Then(t, a, d, e);
    b := LeaveAlone(t, e);
    Then(t, a, e, b);
  }

  lemma SwapAlone(t: nat, a: Local) returns (b: Local)
    requires a.th.pc == W(PubLoad)
    ensures Alone(t, a, b) && b.th.pc == N(NewData, false) && b.th.hd == a.th.hd
    ensures b.sh == a.sh.(seqw := Published(a.sh.seqw), pub := a.sh.pub + [Data(a.sh.mem)], released := 0,
                          mem := a.sh.mem.(dirty := false, tainted := false))
  {
    var th := a.th.(wr := a.th.wr.(prev := a.sh.seqw));
    var c := First(t, a, a.sh, th.(pc := W(PubCas)));
    b := Next(t, a, c, a.sh.(seqw := Published(a.sh.seqw), pub := a.sh.pub + [Data(a.sh.mem)], released := 0,
                             mem := a.sh.mem.(dirty := false, tainted := false)), th.(pc := N(NewData, false)));
  }

  lemma LeaveAlone(t: nat, a: Local) returns (b: Local)
    requires a.th.pc == N(NewData, false)
    ensures Alone(t, a, b) && b.th == a.th.(pc := Idle) && b.sh == a.sh.(wcv := Rung(a.sh.wcv), lock := None)
  {
    var c := NotifyAlone(t, a);
    b := Next(t, a, c, c.sh.(lock := None), c.th.(pc := Idle));
  }

  /** `publish` of a write guard: the first `size` bytes, or if that is more than there are the guard is
      dropped, which leaves the flag up. */
  lemma GuardPublishAlone(t: nat, a: Local, size: nat) returns (b: Local)
    requires a.th.pc == W(Granted) && a.th.wr.job == Guard && a.sh.seqw.sequence < SEQUENCE_MOD
    ensures Alone(t, a, b) && b.th.pc == Idle && b.th.hd == a.th.hd
    ensures if size <= |a.sh.mem.buffer| then
              && PublishedOver(a.sh, b.sh) && b.sh.pub == a.sh.pub + [a.sh.mem.buffer[..size]]
              && b.sh.mem == Memory(size, a.sh.mem.buffer, false, false, a.sh.mem.abandoned)
            else b.sh == a.sh.(lock := None, mem := a.sh.mem.(abandoned := true))
  {
    var th := a.th.(wr := a.th.wr.(len := size));
    if size <= |a.sh.mem.buffer| {
      var c := First(t, a, a.sh, th.(pc := W(Size)));
      b := PublishAlone(t, c);
      Then(t, a, c, b);
    } else {
      var sh1 := a.sh.(mem := a.sh.mem.(abandoned := true));
      b := First(t, a, sh1, th.(pc := W(Unlock)));
      b := Next(t, a, b, sh1.(lock := None), th.(pc := Idle));
    }
  }

  /** A write guard dropped: the mutex is free again, the flag stays up. */
  lemma GuardDropAlone(t: nat, a: Local) returns (b: Local)
    requires a.th.pc == W(Granted) && a.th.wr.job == Guard
    ensures Alone(t, a, b) && b.th == a.th.(pc := Idle)
    ensures b.sh == a.sh.(lock := None, mem := a.sh.mem.(abandoned := true))
  {
    var sh1 := a.sh.(mem := a.sh.mem.(abandoned := true));
    b := First(t, a, sh1, a.th.(pc := W(Unlock)));
    b := Next(t, a, b, sh1.(lock := None), a.th.(pc := Idle));
  }

  /** A write guard stores any bytes anywhere: `bytes` over the start of the buffer, from index `k` on. */
  lemma {:induction false} StoreAlone(t: nat, a: Local, bytes: seq<Byte>, k: nat) returns (b: Local)
    requires a.th.pc == W(Granted) && a.th.wr.job == Guard && k <= |bytes| <= |a.sh.mem.buffer|
    requires a.sh.mem.buffer[..k] == bytes[..k]
    ensures Alone(t, a, b) && b.th == a.th.(wr := a.th.wr.(at := b.th.wr.at))
    ensures b.sh == a.sh.(mem := a.sh.mem.(buffer := bytes + a.sh.mem.buffer[|bytes|..], dirty := b.sh.mem.dirty))
    decreases |bytes| - k
  {
    if k == |bytes| {
      Here(t, a);
      assert a.sh.mem.buffer == bytes + a.sh.mem.buffer[k..];
      b := a;
    } else {
      var buffer := a.sh.mem.buffer[k := bytes[k]];
      var c := First(t, a, a.sh.(mem := a.sh.mem.(buffer := buffer, dirty := true)), a.th.(wr := a.th.wr.(at := k)));
      OneMore(a.sh.mem.buffer, bytes, k);
      b := StoreAlone(t, c, bytes, k + 1);
      Then(t, a, c, b);
    }
  }

  // ---------- write_slice ----------

  lemma OneMore(buffer: seq<Byte>, data: seq<Byte>, k: nat)
    requires k < |data| <= |buffer| && buffer[..k] == data[..k]
    ensures buffer[k := data[k]][..k + 1] == data[..k + 1]
    ensures buffer[k := data[k]][|data|..] == buffer[|data|..]
  {
    assert data[..k + 1] == data[..k] + [data[k]];
  }

  /** The copy of `write_slice`, from index `at` on. */
  lemma {:induction false} CopyInAlone(t: nat, a: Local) returns (b: Local)
    requires a.th.pc == W(Granted) && a.th.wr.job.Slice? && a.th.wr.at <= |a.th.wr.job.data| <= |a.sh.mem.buffer|
    requires a.sh.mem.buffer[..a.th.wr.at] == a.th.wr.job.data[..a.th.wr.at]
    ensures var data := a.th.wr.job.data;
            && Alone(t, a, b) && b.th == a.th.(pc := W(Size), wr := a.th.wr.(at := |data|, len := |data|))
            && b.sh == a.sh.(mem := a.sh.mem.(buffer := data + a.sh.mem.buffer[|data|..], dirty := b.sh.mem.dirty))
    decreases |a.th.wr.job.data| - a.th.wr.at
  {
    var data, k := a.th.wr.job.data, a.th.wr.at;
    if k == |data| {
      b := First(t, a, a.sh, a.th.(pc := W(Size), wr := a.th.wr.(len := k)));
      assert a.sh.mem.buffer == data + a.sh.mem.buffer[k..];
    } else {
      var buffer := a.sh.mem.buffer[k := data[k]];
      var c := First(t, a, a.sh.(mem := a.sh.mem.(buffer := buffer, dirty := true)),
                     a.th.(wr := a.th.wr.(at := k + 1)));
      OneMore(a.sh.mem.buffer, data, k);
      b := CopyInAlone(t, c);
      Then(t, a, c, b);
    }
  }

  /** `write_slice`, once granted: data that fits is copied over the start of the buffer and published, and
      only that; data that does not fit makes it panic, with nothing stored, the mutex free and the flag up. */
  lemma SliceAlone(t: nat, a: Local) returns (b: Local)
    requires a.th.pc == W(Granted) && a.th.wr.job.Slice? && a.th.wr.at == 0 && a.sh.seqw.sequence < SEQUENCE_MOD
    ensures Alone(t, a, b) && b.th.pc == Idle && b.th.hd == a.th.hd
    ensures var data := a.th.wr.job.data;
            if |data| <= |a.sh.mem.buffer| then
              && PublishedOver(a.sh, b.sh) && b.sh.pub == a.sh.pub + [data]
              && b.sh.mem ==
                 Memory(|data|, data + a.sh.mem.buffer[|data|..], false, false, a.sh.mem.abandoned)
            else b.sh == a.sh.(lock := None, mem := a.sh.mem.(abandoned := true))
  {
    var data := a.th.wr.job.data;
    if |data| <= |a.sh.mem.buffer| {
      var c := CopyInAlone(t, a);
      b := PublishAlone(t, c);
      Then(t, a, c, b);
      assert c.sh.mem.buffer[..|data|] == data;
    } else {
      var sh1 := a.sh.(mem := a.sh.mem.(abandoned := true));
      b := First(t, a, sh1, a.th.(pc := W(Unlock)));
      b := Next(t, a, b, sh1.(lock := None), a.th.(pc := Idle));
    }
  }

  // ---------- the other calls ----------

  /** `stop`: the flag set, readers and writers notified. */
  lemma StopAlone(t: nat, a: Local) returns (b: Local)
    requires a.th.pc == Idle
    ensures Alone(t, a, b) && b.th == a.th
    ensures b.sh == a.sh.(seqw := a.sh.seqw.(stopped := true), wcv := Rung(a.sh.wcv), rcv := Rung(a.sh.rcv))
  {
    var c := First(t, a, a.sh.(seqw := a.sh.seqw.(stopped := true)), a.th.(pc := N(StopReaders, false)));
    var d := NotifyAlone(t, c);
    Then(t, a, c, d);
    b := NotifyAlone(t, d);
    Then(t, a, d, b);
  }

  /** `add_reader`: one more consumer; it panics when there are 65535. */
  lemma AddReaderAlone(t: nat, a: Local) returns (b: Local)
    requires a.th.pc == Idle
    ensures Alone(t, a, b) && b.th == a.th
    ensures b.sh == if a.sh.readers.consumers == U16_MOD - 1 then a.sh
                    else a.sh.(readers := a.sh.readers.(consumers := a.sh.readers.consumers + 1))
  {
    b := First(t, a, a.sh, a.th.(pc := U(AddReader, None)));
    if a.sh.readers.consumers == U16_MOD - 1 {
      b := Next(t, a, b, a.sh, a.th.(pc := Idle));
    } else {
      var c := b;
      b := UpdateAlone(t, c);
      Then(t, a, c, b);
    }
  }

  /** `remove_reader`: one consumer less, and nobody notified; it panics when there is none. */
  lemma RemoveReaderAlone(t: nat, a: Local) returns (b: Local)
    requires a.th.pc == Idle
    ensures Alone(t, a, b) && b.th == a.th
    ensures b.sh == if a.sh.readers.consumers == 0 then a.sh
                    else a.sh.(readers := a.sh.readers.(consumers := a.sh.readers.consumers - 1))
  {
    b := First(t, a, a.sh, a.th.(pc := U(RemoveReader, None)));
    if a.sh.readers.consumers == 0 {
      b := Next(t, a, b, a.sh, a.th.(pc := Idle));
    } else {
      var c := b;
      b := UpdateAlone(t, c);
      Then(t, a, c, b);
    }
  }

  /** `set_target_read_count`, with the mutex free. */
  lemma SetTargetAlone(t: nat, a: Local, count: U16) returns (b: Local)
    requires a.th.pc == Idle && a.sh.lock == None
    ensures Alone(t, a, b) && b == Local(a.sh.(readers := a.sh.readers.(target := count)), a.th)
  {
    b := First(t, a, a.sh, a.th.(pc := W(TargetLock(count))));
    var c := Next(t, a, b, a.sh.(lock := Some(t)), a.th.(pc := U(SetTarget(count), None)));
    b := UpdateAlone(t, c);
    Then(t, a, c, b);
    b := Next(t, a, b, b.sh.(lock := None), a.th);
  }
}
