/** What stop and the writing flag bound: output after stop, and reader activity during a drain. */
module Progress {
  import opened Words
  import opened Machine
  import opened Counting
  import opened Exclusion
  import opened Safety

  // ---------- stop ----------

  /** A write attempt past its initial stop check that has neither published nor given up. */
  predicate InFlight(th: Thread) {
    match th.pc
    case W(w) => !w.Unlock? && !w.TargetLock?
    case U(m, _) => m.Reset?
    case N(sig, _) => sig.Kick?
    case _ => false
  }

  /** Stopped stays stopped, and then a publish uses up an attempt while no attempt begins. */
  ghost predicate StopEffect(sh: Shared, th: Thread, sh': Shared, th': Thread) {
    sh.seqw.stopped ==>
      sh'.seqw.stopped && |sh.pub| <= |sh'.pub| && |sh'.pub| + One(InFlight(th')) <= |sh.pub| + One(InFlight(th))
  }

  lemma EnterStops(sh: Shared, t: nat, th: Thread, sh': Shared, th': Thread)
    requires th.pc.W? && EnterMoved(sh, t, th, sh', th')
    ensures StopEffect(sh, th, sh', th')
  {
  }

  lemma GrantStops(sh: Shared, th: Thread, sh': Shared, th': Thread)
    requires th.pc.W? && GrantMoved(sh, th, sh', th')
    ensures StopEffect(sh, th, sh', th')
  {
  }

  lemma OtherStops(sh: Shared, t: nat, th: Thread, sh': Shared, th': Thread)
    requires !th.pc.W? && Moved(sh, t, th, sh', th')
    ensures StopEffect(sh, th, sh', th')
  {
  }

  lemma StopStep(s: State, t: nat, s': State)
    requires Step(s, t, s') && s.sh.seqw.stopped
    ensures s'.sh.seqw.stopped && |s.sh.pub| <= |s'.sh.pub|
    ensures |s'.sh.pub| + |Where(s'.threads, InFlight)| <= |s.sh.pub| + |Where(s.threads, InFlight)|
  {
    var th, th' := s.threads[t], s'.threads[t];
    WhereUpdate(s.threads, t, th', InFlight);
    if !th.pc.W? {
      OtherStops(s.sh, t, th, s'.sh, th');
    } else if EnterMoved(s.sh, t, th, s'.sh, th') {
      EnterStops(s.sh, t, th, s'.sh, th');
    } else {
      GrantStops(s.sh, th, s'.sh, th');
    }
  }

  /** Stop is permanent, and from any stopped state on at most as many messages are published as there
      were write attempts in flight in that state. */
  lemma {:induction false} StopBounds(run: seq<State>, tids: seq<nat>, i: nat, j: nat)
    requires Run(run, tids) && i <= j < |run| && run[i].sh.seqw.stopped
    ensures run[j].sh.seqw.stopped
    ensures |run[i].sh.pub| <= |run[j].sh.pub| <= |run[i].sh.pub| + |Where(run[i].threads, InFlight)|
    ensures |run[j].sh.pub| + |Where(run[j].threads, InFlight)| <= |run[i].sh.pub| + |Where(run[i].threads, InFlight)|
    decreases j
  {
    if i < j {
      StopBounds(run, tids, i, j - 1);
      assert StepAt(run, tids, j - 1);
      StopStep(run[j - 1], tids[j - 1], run[j]);
    }
  }

  // ---------- drain ----------

  /** How many register, verify, unregister or release steps a reader thread can still take while the flag
      is up. */
  function Weight(th: Thread): nat {
    match th.pc
    case U(m, _) => if m.Register? then 3 else if m.Unregister? || m.Release? then 1 else 0
    case R(r) => if r.RVerify? then 2 else if r.RGuard? then 1 else 0
    case _ => 0
  }

  /** A register, verify, unregister or release step. */
  predicate ReaderMove(th: Thread, th': Thread) {
    || Registered(th) != Registered(th')
    || (th.pc == R(RVerify) && th'.pc != R(RVerify))
  }

  ghost predicate DrainEffect(th: Thread, th': Thread) {
    Weight(th') + One(ReaderMove(th, th')) <= Weight(th)
  }

  lemma ReaderDrains(sh: Shared, t: nat, th: Thread, sh': Shared, th': Thread)
    requires (th.pc.U? || th.pc.R?) && Moved(sh, t, th, sh', th') && sh.seqw.writing
    ensures DrainEffect(th, th')
  {
  }

  lemma OtherDrains(sh: Shared, t: nat, th: Thread, sh': Shared, th': Thread)
    requires !(th.pc.U? || th.pc.R?) && Moved(sh, t, th, sh', th')
    ensures DrainEffect(th, th')
  {
    if th.pc.W? && !EnterMoved(sh, t, th, sh', th') {
      assert Weight(th') == 0;
    }
  }

  ghost function TotalWeight(ts: seq<Thread>): nat {
    if ts == [] then 0 else TotalWeight(ts[..|ts| - 1]) + Weight(ts[|ts| - 1])
  }

  lemma {:induction false} TotalUpdate(ts: seq<Thread>, t: nat, th: Thread)
    requires t < |ts|
    ensures TotalWeight(ts[t := th]) + Weight(ts[t]) == TotalWeight(ts) + Weight(th)
  {
    var n := |ts| - 1;
    if t == n {
      assert ts[t := th][..n] == ts[..n];
    } else {
      assert ts[t := th][..n] == ts[..n][t := th];
      TotalUpdate(ts[..n], t, th);
    }
  }

  /** Every registered reader still weighs something. */
  lemma {:induction false} TotalCovers(ts: seq<Thread>)
    ensures |Where(ts, Registered)| <= TotalWeight(ts)
    ensures TotalWeight(ts) <= 3 * |ts|
  {
    if ts == [] {
      assert Where(ts, Registered) == {};
    } else {
      var n := |ts| - 1;
      TotalCovers(ts[..n]);
      var before, last := Where(ts[..n], Registered), if Registered(ts[n]) then {n} else {};
      assert Where(ts, Registered) == before + last;
      assert before !! last;
    }
  }

  lemma DrainStep(s: State, t: nat, s': State)
    requires Step(s, t, s') && s.sh.seqw.writing
    ensures DrainEffect(s.threads[t], s'.threads[t])
    ensures TotalWeight(s'.threads) + One(ReaderMove(s.threads[t], s'.threads[t])) <= TotalWeight(s.threads)
  {
    var th, th' := s.threads[t], s'.threads[t];
    if th.pc.U? || th.pc.R? {
      ReaderDrains(s.sh, t, th, s'.sh, th');
    } else {
      OtherDrains(s.sh, t, th, s'.sh, th');
    }
    TotalUpdate(s.threads, t, th');
  }

  lemma DrainAt(run: seq<State>, tids: seq<nat>, i: nat)
    requires Run(run, tids) && i < |tids| && run[i].sh.seqw.writing
    ensures DrainEffect(run[i].threads[tids[i]], run[i + 1].threads[tids[i]])
    ensures run[i + 1].threads == run[i].threads[tids[i] := run[i + 1].threads[tids[i]]]
    ensures TotalWeight(run[i + 1].threads) + One(ReaderMove(run[i].threads[tids[i]], run[i + 1].threads[tids[i]]))
            <= TotalWeight(run[i].threads)
  {
    assert StepAt(run, tids, i);
    DrainStep(run[i], tids[i], run[i + 1]);
  }

  ghost predicate FlagUp(run: seq<State>, i: nat, j: nat)
    requires i <= j < |run|
  {
    forall k :: i <= k < j ==> run[k].sh.seqw.writing
  }

  /** How many of the steps from state `i` to state `j` are register, verify, unregister or release steps. */
  ghost function ReaderMoves(run: seq<State>, tids: seq<nat>, i: nat, j: nat): nat
    requires Run(run, tids) && i <= j < |run|
    decreases j
  {
    if i == j then 0 else
      ReaderMoves(run, tids, i, j - 1)
      + One(ReaderMove(run[j - 1].threads[tids[j - 1]], run[j].threads[tids[j - 1]]))
  }

  lemma DrainedIdle(run: seq<State>, tids: seq<nat>, j: nat)
    requires Run(run, tids) && j < |run|
    ensures run[j].sh.readers.active <= TotalWeight(run[j].threads)
  {
    SafeAlways(run, tids, j);
    TotalCovers(run[j].threads);
  }

  /** While the flag stays up the total weight pays for every reader move, and it is at most three per
      thread. At weight zero no reader is active. */
  lemma {:induction false} DrainEnds(run: seq<State>, tids: seq<nat>, i: nat, j: nat)
    requires Run(run, tids) && i <= j < |run| && FlagUp(run, i, j)
    ensures TotalWeight(run[j].threads) + ReaderMoves(run, tids, i, j)
            <= TotalWeight(run[i].threads) <= 3 * |run[i].threads|
    ensures TotalWeight(run[j].threads) == 0 ==> run[j].sh.readers.active == 0
    decreases j
  {
    DrainedIdle(run, tids, j);
    TotalCovers(run[i].threads);
    if i < j {
      DrainEnds(run, tids, i, j - 1);
      DrainAt(run, tids, j - 1);
    }
  }

  /** How often thread `t` registers between states `i` and `j`. */
  ghost function Registrations(run: seq<State>, tids: seq<nat>, t: nat, i: nat, j: nat): nat
    requires Run(run, tids) && i <= j < |run| && t < |run[0].threads|
    decreases j
  {
    if i == j then 0 else
      Registrations(run, tids, t, i, j - 1)
      + One(!Registered(run[j - 1].threads[t]) && Registered(run[j].threads[t]))
  }

  /** While the flag stays up no thread registers twice. */
  lemma {:induction false} RegistersOnce(run: seq<State>, tids: seq<nat>, t: nat, i: nat, j: nat)
    requires Run(run, tids) && i <= j < |run| && t < |run[0].threads| && FlagUp(run, i, j)
    ensures Registrations(run, tids, t, i, j) + One(Weight(run[j].threads[t]) == 3)
            <= One(Weight(run[i].threads[t]) == 3)
    ensures Registrations(run, tids, t, i, j) <= 1
    ensures Weight(run[j].threads[t]) <= Weight(run[i].threads[t])
    decreases j
  {
    if i < j {
      RegistersOnce(run, tids, t, i, j - 1);
      DrainAt(run, tids, j - 1);
    }
  }
}
