/** The protocol machine with its mutex replaced by the futex lock, and why the atomic mutex is a fair picture
    of it. */
module LockedMachine {
  import opened Words
  import opened Machine
  import opened Exclusion
  import FutexLock

  /** The protocol's threads and shared memory, whose `lock` field is not used, and the lock's own word and
      program counters. */
  datatype Locked = Locked(base: State, futex: FutexLock.State)

  /** Calling `lock`. */
  predicate Locking(th: Thread) { th.pc.W? && (th.pc.w.Lock? || th.pc.w.TargetLock?) }

  /** A step of thread `t`: inside `unlock` after its swap, inside `lock`, the swap of `unlock`, or a step
      of the protocol away from the mutex. */
  ghost predicate LockedStep(c: Locked, t: nat, wakes: Option<nat>, c': Locked) {
    && t < |c.base.threads| == |c'.base.threads| == |c.futex.threads| == |c'.futex.threads|
    && var th, th' := c.base.threads[t], c'.base.threads[t];
    && c'.base.threads == c.base.threads[t := th']
    && if c.futex.threads[t] == FutexLock.Waking then
         FutexLock.Step(c.futex, t, wakes, c'.futex) && c'.base == c.base
       else if Locking(th) then
         && FutexLock.Step(c.futex, t, wakes, c'.futex)
         && c'.base.sh == c.base.sh
         && if c'.futex.threads[t] == FutexLock.Held then Moved(c.base.sh, t, th, c.base.sh.(lock := Some(t)), th')
            else th' == th
       else if th.pc == W(Unlock) then
         && FutexLock.Step(c.futex, t, wakes, c'.futex)
         && c'.base.sh == c.base.sh && th' == th.(pc := Idle)
       else c'.futex == c.futex && Moved(c.base.sh, t, th, c'.base.sh, th')
  }

  /** The state as the protocol machine has it. */
  ghost function Abstract(c: Locked): State {
    State(c.base.sh.(lock := FutexLock.Holder(c.futex)), c.base.threads)
  }

  /** The lock's program counters go with the protocol's. */
  predicate Paired(th: Thread, pc: FutexLock.PC) {
    && (HoldsLock(th) <==> pc == FutexLock.Held)
    && (pc == FutexLock.Waking ==> th.pc == Idle)
    && (pc == FutexLock.Out || pc == FutexLock.Held || pc == FutexLock.Waking || Locking(th))
  }

  ghost predicate LockedInv(c: Locked) {
    && |c.base.threads| == |c.futex.threads| && c.base.sh.lock == None
    && FutexLock.Exclusive(c.futex) && FutexLock.Minded(c.futex)
    && forall t :: 0 <= t < |c.base.threads| ==> Paired(c.base.threads[t], c.futex.threads[t])
  }

  // ---------- steps away from the mutex ----------

  predicate Free(th: Thread) { !Locking(th) && th.pc != W(Unlock) }

  /** They neither read nor change the `lock` field, nor who holds the mutex. */
  ghost predicate FreeEffect(sh: Shared, t: nat, th: Thread, sh': Shared, th': Thread, lock: Option<nat>) {
    && sh'.lock == sh.lock && HoldsLock(th') == HoldsLock(th)
    && Moved(sh.(lock := lock), t, th, sh'.(lock := lock), th')
  }

  lemma EnterFree(sh: Shared, t: nat, th: Thread, sh': Shared, th': Thread, lock: Option<nat>)
    requires Free(th) && th.pc.W? && EnterMoved(sh, t, th, sh', th')
    ensures FreeEffect(sh, t, th, sh', th', lock)
  {
  }

  lemma DrainFree(sh: Shared, t: nat, th: Thread, sh': Shared, th': Thread, lock: Option<nat>)
    requires Free(th) && th.pc.W? && DrainMoved(sh, th, sh', th')
    ensures FreeEffect(sh, t, th, sh', th', lock)
  {
  }

  lemma PublishFree(sh: Shared, t: nat, th: Thread, sh': Shared, th': Thread, lock: Option<nat>)
    requires Free(th) && th.pc.W? && PublishMoved(sh, th, sh', th')
    ensures FreeEffect(sh, t, th, sh', th', lock)
  {
  }

  lemma OtherFree(sh: Shared, t: nat, th: Thread, sh': Shared, th': Thread, lock: Option<nat>)
    requires !th.pc.W? && Moved(sh, t, th, sh', th')
    ensures FreeEffect(sh, t, th, sh', th', lock)
  {
  }

  lemma FreeMoves(sh: Shared, t: nat, th: Thread, sh': Shared, th': Thread, lock: Option<nat>)
    requires Free(th) && Moved(sh, t, th, sh', th')
    ensures FreeEffect(sh, t, th, sh', th', lock)
  {
    if !th.pc.W? {
      OtherFree(sh, t, th, sh', th', lock);
    } else if EnterMoved(sh, t, th, sh', th') {
      EnterFree(sh, t, th, sh', th', lock);
    } else if DrainMoved(sh, th, sh', th') {
      DrainFree(sh, t, th, sh', th', lock);
    } else {
      PublishFree(sh, t, th, sh', th', lock);
    }
  }

  // ---------- every step ----------

  lemma LockKeeps(c: Locked, t: nat, wakes: Option<nat>, c': Locked)
    requires LockedInv(c) && |c.base.threads| == |c'.base.threads| && FutexLock.Step(c.futex, t, wakes, c'.futex)
    requires c'.base.sh == c.base.sh && c'.base.threads == c.base.threads[t := c'.base.threads[t]]
    requires Paired(c'.base.threads[t], c'.futex.threads[t])
    ensures LockedInv(c')
  {
    FutexLock.ExclusiveStep(c.futex, t, wakes, c'.futex);
    FutexLock.MindedStep(c.futex, t, wakes, c'.futex);
    forall u | 0 <= u < |c.base.threads| ensures Paired(c'.base.threads[u], c'.futex.threads[u]) {
      assert Paired(c.base.threads[u], c.futex.threads[u]);
    }
  }

  /** A step inside `lock` or `unlock`. */
  lemma LockPairs(c: Locked, t: nat, wakes: Option<nat>, c': Locked)
    requires LockedInv(c) && LockedStep(c, t, wakes, c')
    requires c.futex.threads[t] == FutexLock.Waking || !Free(c.base.threads[t])
    ensures Paired(c'.base.threads[t], c'.futex.threads[t])
    ensures FutexLock.Step(c.futex, t, wakes, c'.futex) && c'.base.sh == c.base.sh
  {
    assert Paired(c.base.threads[t], c.futex.threads[t]);
    FutexLock.HeldMoves(c.futex.word, c.futex.threads[t], c'.futex.word, c'.futex.threads[t]);
  }

  lemma LockedKeeps(c: Locked, t: nat, wakes: Option<nat>, c': Locked)
    requires LockedInv(c) && LockedStep(c, t, wakes, c')
    ensures LockedInv(c')
  {
    var th, th' := c.base.threads[t], c'.base.threads[t];
    assert Paired(th, c.futex.threads[t]);
    if c.futex.threads[t] == FutexLock.Waking || !Free(th) {
      LockPairs(c, t, wakes, c');
      LockKeeps(c, t, wakes, c');
    } else {
      FreeMoves(c.base.sh, t, th, c'.base.sh, th', None);
    }
  }

  /** Every step is a step of the protocol machine with its atomic mutex, or invisible to it. */
  lemma LockedRefines(c: Locked, t: nat, wakes: Option<nat>, c': Locked)
    requires LockedInv(c) && LockedStep(c, t, wakes, c')
    ensures Abstract(c') == Abstract(c) || Step(Abstract(c), t, Abstract(c'))
  {
    LockedKeeps(c, t, wakes, c');
    var th, th' := c.base.threads[t], c'.base.threads[t];
    assert Paired(th, c.futex.threads[t]);
    if c.futex.threads[t] == FutexLock.Waking || !Free(th) {
      LockPairs(c, t, wakes, c');
      FutexLock.HolderStep(c.futex, t, wakes, c'.futex);
      if th' == th {
        assert c'.base.threads == c.base.threads;
      }
    } else {
      FreeMoves(c.base.sh, t, th, c'.base.sh, th', FutexLock.Holder(c.futex));
    }
  }

  // ---------- every run ----------

  ghost predicate LockedInit(c: Locked) {
    Init(c.base) && FutexLock.Init(c.futex) && |c.base.threads| == |c.futex.threads|
  }

  lemma LockedBegins(c: Locked)
    requires LockedInit(c)
    ensures LockedInv(c) && Init(Abstract(c))
  {
  }

  ghost predicate LockedStepAt(run: seq<Locked>, actions: seq<FutexLock.Action>, i: nat)
    requires |run| == |actions| + 1 && i < |actions|
  {
    LockedStep(run[i], actions[i].tid, actions[i].wakes, run[i + 1])
  }

  ghost predicate LockedRun(run: seq<Locked>, actions: seq<FutexLock.Action>) {
    && |run| == |actions| + 1
    && LockedInit(run[0])
    && forall i :: 0 <= i < |actions| ==> LockedStepAt(run, actions, i)
  }

  /** `abs` is `run` as the protocol machine sees it: state `k` of `run` is state `at[k]` of `abs`, and `abs`
      skips nothing. */
  ghost predicate Pictures(run: seq<Locked>, n: nat, abs: seq<State>, at: seq<nat>)
    requires n < |run|
  {
    && |at| == n + 1 && at[0] == 0 && at[n] + 1 == |abs|
    && (forall k :: 0 <= k < n ==> at[k] <= at[k + 1] <= at[k] + 1)
    && forall k :: 0 <= k <= n ==> at[k] < |abs| && abs[at[k]] == Abstract(run[k])
  }

  lemma PicturesStay(run: seq<Locked>, n: nat, abs: seq<State>, at: seq<nat>)
    requires n + 1 < |run| && Pictures(run, n, abs, at) && Abstract(run[n + 1]) == Abstract(run[n])
    ensures Pictures(run, n + 1, abs, at + [at[n]])
  {
  }

  lemma PicturesGrow(run: seq<Locked>, n: nat, abs: seq<State>, at: seq<nat>)
    requires n + 1 < |run| && Pictures(run, n, abs, at)
    ensures Pictures(run, n + 1, abs + [Abstract(run[n + 1])], at + [|abs|])
  {
  }

  lemma {:induction false} LockedAlways(run: seq<Locked>, actions: seq<FutexLock.Action>, i: nat)
    requires LockedRun(run, actions) && i < |run|
    ensures LockedInv(run[i])
  {
    if i == 0 {
      LockedBegins(run[0]);
    } else {
      LockedAlways(run, actions, i - 1);
      assert LockedStepAt(run, actions, i - 1);
      LockedKeeps(run[i - 1], actions[i - 1].tid, actions[i - 1].wakes, run[i]);
    }
  }

  lemma LockedAt(run: seq<Locked>, actions: seq<FutexLock.Action>, i: nat)
    requires LockedRun(run, actions) && i < |actions|
    ensures Abstract(run[i + 1]) == Abstract(run[i]) || Step(Abstract(run[i]), actions[i].tid, Abstract(run[i + 1]))
  {
    LockedAlways(run, actions, i);
    assert LockedStepAt(run, actions, i);
    LockedRefines(run[i], actions[i].tid, actions[i].wakes, run[i + 1]);
  }

  /** The protocol over the futex lock simulates the protocol over an atomic mutex, run for run. So whatever
      is proved of every run of the protocol machine holds with the futex lock in place. */
  lemma {:induction false} LockedRunRefines(run: seq<Locked>, actions: seq<FutexLock.Action>, n: nat)
    returns (abs: seq<State>, tids: seq<nat>, at: seq<nat>)
    requires LockedRun(run, actions) && n < |run|
    ensures Run(abs, tids) && Pictures(run, n, abs, at)
  {
    if n == 0 {
      LockedBegins(run[0]);
      abs, tids, at := [Abstract(run[0])], [], [0];
    } else {
      abs, tids, at := LockedRunRefines(run, actions, n - 1);
      LockedAt(run, actions, n - 1);
      if Abstract(run[n]) == Abstract(run[n - 1]) {
        PicturesStay(run, n - 1, abs, at);
        at := at + [at[n - 1]];
      } else {
        LongerRun(abs, tids, actions[n - 1].tid, Abstract(run[n]));
        PicturesGrow(run, n - 1, abs, at);
        abs, tids, at := abs + [Abstract(run[n])], tids + [actions[n - 1].tid], at + [|abs|];
      }
    }
  }

  // ---------- the other way round ----------

  ghost predicate StepOf(c: Locked, t: nat, c': Locked) {
    exists wakes :: LockedStep(c, t, wakes, c')
  }

  /** States joined by steps of thread `t` alone. */
  ghost predicate PathOf(path: seq<Locked>, t: nat) {
    path != [] && forall k :: 0 < k < |path| ==> StepOf(path[k - 1], t, path[k])
  }

  lemma StepKeeps(c: Locked, t: nat, c': Locked)
    requires LockedInv(c) && StepOf(c, t, c')
    ensures LockedInv(c')
  {
    var wakes :| LockedStep(c, t, wakes, c');
    LockedKeeps(c, t, wakes, c');
  }

  lemma {:induction false} PathKeeps(path: seq<Locked>, t: nat, k: nat)
    requires PathOf(path, t) && LockedInv(path[0]) && k < |path|
    ensures LockedInv(path[k])
  {
    if k > 0 {
      PathKeeps(path, t, k - 1);
      StepKeeps(path[k - 1], t, path[k]);
    }
  }

  /** A wake-up still owed is given first; the protocol does not see it. */
  lemma WakesFirst(c: Locked, t: nat) returns (c': Locked)
    requires LockedInv(c) && t < |c.base.threads| && c.futex.threads[t] == FutexLock.Waking
    ensures StepOf(c, t, c') && LockedInv(c') && Abstract(c') == Abstract(c)
    ensures c'.futex.threads[t] == FutexLock.Out
  {
    var awake := c.futex.threads[t := FutexLock.Out];
    var wakes: Option<nat> := None;
    c' := Locked(c.base, FutexLock.State(c.futex.word, awake));
    if u :| 0 <= u < |c.futex.threads| && c.futex.threads[u] == FutexLock.Asleep {
      wakes := Some(u);
      c' := Locked(c.base, FutexLock.State(c.futex.word, awake[u := FutexLock.Respin]));
    }
    assert c.base.threads == c.base.threads[t := c.base.threads[t]];
    assert LockedStep(c, t, wakes, c');
    LockedKeeps(c, t, wakes, c');
    FutexLock.HolderStep(c.futex, t, wakes, c'.futex);
  }

  /** A step away from the mutex is the same step here. */
  lemma FreeMatches(c: Locked, t: nat, s': State) returns (c': Locked)
    requires LockedInv(c) && Step(Abstract(c), t, s') && Free(c.base.threads[t])
    requires c.futex.threads[t] != FutexLock.Waking
    ensures StepOf(c, t, c') && Abstract(c') == s'
  {
    var a := Abstract(c);
    FreeMoves(a.sh, t, a.threads[t], s'.sh, s'.threads[t], None);
    assert a.sh.(lock := None) == c.base.sh;
    c' := Locked(State(s'.sh.(lock := None), s'.threads), c.futex);
    assert LockedStep(c, t, None, c');
  }

  /** Releasing the mutex is the swap of `unlock`. */
  lemma UnlockMatches(c: Locked, t: nat, s': State) returns (c': Locked)
    requires LockedInv(c) && Step(Abstract(c), t, s') && c.base.threads[t].pc == W(Unlock)
    ensures StepOf(c, t, c') && Abstract(c') == s'
  {
    assert Paired(c.base.threads[t], c.futex.threads[t]);
    var futex := FutexLock.CanMove(c.futex, t);
    c' := Locked(State(c.base.sh, s'.threads), futex);
    assert LockedStep(c, t, None, c');
    FutexLock.HeldMoves(c.futex.word, FutexLock.Held, futex.word, futex.threads[t]);
    FutexLock.ExclusiveStep(c.futex, t, None, futex);
    FutexLock.HolderStep(c.futex, t, None, futex);
  }

  /** Taking the free mutex is a call of `lock`, left to run. */
  lemma LockMatches(c: Locked, t: nat, s': State) returns (path: seq<Locked>)
    requires LockedInv(c) && Step(Abstract(c), t, s') && Locking(c.base.threads[t])
    requires FutexLock.Acquiring(c.futex.threads[t])
    ensures PathOf(path, t) && path[0] == c && Abstract(path[|path| - 1]) == s'
  {
    var th' := s'.threads[t];
    NobodyHolds(c);
    var futex := FutexLock.RunsToLock(c.futex, t);
    var n := |futex| - 1;
    var base' := State(c.base.sh, s'.threads);
    path := seq(n + 1, k requires 0 <= k <= n => Locked(if k < n then c.base else base', futex[k]));
    forall k | 0 < k <= n ensures StepOf(path[k - 1], t, path[k]) {
      assert FutexLock.Step(futex[k - 1], t, None, futex[k]);
      assert c.base.threads == c.base.threads[t := c.base.threads[t]];
      assert LockedStep(path[k - 1], t, None, path[k]);
    }
    PathKeeps(path, t, n);
    FutexLock.HolderIs(futex[n], t);
  }

  lemma NobodyHolds(c: Locked)
    requires LockedInv(c) && FutexLock.Holder(c.futex) == None
    ensures c.futex.word == FutexLock.Unlocked
  {
    forall t: nat | t < |c.futex.threads| ensures c.futex.threads[t] != FutexLock.Held {
      FutexLock.HolderIs(c.futex, t);
    }
  }

  lemma CallMatches(c: Locked, t: nat) returns (c': Locked)
    requires LockedInv(c) && t < |c.base.threads| && Locking(c.base.threads[t]) && c.futex.threads[t] == FutexLock.Out
    ensures StepOf(c, t, c') && LockedInv(c') && Abstract(c') == Abstract(c)
    ensures c'.futex.threads[t] == FutexLock.Fast
  {
    c' := Locked(c.base, FutexLock.State(c.futex.word, c.futex.threads[t := FutexLock.Fast]));
    assert c.base.threads == c.base.threads[t := c.base.threads[t]];
    assert LockedStep(c, t, None, c');
    LockedKeeps(c, t, None, c');
    FutexLock.HolderStep(c.futex, t, None, c'.futex);
  }

  /** Whatever the protocol can do over an atomic mutex it can do over the futex lock: every step of a thread
      there is matched by steps of that thread alone here. */
  lemma LockedMatches(c: Locked, t: nat, s': State) returns (path: seq<Locked>)
    requires LockedInv(c) && Step(Abstract(c), t, s')
    ensures PathOf(path, t) && path[0] == c && Abstract(path[|path| - 1]) == s'
  {
    if c.futex.threads[t] == FutexLock.Waking {
      var c1 := WakesFirst(c, t);
      var rest := AwakeMatches(c1, t, s');
      path := [c] + rest;
    } else {
      path := AwakeMatches(c, t, s');
    }
  }

  lemma AwakeMatches(c: Locked, t: nat, s': State) returns (path: seq<Locked>)
    requires LockedInv(c) && Step(Abstract(c), t, s') && c.futex.threads[t] != FutexLock.Waking
    ensures PathOf(path, t) && path[0] == c && Abstract(path[|path| - 1]) == s'
  {
    var th := c.base.threads[t];
    assert Paired(th, c.futex.threads[t]);
    if Free(th) {
      var c' := FreeMatches(c, t, s');
      path := [c, c'];
    } else if th.pc == W(Unlock) {
      var c' := UnlockMatches(c, t, s');
      path := [c, c'];
    } else if c.futex.threads[t] == FutexLock.Out {
      var c1 := CallMatches(c, t);
      var rest := LockMatches(c1, t, s');
      path := [c] + rest;
    } else {
      path := LockMatches(c, t, s');
    }
  }
}
