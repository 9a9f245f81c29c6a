/** The three-state futex lock as an interleaving step machine.

    `futex_wait` is an atomic compare-and-sleep that may return spuriously, `futex_wake_one` wakes one
    sleeper of its choice if there is one. The bounded spinning is any number of loads. */
module FutexLock {
  import opened Words

  datatype Word = Unlocked | Locked | Contended

  /** What a thread does next: `Fast` is the compare-and-swap of `lock`, `Spin` the loads of the first
      `spin`, `Second` the swap attempt after it, `Mark` the swap to `Contended`, `Wait` the futex call,
      `Respin` the loads of the later `spin`s, `Waking` the wake-up owed by `unlock`. */
  datatype PC = Out | Fast | Spin | Second | Mark | Wait | Asleep | Respin | Held | Waking

  datatype State = State(word: Word, threads: seq<PC>)

  /** Where `spin` leads after loading `word`: an unlocked word is tried without marking after the first
      spin only; a locked one is loaded again until the spins run out. */
  ghost predicate Spun(first: bool, word: Word, pc': PC) {
    match word
    case Unlocked => pc' == if first then Second else Mark
    case Contended => pc' == Wait
    case Locked => pc' == (if first then Spin else Respin) || pc' == Mark
  }

  /** One atomic action of a thread at `pc`, other threads aside. */
  ghost predicate Moved(word: Word, pc: PC, word': Word, pc': PC) {
    match pc
    case Out => // lock, or a complete try_lock
      || (word' == word && pc' == Fast)
      || (if word == Unlocked then word' == Locked && pc' == Held else word' == word && pc' == Out)
    case Fast => if word == Unlocked then word' == Locked && pc' == Held else word' == word && pc' == Spin
    case Spin => word' == word && Spun(true, word, pc')
    case Second =>
      if word == Unlocked then word' == Locked && pc' == Held
      else word' == word && pc' == if word == Contended then Wait else Mark
    case Mark => word' == Contended && pc' == if word == Unlocked then Held else Wait
    case Wait => word' == word && pc' == if word == Contended then Asleep else Respin
    case Asleep => word' == word && pc' == Respin // spuriously
    case Respin => word' == word && Spun(false, word, pc')
    case Held => word' == Unlocked && pc' == if word == Contended then Waking else Out
    case Waking => word' == word && pc' == Out
  }

  /** A step of thread `t`. If it is the wake-up owed by an unlock, `wakes` is the sleeper it wakes, and
      there is one whenever somebody sleeps. */
  ghost predicate Step(s: State, t: nat, wakes: Option<nat>, s': State) {
    && t < |s.threads| == |s'.threads|
    && Moved(s.word, s.threads[t], s'.word, s'.threads[t])
    && match wakes
       case None =>
         && s'.threads == s.threads[t := s'.threads[t]]
         && (s.threads[t] == Waking ==> forall u :: 0 <= u < |s.threads| ==> s.threads[u] != Asleep)
       case Some(u) =>
         && s.threads[t] == Waking && u < |s.threads| && s.threads[u] == Asleep
         && s'.threads == s.threads[t := s'.threads[t]][u := Respin]
  }

  ghost predicate Init(s: State) {
    s.word == Unlocked && forall t :: 0 <= t < |s.threads| ==> s.threads[t] == Out
  }

  datatype Action = Action(tid: nat, wakes: Option<nat>)

  ghost predicate StepAt(run: seq<State>, actions: seq<Action>, i: nat)
    requires |run| == |actions| + 1 && i < |actions|
  {
    Step(run[i], actions[i].tid, actions[i].wakes, run[i + 1])
  }

  ghost predicate Run(run: seq<State>, actions: seq<Action>) {
    && |run| == |actions| + 1
    && Init(run[0])
    && forall i :: 0 <= i < |actions| ==> StepAt(run, actions, i)
  }

  // ---------- mutual exclusion ----------

  /** The word is not `Unlocked` exactly when somebody holds the lock, and only one thread does. */
  ghost predicate Exclusive(s: State) {
    && (forall t, u :: 0 <= t < |s.threads| && 0 <= u < |s.threads| && s.threads[t] == s.threads[u] == Held ==> t == u)
    && (s.word == Unlocked <==> forall t :: 0 <= t < |s.threads| ==> s.threads[t] != Held)
  }

  lemma HeldMoves(word: Word, pc: PC, word': Word, pc': PC)
    requires Moved(word, pc, word', pc')
    ensures pc' == Held ==> pc != Held && word == Unlocked && word' != Unlocked
    ensures pc == Held ==> word' == Unlocked
    ensures pc != Held && pc' != Held ==> (word' == Unlocked <==> word == Unlocked)
  {
  }

  lemma ExclusiveStep(s: State, t: nat, wakes: Option<nat>, s': State)
    requires Exclusive(s) && Step(s, t, wakes, s')
    ensures Exclusive(s')
  {
    HeldMoves(s.word, s.threads[t], s'.word, s'.threads[t]);
    if s.word != Unlocked {
      var h :| 0 <= h < |s.threads| && s.threads[h] == Held;
      assert h != t ==> s'.threads[h] == Held;
    }
  }

  // ---------- no sleeper is forgotten ----------

  /** Awake inside the loop of `lock_contended`, on the way to marking the word or to sleeping on it. */
  predicate Looping(pc: PC) { pc == Mark || pc == Wait || pc == Respin }

  /** Somebody other than the sleepers will still act for them. */
  predicate Minding(word: Word, pc: PC) {
    Looping(pc) || pc == Waking || (pc == Held && word == Contended)
  }

  ghost predicate Minded(s: State) {
    (exists t :: 0 <= t < |s.threads| && s.threads[t] == Asleep) ==>
      exists t :: 0 <= t < |s.threads| && Minding(s.word, s.threads[t])
  }

  lemma MindingMoves(word: Word, pc: PC, word': Word, pc': PC)
    requires Moved(word, pc, word', pc')
    ensures Minding(word, pc) && pc != Waking ==> Minding(word', pc') || (pc' == Asleep && word' == word == Contended)
    ensures pc' == Asleep ==> word' == word == Contended
    ensures word == Contended && pc != Held ==> word' == Contended
  {
  }

  lemma MindedStep(s: State, t: nat, wakes: Option<nat>, s': State)
    requires Exclusive(s) && Minded(s) && Step(s, t, wakes, s')
    ensures Minded(s')
  {
    HeldMoves(s.word, s.threads[t], s'.word, s'.threads[t]);
    MindingMoves(s.word, s.threads[t], s'.word, s'.threads[t]);
    if z :| 0 <= z < |s'.threads| && s'.threads[z] == Asleep {
      if wakes.Some? {
        assert Minding(s'.word, s'.threads[wakes.value]);
      } else if s'.threads[t] == Asleep {
        ContendedHolder(s, t, s');
      } else {
        assert z != t && s.threads[z] == Asleep;
        var m :| 0 <= m < |s.threads| && Minding(s.word, s.threads[m]);
        if m != t {
          assert s'.threads[m] == s.threads[m];
          assert s.threads[m] == Held ==> s.threads[t] != Held;
          assert Minding(s'.word, s'.threads[m]);
        } else {
          assert Minding(s'.word, s'.threads[t]);
        }
      }
    }
  }

  /** Whoever goes to sleep does so under a contended word, whose holder will wake somebody. */
  lemma ContendedHolder(s: State, t: nat, s': State)
    requires Exclusive(s) && s.word == s'.word == Contended && t < |s.threads| == |s'.threads|
    requires s'.threads == s.threads[t := s'.threads[t]] && s.threads[t] != Held
    ensures exists h :: 0 <= h < |s'.threads| && Minding(s'.word, s'.threads[h])
  {
    var h :| 0 <= h < |s.threads| && s.threads[h] == Held;
    assert Minding(s'.word, s'.threads[h]);
  }

  // ---------- every run ----------

  lemma LockAt(run: seq<State>, actions: seq<Action>, i: nat)
    requires Run(run, actions) && i < |actions| && Exclusive(run[i]) && Minded(run[i])
    ensures Exclusive(run[i + 1]) && Minded(run[i + 1])
  {
    assert StepAt(run, actions, i);
    ExclusiveStep(run[i], actions[i].tid, actions[i].wakes, run[i + 1]);
    MindedStep(run[i], actions[i].tid, actions[i].wakes, run[i + 1]);
  }

  /** In every state of every run, whichever mix of fast swap, second swap and marking took the lock: it is
      held by at most one thread, and held exactly when the word says so; and if somebody sleeps, then some
      awake thread is in the contended loop, owes a wake-up, or holds the lock under a contended word. */
  lemma {:induction false} LockAlways(run: seq<State>, actions: seq<Action>, i: nat)
    requires Run(run, actions) && i < |run|
    ensures Exclusive(run[i]) && Minded(run[i])
  {
    if i > 0 {
      LockAlways(run, actions, i - 1);
      LockAt(run, actions, i - 1);
    }
  }

  // ---------- a thread that moves alone ----------

  /** States joined by steps of thread `t` alone, none of them a wake-up. */
  ghost predicate Alone(path: seq<State>, t: nat) {
    path != [] && forall k :: 0 < k < |path| ==> Step(path[k - 1], t, None, path[k])
  }

  predicate Holds(s: State, t: nat) { t < |s.threads| && s.threads[t] == Held }

  /** Inside `lock`. */
  predicate Acquiring(pc: PC) { pc != Out && pc != Held && pc != Waking }

  /** How many steps a thread inside `lock` is away from a free lock. */
  function Distance(pc: PC): nat {
    match pc
    case Fast => 1
    case Second => 1
    case Mark => 1
    case Spin => 2
    case Respin => 2
    case Wait => 3
    case Asleep => 3
    case _ => 0
  }

  /** Wherever it is inside `lock`, a thread that moves alone while the lock is free has it after exactly
      `Distance` steps of its own, at most three. */
  lemma {:induction false} TakesFreeLock(path: seq<State>, t: nat)
    requires Alone(path, t) && path[0].word == Unlocked && t < |path[0].threads| && Acquiring(path[0].threads[t])
    requires Distance(path[0].threads[t]) < |path|
    ensures Holds(path[Distance(path[0].threads[t])], t)
    ensures Distance(path[0].threads[t]) <= 3
    decreases |path|
  {
    assert Step(path[0], t, None, path[1]);
    if path[1].threads[t] != Held {
      TakesFreeLock(path[1..], t);
    }
  }

  /** A thread that is not about to wake somebody can always move. */
  lemma CanMove(s: State, t: nat) returns (s': State)
    requires t < |s.threads| && s.threads[t] != Waking
    ensures Step(s, t, None, s')
    ensures s.word == Unlocked && Acquiring(s.threads[t]) ==>
              s'.threads[t] == Held || (s'.word == Unlocked && Acquiring(s'.threads[t]))
  {
    var pc, w := s.threads[t], s.word;
    var (word', pc') :=
      match pc
      case Out => (w, Fast)
      case Fast => if w == Unlocked then (Locked, Held) else (w, Spin)
      case Spin => (w, if w == Unlocked then Second else if w == Contended then Wait else Mark)
      case Second => if w == Unlocked then (Locked, Held) else (w, if w == Contended then Wait else Mark)
      case Mark => (Contended, if w == Unlocked then Held else Wait)
      case Wait => (w, if w == Contended then Asleep else Respin)
      case Asleep => (w, Respin)
      case Respin => (w, if w == Contended then Wait else Mark)
      case _ => (Unlocked, if w == Contended then Waking else Out);
    s' := State(word', s.threads[t := pc']);
  }

  /** So it does take the free lock, if it is left to run. */
  lemma {:induction false} RunsToLock(s: State, t: nat) returns (path: seq<State>)
    requires t < |s.threads| && s.word == Unlocked && Acquiring(s.threads[t])
    ensures Alone(path, t) && path[0] == s && |path| == Distance(s.threads[t]) + 1 <= 4
    ensures Holds(path[|path| - 1], t)
    ensures forall k :: 0 <= k < |path| ==> |path[k].threads| == |s.threads|
    ensures forall k :: 0 <= k < |path| - 1 ==> Acquiring(path[k].threads[t])
    decreases Distance(s.threads[t])
  {
    var s' := CanMove(s, t);
    if s'.threads[t] == Held {
      path := [s, s'];
    } else {
      var rest := RunsToLock(s', t);
      path := [s] + rest;
    }
  }

  /** A free lock with sleepers always has an awake thread that gets things moving: one inside the contended
      loop, or one that owes a wake-up and gives it to some sleeper. Either that thread or that sleeper then
      has the lock after at most three steps of its own. */
  lemma FreeLockIsMinded(run: seq<State>, actions: seq<Action>, i: nat, z: nat)
    returns (m: nat, u: nat, path: seq<State>)
    requires Run(run, actions) && i < |run| && run[i].word == Unlocked
    requires z < |run[i].threads| && run[i].threads[z] == Asleep
    ensures m < |run[i].threads| && u < |run[i].threads| && Alone(path, u)
    ensures || (Looping(run[i].threads[m]) && u == m && path[0] == run[i])
            || (run[i].threads[m] == Waking && run[i].threads[u] == Asleep && Step(run[i], m, Some(u), path[0]))
    ensures |path| <= 4 && Holds(path[|path| - 1], u)
  {
    LockAlways(run, actions, i);
    m :| 0 <= m < |run[i].threads| && Minding(run[i].word, run[i].threads[m]);
    if run[i].threads[m] == Waking {
      u := z;
      path := RunsToLock(State(Unlocked, run[i].threads[m := Out][u := Respin]), u);
    } else {
      u := m;
      path := RunsToLock(run[i], u);
    }
  }

  /** A thread that finds the lock held goes to sleep on a contended word, if it is left to run. */
  lemma SleepsOnHeldLock(s: State, t: nat) returns (path: seq<State>)
    requires t < |s.threads| && s.word != Unlocked && s.threads[t] == Fast
    ensures Alone(path, t) && path[0] == s
    ensures path[|path| - 1] == State(Contended, s.threads[t := Asleep])
  {
    var s1 := State(s.word, s.threads[t := Spin]);
    var s2 := State(s.word, s.threads[t := if s.word == Contended then Wait else Mark]);
    path := [s, s1, s2];
    if s.word != Contended {
      path := path + [State(Contended, s.threads[t := Wait])];
    }
    path := path + [State(Contended, s.threads[t := Asleep])];
  }

  /** `try_lock` succeeds exactly on a free lock and otherwise changes nothing. */
  lemma TryLockExactly(s: State, t: nat, s': State)
    requires Step(s, t, None, s') && s.threads[t] == Out && s'.threads[t] != Fast
    ensures s'.threads[t] == Held <==> s.word == Unlocked
    ensures s.word != Unlocked ==> s' == s
  {
  }

  // ---------- the lock as the protocol sees it ----------

  ghost function Holder(s: State): Option<nat> {
    if t: nat :| t < |s.threads| && s.threads[t] == Held then Some(t) else None
  }

  lemma HolderIs(s: State, t: nat)
    requires Exclusive(s) && t < |s.threads|
    ensures s.threads[t] == Held <==> Holder(s) == Some(t)
  {
  }

  /** What one step does to the holder: taking needs a free lock, and only the holder gives it up. */
  lemma HolderStep(s: State, t: nat, wakes: Option<nat>, s': State)
    requires Exclusive(s) && Exclusive(s') && Step(s, t, wakes, s')
    ensures s'.threads[t] == Held ==> Holder(s) == None && Holder(s') == Some(t)
    ensures s.threads[t] == Held ==> Holder(s) == Some(t) && Holder(s') == None
    ensures s.threads[t] != Held && s'.threads[t] != Held ==> Holder(s') == Holder(s)
  {
    HeldMoves(s.word, s.threads[t], s'.word, s'.threads[t]);
    HolderIs(s, t);
    HolderIs(s', t);
    if u :| 0 <= u < |s.threads| && u != t && s.threads[u] == Held {
      HolderIs(s, u);
      HolderIs(s', u);
      assert s'.threads[u] == Held;
    }
  }

  /** The lock refines an atomic mutex: a step keeps the holder, or takes a free lock for the acting thread,
      or frees the acting thread's lock. */
  lemma RefinesMutex(run: seq<State>, actions: seq<Action>, i: nat)
    requires Run(run, actions) && i < |actions|
    ensures var before, after, me := Holder(run[i]), Holder(run[i + 1]), Some(actions[i].tid);
            after == before || (before == None && after == me) || (before == me && after == None)
  {
    LockAlways(run, actions, i);
    LockAlways(run, actions, i + 1);
    assert StepAt(run, actions, i);
    HolderStep(run[i], actions[i].tid, actions[i].wakes, run[i + 1]);
  }
}
