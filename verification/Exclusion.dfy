/** Counting threads by what they are doing. */
module Counting {
  import opened Machine

  /** The threads with property `p`. */
  ghost function Where(ts: seq<Thread>, p: Thread -> bool): set<nat> {
    set i: nat | i < |ts| && p(ts[i])
  }

  function One(b: bool): nat { if b then 1 else 0 }

  lemma OneApart(before: set<nat>, after: set<nat>, t: nat)
    requires before - {t} == after - {t}
    ensures |after| + One(t in before) == |before| + One(t in after)
  {
    assert before == (before - {t}) + (if t in before then {t} else {});
    assert after == (after - {t}) + (if t in after then {t} else {});
  }

  /** Moving one thread changes a count by what that thread gains or loses. */
  lemma WhereUpdate(ts: seq<Thread>, t: nat, th: Thread, p: Thread -> bool)
    requires t < |ts|
    ensures |Where(ts[t := th], p)| + One(p(ts[t])) == |Where(ts, p)| + One(p(th))
  {
    OneApart(Where(ts, p), Where(ts[t := th], p), t);
  }

  lemma {:induction false} RangeSize(n: nat, s: set<nat>)
    requires forall i :: i in s ==> i < n
    ensures |s| <= n
  {
    if n > 0 {
      RangeSize(n - 1, s - {n - 1});
      if n - 1 in s {
        assert s == (s - {n - 1}) + {n - 1};
      } else {
        assert s == s - {n - 1};
      }
    }
  }

  lemma WhereBound(ts: seq<Thread>, p: Thread -> bool)
    ensures |Where(ts, p)| <= |ts|
  {
    RangeSize(|ts|, Where(ts, p));
  }

  lemma WhereEmpty(ts: seq<Thread>, p: Thread -> bool)
    requires |Where(ts, p)| == 0
    ensures forall i :: 0 <= i < |ts| ==> !p(ts[i])
  {
    forall i | 0 <= i < |ts| ensures !p(ts[i]) {
      assert i in Where(ts, p) <==> p(ts[i]);
    }
  }
}

/** Read/write exclusion: the mutex, the flag and the reader count keep guards apart. */
module Exclusion {
  import opened Words
  import opened Machine
  import opened Counting

  /** Between a successful registration and the matching unregister or release. */
  predicate Registered(th: Thread) {
    match th.pc
    case R(r) => r.RVerify? || r.RGuard?
    case U(m, _) => m.Unregister? || m.Release?
    case _ => false
  }

  /** A verified read guard: `read` returned it and its release has not taken effect. */
  predicate HasGuard(th: Thread) {
    match th.pc
    case R(r) => r.RGuard?
    case U(m, _) => m.Release?
    case _ => false
  }

  /** A granted write guard, up to the compare-and-swap that publishes. */
  predicate HasGrant(th: Thread) {
    match th.pc
    case W(w) => w.Granted? || w.Size? || w.PubLoad? || w.PubCas?
    case U(m, _) => m.Reset?
    case _ => false
  }

  /** Has raised the writing flag and not lowered it yet. */
  predicate Flagged(th: Thread) {
    || HasGrant(th)
    || (th.pc.W? && (th.pc.w.DrTicket? || th.pc.w.DrLoad? || th.pc.w.DrStop? || th.pc.w.DrLower?
                     || th.pc.w.DrWait? || th.pc.w.DrSleep?))
  }

  predicate HoldsLock(th: Thread) {
    match th.pc
    case W(w) => !w.Lock? && !w.TargetLock?
    case U(m, _) => m.Reset? || m.SetTarget?
    case N(sig, _) => sig.Kick? || sig.NewData?
    case _ => false
  }

  /** An action by a thread that has neither a read nor a write guard, before or after, and that leaves the
      payload, the history and the writing flag alone. */
  ghost predicate Aside(sh: Shared, th: Thread, sh': Shared, th': Thread) {
    && sh'.mem == sh.mem && sh'.pub == sh.pub && sh'.released == sh.released && sh'.readers == sh.readers
    && sh'.seqw == sh.seqw.(stopped := sh'.seqw.stopped)
    && th'.hd == th.hd
    && !HasGrant(th) && !HasGrant(th') && !HasGuard(th) && !HasGuard(th') && !Registered(th) && !Registered(th')
    && !Flagged(th) && !Flagged(th')
  }

  lemma EnterAside(sh: Shared, t: nat, th: Thread, sh': Shared, th': Thread)
    requires th.pc.W? && EnterMoved(sh, t, th, sh', th')
    ensures Aside(sh, th, sh', th')
    ensures sh' == sh.(lock := sh'.lock)
  {
  }

  lemma SignalAside(sh: Shared, t: nat, th: Thread, sh': Shared, th': Thread)
    requires (th.pc.Idle? || th.pc.N?) && Moved(sh, t, th, sh', th')
    ensures Aside(sh, th, sh', th')
  {
  }

  /** What holds of thread `t` alone: it holds the mutex exactly when its program counter says so, and the
      flag is up wherever it relies on it. */
  predicate LockLocal(sh: Shared, t: nat, th: Thread) {
    && (HoldsLock(th) <==> sh.lock == Some(t))
    && (Flagged(th) ==> sh.seqw.writing)
  }

  ghost predicate LockInv(s: State) {
    && |s.threads| < U16_MOD
    && forall t :: 0 <= t < |s.threads| ==> LockLocal(s.sh, t, s.threads[t])
  }

  /** `active_readers` is the number of registered threads. */
  ghost predicate CountInv(s: State) {
    s.sh.readers.active == |Where(s.threads, Registered)|
  }

  /** No verified read guard exists while a write guard is granted. */
  ghost predicate Excluded(s: State) {
    forall r, w :: 0 <= r < |s.threads| && 0 <= w < |s.threads| ==>
      !(HasGuard(s.threads[r]) && HasGrant(s.threads[w]))
  }

  ghost predicate Inv(s: State) { LockInv(s) && CountInv(s) && Excluded(s) }

  /** What one action may do to the mutex, the flag and the acting thread's claims on them. */
  ghost predicate LockEffect(sh: Shared, t: nat, th: Thread, sh': Shared, th': Thread) {
    && LockLocal(sh', t, th')
    && (sh'.lock == sh.lock || sh.lock == Some(t) || (sh.lock == None && sh'.lock == Some(t)))
    && (sh'.lock == sh.lock || sh'.lock == None || sh'.lock == Some(t))
    && (sh.seqw.writing ==> sh'.seqw.writing || sh.lock == Some(t))
    && (HasGrant(th') ==> HasGrant(th) || sh.readers.active == 0)
    && (HasGuard(th') ==> HasGuard(th) || !sh.seqw.writing)
    && sh'.readers.active == (sh.readers.active + One(Registered(th')) + U16_MOD - One(Registered(th))) % U16_MOD
  }

  lemma EnterLocks(sh: Shared, t: nat, th: Thread, sh': Shared, th': Thread)
    requires th.pc.W? && EnterMoved(sh, t, th, sh', th') && LockLocal(sh, t, th) && sh.readers.active < U16_MOD
    ensures LockEffect(sh, t, th, sh', th')
  {
  }

  lemma GrantLocks(sh: Shared, t: nat, th: Thread, sh': Shared, th': Thread)
    requires th.pc.W? && GrantMoved(sh, th, sh', th') && LockLocal(sh, t, th) && sh.readers.active < U16_MOD
    ensures LockEffect(sh, t, th, sh', th')
  {
  }

  lemma UpdateLocks(sh: Shared, t: nat, th: Thread, sh': Shared, th': Thread)
    requires th.pc.U? && Moved(sh, t, th, sh', th') && LockLocal(sh, t, th) && sh.readers.active < U16_MOD
    ensures LockEffect(sh, t, th, sh', th')
  {
  }

  lemma OtherLocks(sh: Shared, t: nat, th: Thread, sh': Shared, th': Thread)
    requires !th.pc.W? && !th.pc.U? && Moved(sh, t, th, sh', th') && LockLocal(sh, t, th) && sh.readers.active < U16_MOD
    ensures LockEffect(sh, t, th, sh', th')
  {
  }

  lemma Kept(s: State, t: nat, s': State)
    requires Inv(s) && t < |s.threads| == |s'.threads|
    requires s'.threads == s.threads[t := s'.threads[t]]
    requires LockEffect(s.sh, t, s.threads[t], s'.sh, s'.threads[t])
    ensures Inv(s')
  {
    WhereUpdate(s.threads, t, s'.threads[t], Registered);
    WhereBound(s.threads, Registered);
    WhereBound(s'.threads, Registered);
    if s.sh.readers.active == 0 {
      WhereEmpty(s.threads, Registered);
    }
  }

  lemma InvStep(s: State, t: nat, s': State)
    requires Inv(s) && Step(s, t, s')
    ensures Inv(s')
  {
    WhereBound(s.threads, Registered);
    var th, th' := s.threads[t], s'.threads[t];
    if th.pc.U? {
      UpdateLocks(s.sh, t, th, s'.sh, th');
    } else if !th.pc.W? {
      OtherLocks(s.sh, t, th, s'.sh, th');
    } else if EnterMoved(s.sh, t, th, s'.sh, th') {
      EnterLocks(s.sh, t, th, s'.sh, th');
    } else {
      GrantLocks(s.sh, t, th, s'.sh, th');
    }
    Kept(s, t, s');
  }

  lemma InvInit(s: State)
    requires Init(s)
    ensures Inv(s)
  {
    assert Where(s.threads, Registered) == {};
  }
}
