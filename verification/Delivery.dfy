/** Wait-all broadcast: every registered reader receives every message exactly once and in order. */
module Delivery {
  import opened Words
  import opened Machine
  import opened Counting
  import opened Exclusion
  import opened History
  import opened Content
  import opened Order
  import opened Safety
  import opened Discipline
  import opened Traces
  import Progress

  /** What the wait-all setting asks of each step, for the readers `rs`: only they read, with discipline and
      copying each message whole before dropping its guard; nobody is removed; the target is never set
      below their number; and nobody writes before target and consumers have reached it. */
  ghost predicate WaitAll(rs: set<nat>, sh: Shared, t: nat, th: Thread, th': Thread) {
    && (StartsRead(th, th') ==> t in rs && Disciplined(th, th'))
    && (th.pc == R(RGuard) && th'.pc != R(RGuard) ==> th.rd.view == Some(|th.rd.acc|))
    && (th.pc == Idle ==> th'.pc != U(RemoveReader, None))
    && (th'.pc.W? && th'.pc.w.TargetLock? ==> |rs| <= th'.pc.w.count)
    && (th.pc == Idle && th'.pc == W(Lock) ==> Ready(|rs|, sh.readers))
  }

  /** Target and consumers have both reached the number of readers. */
  predicate Ready(n: nat, r: ReadersState) { n <= r.target && n <= r.consumers }

  /** Takes part in reading. */
  predicate Reads(th: Thread) { Seeking(th) || HasGuard(th) || (th.pc.N? && th.pc.sig.Released?) }

  predicate SetupLocal(n: nat, sh: Shared, th: Thread) {
    && !(th.pc.U? && th.pc.m.RemoveReader?)
    && (th.pc.U? && th.pc.m.SetTarget? ==> n <= th.pc.m.count)
    && (th.pc.W? && th.pc.w.TargetLock? ==> n <= th.pc.w.count)
    && (Progress.InFlight(th) ==> Ready(n, sh.readers))
    && (Looked(th) ==> n <= TargetConsumed(th.wr.look))
  }

  /** The messages filed are the first so many of the history; the message held comes next, and at most
      the newest is missing. */
  ghost predicate ReaderLocal(sh: Shared, th: Thread) {
    && OrderLocal(sh, th)
    && |sh.pub| <= th.hd.lastIdx + 1
    && |th.hd.got| + One(th.pc == R(RGuard)) == th.hd.lastIdx
    && forall k :: 0 <= k < |th.hd.got| ==> th.hd.got[k].index == k + 1
  }

  /** A reader of the set keeps up; nobody else has ever read. */
  ghost predicate MemberLocal(member: bool, sh: Shared, th: Thread) {
    if member then ReaderLocal(sh, th) else !Reads(th) && th.hd.lastIdx == 0
  }

  ghost predicate DeliveryInv(rs: set<nat>, s: State) {
    && (forall t :: 0 <= t < |s.threads| ==> SetupLocal(|rs|, s.sh, s.threads[t]))
    && (s.sh.pub != [] ==> Ready(|rs|, s.sh.readers))
    && (forall t :: 0 <= t < |s.threads| ==> MemberLocal(t in rs, s.sh, s.threads[t]))
  }

  // ---------- setup ----------

  ghost predicate SetupEffect(n: nat, sh: Shared, th: Thread, sh': Shared, th': Thread) {
    && SetupLocal(n, sh', th')
    && (Ready(n, sh.readers) ==> Ready(n, sh'.readers))
    && (Reads(th') ==> Reads(th) || StartsRead(th, th'))
  }

  lemma EnterSetup(rs: set<nat>, sh: Shared, t: nat, th: Thread, sh': Shared, th': Thread)
    requires th.pc.W? && EnterMoved(sh, t, th, sh', th') && WaitAll(rs, sh, t, th, th') && SetupLocal(|rs|, sh, th)
    ensures SetupEffect(|rs|, sh, th, sh', th')
  {
  }

  lemma GrantSetup(rs: set<nat>, sh: Shared, t: nat, th: Thread, sh': Shared, th': Thread)
    requires th.pc.W? && GrantMoved(sh, th, sh', th') && WaitAll(rs, sh, t, th, th') && SetupLocal(|rs|, sh, th)
    ensures SetupEffect(|rs|, sh, th, sh', th')
  {
  }

  lemma OtherSetup(rs: set<nat>, sh: Shared, t: nat, th: Thread, sh': Shared, th': Thread)
    requires !th.pc.W? && Moved(sh, t, th, sh', th') && WaitAll(rs, sh, t, th, th') && SetupLocal(|rs|, sh, th)
    ensures SetupEffect(|rs|, sh, th, sh', th')
  {
  }

  // ---------- one reader ----------

  lemma ReaderStep(rs: set<nat>, s: State, t: nat, s': State)
    requires Exclusion.Inv(s) && HistoryInv(s) && DeliveryInv(rs, s) && Step(s, t, s')
    requires s'.sh.pub == s.sh.pub || (t in rs ==> s.threads[t].hd.lastIdx == |s.sh.pub|)
    requires WaitAll(rs, s.sh, t, s.threads[t], s'.threads[t])
    requires SetupEffect(|rs|, s.sh, s.threads[t], s'.sh, s'.threads[t])
    ensures MemberLocal(t in rs, s'.sh, s'.threads[t])
  {
    assert MemberLocal(t in rs, s.sh, s.threads[t]);
    HistoryStep(s, t, s');
    OrderStep(s, t, s');
  }

  /** The pigeonhole: as many finished readers as there are readers means all of them. */
  lemma Pigeonhole(some: set<nat>, all: set<nat>)
    requires some <= all && |all| <= |some|
    ensures some == all
  {
    assert all == some + (all - some);
    assert |all| == |some| + |all - some|;
  }

  /** Whoever holds a write guard has waited for every reader to finish with the message being replaced. */
  lemma AllFinished(rs: set<nat>, s: State, t: nat)
    requires HistoryInv(s) && DisciplineInv(s) && DeliveryInv(rs, s) && t < |s.threads| && HasGrant(s.threads[t])
    requires forall r :: r in rs ==> r < |s.threads|
    ensures forall r :: r in rs ==> Finished(|s.sh.pub|, s.threads[r])
  {
    assert HistoryLocal(s.sh, s.threads[t]) && SetupLocal(|rs|, s.sh, s.threads[t]);
    if s.sh.pub == [] {
      forall r | r in rs ensures Finished(0, s.threads[r]) {
        assert MemberLocal(r in rs, s.sh, s.threads[r]);
      }
    } else {
      forall d | d in Done(s) ensures d in rs {
        assert MemberLocal(d in rs, s.sh, s.threads[d]);
      }
      Pigeonhole(Done(s), rs);
      forall r | r in rs ensures Finished(|s.sh.pub|, s.threads[r]) {
        assert r in Done(s);
      }
    }
  }

  lemma SetupStep(rs: set<nat>, s: State, t: nat, s': State)
    requires DeliveryInv(rs, s) && Step(s, t, s') && WaitAll(rs, s.sh, t, s.threads[t], s'.threads[t])
    ensures SetupEffect(|rs|, s.sh, s.threads[t], s'.sh, s'.threads[t])
  {
    var th, th' := s.threads[t], s'.threads[t];
    assert SetupLocal(|rs|, s.sh, th);
    if !th.pc.W? {
      OtherSetup(rs, s.sh, t, th, s'.sh, th');
    } else if EnterMoved(s.sh, t, th, s'.sh, th') {
      EnterSetup(rs, s.sh, t, th, s'.sh, th');
    } else {
      GrantSetup(rs, s.sh, t, th, s'.sh, th');
    }
  }

  lemma DeliveryStep(rs: set<nat>, s: State, t: nat, s': State)
    requires Exclusion.Inv(s) && HistoryInv(s) && DisciplineInv(s) && DeliveryInv(rs, s) && Step(s, t, s')
    requires WaitAll(rs, s.sh, t, s.threads[t], s'.threads[t])
    requires forall r :: r in rs ==> r < |s.threads|
    ensures DeliveryInv(rs, s')
  {
    HistoryStep(s, t, s');
    SetupStep(rs, s, t, s');
    assert SetupLocal(|rs|, s.sh, s.threads[t]);
    if s'.sh.pub != s.sh.pub {
      AllFinished(rs, s, t);
    }
    ReaderStep(rs, s, t, s');
    forall u | 0 <= u < |s'.threads| ensures MemberLocal(u in rs, s'.sh, s'.threads[u]) {
      assert MemberLocal(u in rs, s.sh, s.threads[u]);
    }
  }

  lemma DeliveryInit(rs: set<nat>, s: State)
    requires Init(s)
    ensures DeliveryInv(rs, s)
  {
  }

  ghost predicate WaitAllAt(rs: set<nat>, run: seq<State>, tids: seq<nat>, i: nat)
    requires Run(run, tids) && i < |tids|
  {
    WaitAll(rs, run[i].sh, tids[i], run[i].threads[tids[i]], run[i + 1].threads[tids[i]])
  }

  /** A run in the wait-all setting for the readers `rs`. */
  ghost predicate WaitAllRun(rs: set<nat>, run: seq<State>, tids: seq<nat>)
    requires Run(run, tids)
  {
    && (forall r :: r in rs ==> r < |run[0].threads|)
    && forall i :: 0 <= i < |tids| ==> WaitAllAt(rs, run, tids, i)
  }

  lemma DeliveryAt(rs: set<nat>, run: seq<State>, tids: seq<nat>, i: nat)
    requires Run(run, tids) && WaitAllRun(rs, run, tids) && i < |tids| && DeliveryInv(rs, run[i])
    ensures DeliveryInv(rs, run[i + 1])
  {
    SafeAlways(run, tids, i);
    WaitAllDisciplined(rs, run, tids);
    DisciplineAlways(run, tids, i);
    assert StepAt(run, tids, i) && WaitAllAt(rs, run, tids, i);
    DeliveryStep(rs, run[i], tids[i], run[i + 1]);
  }

  lemma WaitAllDisciplined(rs: set<nat>, run: seq<State>, tids: seq<nat>)
    requires Run(run, tids) && WaitAllRun(rs, run, tids)
    ensures AllDisciplined(run, tids)
  {
    forall i | 0 <= i < |tids| ensures DisciplinedAt(run, tids, i) {
      assert WaitAllAt(rs, run, tids, i);
    }
  }

  lemma {:induction false} DeliveryAlways(rs: set<nat>, run: seq<State>, tids: seq<nat>, i: nat)
    requires Run(run, tids) && WaitAllRun(rs, run, tids) && i < |run|
    ensures DeliveryInv(rs, run[i])
  {
    if i == 0 {
      DeliveryInit(rs, run[0]);
    } else {
      DeliveryAlways(rs, run, tids, i - 1);
      DeliveryAt(rs, run, tids, i - 1);
    }
  }

  /** The writer's side of wait-all: while anyone holds a write guard, every reader has obtained the message
      being replaced and released it again. */
  lemma PublisherWaited(rs: set<nat>, run: seq<State>, tids: seq<nat>, i: nat, t: nat)
    requires Run(run, tids) && WaitAllRun(rs, run, tids) && i < |run|
    requires t < |run[0].threads| && HasGrant(run[i].threads[t])
    ensures forall r :: r in rs ==> Finished(|run[i].sh.pub|, run[i].threads[r])
  {
    SafeAlways(run, tids, i);
    WaitAllDisciplined(rs, run, tids);
    DisciplineAlways(run, tids, i);
    DeliveryAlways(rs, run, tids, i);
    AllFinished(rs, run[i], t);
  }

  /** The payloads a reader has copied out, in order. */
  ghost function Received(th: Thread): seq<seq<Byte>> {
    seq(|th.hd.got|, k requires 0 <= k < |th.hd.got| => th.hd.got[k].bytes)
  }

  /** Wait-all broadcast delivers everything exactly once and in order: in every state of every run in
      which no granted write guard was dropped unpublished, what a reader has received is the whole publish
      history or the history without its newest message. */
  lemma WaitAllDelivers(rs: set<nat>, run: seq<State>, tids: seq<nat>, i: nat, r: nat)
    requires Run(run, tids) && WaitAllRun(rs, run, tids) && i < |run| && r in rs
    requires !Dropped(run, tids, i)
    ensures var pub := run[i].sh.pub;
            Received(run[i].threads[r]) == pub
            || (pub != [] && Received(run[i].threads[r]) == pub[..|pub| - 1])
  {
    KeepsUp(rs, run, tids, i, r);
    PrefixReceived(run[i].sh, run[i].threads[r]);
  }

  lemma KeepsUp(rs: set<nat>, run: seq<State>, tids: seq<nat>, i: nat, r: nat)
    requires Run(run, tids) && WaitAllRun(rs, run, tids) && i < |run| && r in rs
    ensures ReaderLocal(run[i].sh, run[i].threads[r])
    ensures HasGuard(run[i].threads[r]) ==> run[i].threads[r].hd.lastIdx == |run[i].sh.pub|
    ensures !Dropped(run, tids, i) ==> ReceiptsOk(run[i].sh.pub, run[i].threads[r].hd.got)
  {
    DeliveryAlways(rs, run, tids, i);
    FlagsRecord(run, tids, i);
    SafeAlways(run, tids, i);
    assert MemberLocal(r in rs, run[i].sh, run[i].threads[r]) && HistoryLocal(run[i].sh, run[i].threads[r]);
  }

  lemma PrefixReceived(sh: Shared, th: Thread)
    requires ReaderLocal(sh, th) && ReceiptsOk(sh.pub, th.hd.got)
    requires HasGuard(th) ==> th.hd.lastIdx == |sh.pub|
    ensures Received(th) == sh.pub || (sh.pub != [] && Received(th) == sh.pub[..|sh.pub| - 1])
  {
    assert |th.hd.got| == |sh.pub| || |th.hd.got| + 1 == |sh.pub|;
  }
}
