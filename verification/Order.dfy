/** Disciplined readers receive messages in publish order, none twice, whatever everyone else does. */
module Order {
  import opened Words
  import opened Machine
  import opened Exclusion
  import opened History
  import opened Safety

  /** Inside `read`, before it returns a guard. */
  predicate Seeking(th: Thread) {
    match th.pc
    case R(r) => !r.RGuard?
    case U(m, _) => m.Register? || m.Unregister?
    case N(sig, _) => sig.Unregistered?
    case _ => false
  }

  /** Calls `read`. */
  predicate StartsRead(th: Thread, th': Thread) { th.pc == Idle && th'.pc == R(RTicket) }

  /** A disciplined step: every `read` passes the handle's last seen sequence. */
  predicate Disciplined(th: Thread, th': Thread) {
    StartsRead(th, th') ==> th'.rd.ls == th.hd.lastSeen
  }

  predicate OrderLocal(sh: Shared, th: Thread) {
    && th.hd.lastSeen == SequenceOf(th.hd.lastIdx) && th.hd.lastIdx <= |sh.pub|
    && (HasGuard(th) ==> th.hd.lastIdx > 0)
    && (Seeking(th) ==> th.rd.ls == th.hd.lastSeen)
  }

  /** Files the message it holds, completely copied. */
  predicate Files(th: Thread, th': Thread) {
    && th.pc == R(RGuard) && th'.pc == U(Release, None)
    && th'.hd == th.hd.(got := th.hd.got + [Receipt(th.hd.lastIdx, th.rd.acc)])
  }

  /** Obtains a guard of the current message. */
  predicate Obtains(sh: Shared, th: Thread, th': Thread) {
    && th.pc == R(RVerify) && th'.pc == R(RGuard)
    && th'.hd == th.hd.(lastSeen := sh.seqw.sequence, lastIdx := |sh.pub|)
  }

  ghost predicate OrderEffect(sh: Shared, th: Thread, sh': Shared, th': Thread) {
    && (|| (th'.hd == th.hd && (th'.pc == R(RGuard) <==> th.pc == R(RGuard)))
        || (th'.hd == th.hd && th.pc == R(RGuard))
        || Files(th, th')
        || Obtains(sh, th, th'))
    && (Seeking(th') ==> (Seeking(th) || StartsRead(th, th')) && th'.hd == th.hd)
    && (HasGuard(th') && !HasGuard(th) ==> Obtains(sh, th, th'))
    && (Obtains(sh, th, th') ==> sh.seqw.sequence == th.rd.seen && sh' == sh)
  }

  lemma WriterOrders(sh: Shared, t: nat, th: Thread, sh': Shared, th': Thread)
    requires th.pc.W? && Moved(sh, t, th, sh', th')
    ensures OrderEffect(sh, th, sh', th') && th'.hd == th.hd && !Seeking(th')
  {
  }

  lemma OtherOrders(sh: Shared, t: nat, th: Thread, sh': Shared, th': Thread)
    requires !th.pc.W? && Moved(sh, t, th, sh', th')
    ensures OrderEffect(sh, th, sh', th')
  {
  }

  lemma LocalOrders(sh: Shared, t: nat, th: Thread, sh': Shared, th': Thread)
    requires Moved(sh, t, th, sh', th') && OrderLocal(sh, th) && Disciplined(th, th') && |sh.pub| <= |sh'.pub|
    requires HistoryLocal(sh, th)
    requires sh.seqw.sequence == SequenceOf(|sh.pub|)
    requires OrderEffect(sh, th, sh', th')
    ensures OrderLocal(sh', th')
    ensures Obtains(sh, th, th') ==> th.hd.lastIdx < |sh.pub|
  {
  }

  /** The messages filed so far: indices from 1, strictly increasing, and all before the one held. */
  ghost predicate ReceiptOrder(th: Thread) {
    var got, last := th.hd.got, th.hd.lastIdx;
    && (forall i, j :: 0 <= i < j < |got| ==> got[i].index < got[j].index)
    && (forall i :: 0 <= i < |got| ==> 1 <= got[i].index <= last)
    && (th.pc == R(RGuard) ==> last >= 1 && forall i :: 0 <= i < |got| ==> got[i].index < last)
  }

  lemma ReceiptStep(sh: Shared, th: Thread, sh': Shared, th': Thread)
    requires OrderEffect(sh, th, sh', th') && ReceiptOrder(th)
    requires Obtains(sh, th, th') ==> th.hd.lastIdx < |sh.pub|
    ensures ReceiptOrder(th')
  {
  }

  ghost predicate DisciplinedRun(run: seq<State>, tids: seq<nat>, t: nat)
    requires Run(run, tids) && t < |run[0].threads|
  {
    forall i :: 0 <= i < |tids| && tids[i] == t ==> Disciplined(run[i].threads[t], run[i + 1].threads[t])
  }

  lemma OrderStep(s: State, t: nat, s': State)
    requires Exclusion.Inv(s) && HistoryInv(s) && Step(s, t, s')
    ensures OrderEffect(s.sh, s.threads[t], s'.sh, s'.threads[t])
    ensures |s.sh.pub| <= |s'.sh.pub|
    ensures OrderLocal(s.sh, s.threads[t]) && Disciplined(s.threads[t], s'.threads[t]) ==>
              && OrderLocal(s'.sh, s'.threads[t])
              && (Obtains(s.sh, s.threads[t], s'.threads[t]) ==> s.threads[t].hd.lastIdx < |s.sh.pub|)
  {
    var th, th' := s.threads[t], s'.threads[t];
    HistoryStep(s, t, s');
    if th.pc.W? {
      WriterOrders(s.sh, t, th, s'.sh, th');
    } else {
      OtherOrders(s.sh, t, th, s'.sh, th');
    }
    assert HistoryLocal(s.sh, th);
    if OrderLocal(s.sh, th) && Disciplined(th, th') {
      LocalOrders(s.sh, t, th, s'.sh, th');
    }
  }

  lemma OrderAt(run: seq<State>, tids: seq<nat>, t: nat, i: nat)
    requires Run(run, tids) && i < |tids| && t < |run[0].threads| && DisciplinedRun(run, tids, t)
    requires OrderLocal(run[i].sh, run[i].threads[t]) && ReceiptOrder(run[i].threads[t])
    ensures OrderLocal(run[i + 1].sh, run[i + 1].threads[t]) && ReceiptOrder(run[i + 1].threads[t])
  {
    SafeAlways(run, tids, i);
    assert StepAt(run, tids, i);
    OrderStep(run[i], tids[i], run[i + 1]);
    if tids[i] == t {
      ReceiptStep(run[i].sh, run[i].threads[t], run[i + 1].sh, run[i + 1].threads[t]);
    }
  }

  /** A thread that always passes its handle's last seen sequence files messages in publish order and no
      message twice, under any policy and any behaviour of the other threads. */
  lemma {:induction false} OrderAlways(run: seq<State>, tids: seq<nat>, t: nat, i: nat)
    requires Run(run, tids) && i < |run| && t < |run[0].threads| && DisciplinedRun(run, tids, t)
    ensures OrderLocal(run[i].sh, run[i].threads[t])
    ensures ReceiptOrder(run[i].threads[t])
  {
    if i > 0 {
      OrderAlways(run, tids, t, i - 1);
      OrderAt(run, tids, t, i - 1);
    }
  }
}
