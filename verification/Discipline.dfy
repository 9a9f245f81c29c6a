/** If every reader is disciplined, the consumption counter counts readers, under any policy. */
module Discipline {
  import opened Words
  import opened Machine
  import opened Counting
  import opened Exclusion
  import opened History
  import opened Safety
  import opened Order

  predicate Finished(n: nat, th: Thread) { th.hd.lastIdx == n && !HasGuard(th) }

  /** The readers that have had a guard of the current message and released it. */
  ghost function Done(s: State): set<nat> {
    set t: nat | t < |s.threads| && Finished(|s.sh.pub|, s.threads[t])
  }

  ghost predicate DisciplineInv(s: State) {
    && (forall t :: 0 <= t < |s.threads| ==> OrderLocal(s.sh, s.threads[t]))
    && s.sh.released == (if s.sh.pub == [] then 0 else |Done(s)|)
  }

  lemma FinishedKept(sh: Shared, th: Thread, sh': Shared, th': Thread)
    requires OrderEffect(sh, th, sh', th')
    requires HasGuard(th) ==> th.hd.lastIdx == |sh.pub|
    requires Obtains(sh, th, th') ==> th.hd.lastIdx < |sh.pub|
    ensures One(Finished(|sh.pub|, th')) == One(Finished(|sh.pub|, th)) + One(HasGuard(th) && !HasGuard(th'))
  {
  }

  lemma DoneKept(s: State, t: nat, s': State)
    requires t < |s.threads| == |s'.threads| && s'.threads == s.threads[t := s'.threads[t]] && s'.sh.pub == s.sh.pub
    ensures |Done(s')| + One(Finished(|s.sh.pub|, s.threads[t])) == |Done(s)| + One(Finished(|s.sh.pub|, s'.threads[t]))
  {
    assert Done(s) - {t} == Done(s') - {t};
    OneApart(Done(s), Done(s'), t);
  }

  lemma ReleasedKept(s: State, t: nat, s': State)
    requires DisciplineInv(s) && t < |s.threads| == |s'.threads| && s'.threads == s.threads[t := s'.threads[t]]
    requires HistoryLocal(s.sh, s.threads[t]) && HistoryEffect(s.sh, s.threads[t], s'.sh, s'.threads[t])
    requires OrderEffect(s.sh, s.threads[t], s'.sh, s'.threads[t])
    requires forall u :: 0 <= u < |s'.threads| ==> OrderLocal(s'.sh, s'.threads[u])
    requires Obtains(s.sh, s.threads[t], s'.threads[t]) ==> s.threads[t].hd.lastIdx < |s.sh.pub|
    ensures s'.sh.released == (if s'.sh.pub == [] then 0 else |Done(s')|)
  {
    assert OrderLocal(s.sh, s.threads[t]);
    if s'.sh.pub == s.sh.pub {
      FinishedKept(s.sh, s.threads[t], s'.sh, s'.threads[t]);
      DoneKept(s, t, s');
    } else {
      NobodyFinished(s, t, s');
    }
  }

  lemma NobodyFinished(s: State, t: nat, s': State)
    requires DisciplineInv(s) && t < |s.threads| == |s'.threads| && s'.threads == s.threads[t := s'.threads[t]]
    requires OrderEffect(s.sh, s.threads[t], s'.sh, s'.threads[t]) && Publishes(s.sh, s'.sh)
    ensures Done(s') == {}
  {
    forall u | 0 <= u < |s'.threads| ensures s'.threads[u].hd.lastIdx <= |s.sh.pub| {
      assert OrderLocal(s.sh, s.threads[u]);
    }
  }

  lemma DisciplineStep(s: State, t: nat, s': State)
    requires Exclusion.Inv(s) && HistoryInv(s) && DisciplineInv(s) && Step(s, t, s')
    requires Disciplined(s.threads[t], s'.threads[t])
    ensures DisciplineInv(s')
  {
    HistoryStep(s, t, s');
    OrderStep(s, t, s');
    assert HistoryLocal(s.sh, s.threads[t]) && OrderLocal(s.sh, s.threads[t]);
    forall u | 0 <= u < |s'.threads| ensures OrderLocal(s'.sh, s'.threads[u]) {
      assert OrderLocal(s.sh, s.threads[u]);
    }
    ReleasedKept(s, t, s');
  }

  ghost predicate DisciplinedAt(run: seq<State>, tids: seq<nat>, i: nat)
    requires Run(run, tids) && i < |tids|
  {
    Disciplined(run[i].threads[tids[i]], run[i + 1].threads[tids[i]])
  }

  /** Every `read` of every thread passes its handle's last seen sequence. */
  ghost predicate AllDisciplined(run: seq<State>, tids: seq<nat>)
    requires Run(run, tids)
  {
    forall i :: 0 <= i < |tids| ==> DisciplinedAt(run, tids, i)
  }

  lemma DisciplineAt(run: seq<State>, tids: seq<nat>, i: nat)
    requires Run(run, tids) && AllDisciplined(run, tids) && i < |tids| && DisciplineInv(run[i])
    ensures DisciplineInv(run[i + 1])
  {
    SafeAlways(run, tids, i);
    assert StepAt(run, tids, i) && DisciplinedAt(run, tids, i);
    DisciplineStep(run[i], tids[i], run[i + 1]);
  }

  lemma {:induction false} DisciplineAlways(run: seq<State>, tids: seq<nat>, i: nat)
    requires Run(run, tids) && AllDisciplined(run, tids) && i < |run|
    ensures DisciplineInv(run[i])
  {
    if i > 0 {
      DisciplineAlways(run, tids, i - 1);
      DisciplineAt(run, tids, i - 1);
    }
  }

  /** Counter conservation for disciplined readers, under any policy: outside the publish window
      `data_consumed` is exactly the number of readers finished with the current message, so it never wraps;
      before the first message it is zero. */
  lemma CountersExact(run: seq<State>, tids: seq<nat>, i: nat)
    requires Run(run, tids) && AllDisciplined(run, tids) && i < |run|
    requires forall w :: 0 <= w < |run[i].threads| ==> !InWindow(run[i].threads[w])
    ensures run[i].sh.readers.consumed == run[i].sh.released == if run[i].sh.pub == [] then 0 else |Done(run[i])|
    ensures |Done(run[i])| <= |run[i].threads| < U16_MOD
  {
    DisciplineAlways(run, tids, i);
    SafeAlways(run, tids, i);
    RangeSize(|run[i].threads|, Done(run[i]));
  }
}
