/** The invariants together, in every state of every run. */
module Safety {
  import opened Machine
  import opened Exclusion
  import opened History
  import opened Content
  import opened Wakeups

  ghost predicate Safe(s: State) {
    Exclusion.Inv(s) && HistoryInv(s) && ContentInv(s) && WakeInv(s)
  }

  lemma SafeStep(s: State, t: nat, s': State)
    requires Safe(s) && Step(s, t, s')
    ensures Safe(s')
  {
    Exclusion.InvStep(s, t, s');
    HistoryStep(s, t, s');
    ContentStep(s, t, s');
    WakeStep(s, t, s');
  }

  lemma SafeInit(s: State)
    requires Init(s)
    ensures Safe(s)
  {
    Exclusion.InvInit(s);
    HistoryInit(s);
    ContentInit(s);
    WakeInit(s);
  }

  lemma SafeAt(run: seq<State>, tids: seq<nat>, i: nat)
    requires Run(run, tids) && i < |tids| && Safe(run[i])
    ensures Safe(run[i + 1])
  {
    assert StepAt(run, tids, i);
    SafeStep(run[i], tids[i], run[i + 1]);
  }

  lemma {:induction false} SafeAlways(run: seq<State>, tids: seq<nat>, i: nat)
    requires Run(run, tids) && i < |run|
    ensures Safe(run[i])
  {
    if i == 0 {
      SafeInit(run[0]);
    } else {
      SafeAlways(run, tids, i - 1);
      SafeAt(run, tids, i - 1);
    }
  }
}
