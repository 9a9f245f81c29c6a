/** What the history flags of the buffer record, read off the run. */
module Traces {
  import opened Machine

  /** Stores a byte or the size. */
  predicate Touches(th: Thread, th': Thread) {
    th.pc == W(Size) || (th.pc == W(Granted) && th'.pc == W(Granted))
  }

  /** Gives a granted write guard up without publishing. */
  predicate Drops(th: Thread, th': Thread) { th.pc == W(Granted) && th'.pc == W(Unlock) }

  /** The buffer or the size was stored to since the last publish before state `i`. */
  ghost predicate Touched(run: seq<State>, tids: seq<nat>, i: nat)
    requires Run(run, tids) && i < |run|
  {
    && i > 0 && run[i].sh.pub == run[i - 1].sh.pub
    && (Touched(run, tids, i - 1) || Touches(run[i - 1].threads[tids[i - 1]], run[i].threads[tids[i - 1]]))
  }

  /** Since the last publish before state `i` an aborted write lowered the flag over a touched buffer. */
  ghost predicate Exposed(run: seq<State>, tids: seq<nat>, i: nat)
    requires Run(run, tids) && i < |run|
  {
    && i > 0 && run[i].sh.pub == run[i - 1].sh.pub
    && (|| Exposed(run, tids, i - 1)
        || (run[i - 1].threads[tids[i - 1]].pc == W(DrLower) && Touched(run, tids, i - 1)))
  }

  /** Some granted write guard was given up unpublished before state `i`. */
  ghost predicate Dropped(run: seq<State>, tids: seq<nat>, i: nat)
    requires Run(run, tids) && i < |run|
  {
    exists k :: 0 <= k < i && DropsAt(run, tids, k)
  }

  ghost predicate DropsAt(run: seq<State>, tids: seq<nat>, k: nat)
    requires Run(run, tids) && k < |tids|
  {
    Drops(run[k].threads[tids[k]], run[k + 1].threads[tids[k]])
  }

  ghost predicate FlagEffect(sh: Shared, th: Thread, sh': Shared, th': Thread) {
    && (sh'.pub != sh.pub ==> !sh'.mem.dirty && !sh'.mem.tainted)
    && (sh'.pub == sh.pub ==>
          && sh'.mem.dirty == (sh.mem.dirty || Touches(th, th'))
          && sh'.mem.tainted == (sh.mem.tainted || (th.pc == W(DrLower) && sh.mem.dirty)))
    && sh'.mem.abandoned == (sh.mem.abandoned || Drops(th, th'))
  }

  lemma GrantFlags(sh: Shared, th: Thread, sh': Shared, th': Thread)
    requires th.pc.W? && GrantMoved(sh, th, sh', th')
    ensures FlagEffect(sh, th, sh', th')
  {
    if sh'.pub == sh.pub + [Data(sh.mem)] {
      assert |sh'.pub| != |sh.pub|;
    }
  }

  lemma EnterFlags(sh: Shared, t: nat, th: Thread, sh': Shared, th': Thread)
    requires th.pc.W? && EnterMoved(sh, t, th, sh', th')
    ensures FlagEffect(sh, th, sh', th')
  {
  }

  lemma OtherFlags(sh: Shared, t: nat, th: Thread, sh': Shared, th': Thread)
    requires !th.pc.W? && Moved(sh, t, th, sh', th')
    ensures FlagEffect(sh, th, sh', th')
  {
  }

  lemma FlagsAt(run: seq<State>, tids: seq<nat>, i: nat)
    requires Run(run, tids) && i < |tids|
    ensures FlagEffect(run[i].sh, run[i].threads[tids[i]], run[i + 1].sh, run[i + 1].threads[tids[i]])
  {
    assert StepAt(run, tids, i);
    var sh, t, th, sh', th' := run[i].sh, tids[i], run[i].threads[tids[i]], run[i + 1].sh, run[i + 1].threads[tids[i]];
    if !th.pc.W? {
      OtherFlags(sh, t, th, sh', th');
    } else if EnterMoved(sh, t, th, sh', th') {
      EnterFlags(sh, t, th, sh', th');
    } else {
      GrantFlags(sh, th, sh', th');
    }
  }

  lemma DroppedNext(run: seq<State>, tids: seq<nat>, i: nat)
    requires Run(run, tids) && i < |tids|
    ensures Dropped(run, tids, i + 1) <==> Dropped(run, tids, i) || DropsAt(run, tids, i)
  {
    if DropsAt(run, tids, i) {
      assert Dropped(run, tids, i + 1);
    }
  }

  /** The flags say what happened: the buffer is marked dirty exactly when it was stored to since the last
      publish, tainted exactly when an abort lowered the flag over it since, and abandoned exactly when some
      write guard was given up unpublished. */
  lemma {:induction false} FlagsRecord(run: seq<State>, tids: seq<nat>, i: nat)
    requires Run(run, tids) && i < |run|
    ensures run[i].sh.mem.dirty <==> Touched(run, tids, i)
    ensures run[i].sh.mem.tainted <==> Exposed(run, tids, i)
    ensures run[i].sh.mem.abandoned <==> Dropped(run, tids, i)
  {
    if i > 0 {
      FlagsRecord(run, tids, i - 1);
      FlagsAt(run, tids, i - 1);
      DroppedNext(run, tids, i - 1);
    }
  }
}
